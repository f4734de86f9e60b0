/**
 * The whole server as one state machine: handlers that check, store and then synchronise, over any
 * run and across restarts.
 *
 * `up` is a history variable: the DSL of every flow whose last HTTP rebuild succeeded; `mqttUp` is the same for the
 * published MQTT track, which a handler rebuilds only after HTTP has succeeded, and a restart in any case. The first
 * theorem ties the routing function to `up` in every run, whatever the environment does. The second says that in a
 * working environment `up` is the published set itself. `MqttLifecycle` says the same of MQTT.
 */
module Lifecycle {
  import opened Prelude
  import opened FlowDsl
  import opened FlowDocs
  import opened RouteTable
  import opened RouteSync
  import opened RouteCheck
  import opened Restart
  import opened RouteShape
  import PublishLog
  import Groups
  import M = MqttLedger
  import MqttKeys
  import MqttRuns
  import MqttTracks

  datatype Sys = Sys(db: Db, http: State, mqtt: M.Ledger, up: map<string, Dsl>, mqttUp: map<string, Dsl>)

  /** What one request meets: listeners, brokers, and whether an editor has the flow open. */
  datatype World = World(env: nat -> Env, dials: nat -> M.Dial, isOpen: bool)

  datatype Reply = Done | Forbidden | Refused(error: Error) | Conflict | HttpFailed(outcome: Outcome) | MqttFailed

  // ---- synchronising both endpoint managers ----

  /** HTTP first; MQTT only if HTTP succeeded. */
  function SyncBoth(sys: Sys, f: string, published: Option<Dsl>, w: World): (Sys, Reply) {
    var (http, o) := RouteTable.SyncFlow(sys.http, f, published, w.env);
    var sys1 := sys.(http := http, up := UpAfter(sys.up, f, published, o));
    if !o.Mounted? then (sys1, HttpFailed(o))
    else
      var (mqtt, ok) := M.SyncFlow(sys.mqtt, f, published, w.dials);
      (sys1.(mqtt := mqtt, mqttUp := MqttRuns.UpWith(sys.mqttUp, f, published, ok)), if ok then Done else MqttFailed)
  }

  function RemoveBoth(sys: Sys, f: string): Sys {
    sys.(http := RouteTable.RemoveFlow(sys.http, f),
         mqtt := M.RemoveTrack(M.RemoveTrack(sys.mqtt, MqttKeys.PUBLISHED, f), MqttKeys.DRAFT, f),
         up := sys.up - {f}, mqttUp := sys.mqttUp - {f})
  }

  function DraftIfOpen(sys: Sys, f: string, w: World): Sys {
    if f !in sys.db.flows then sys
    else
      var d := sys.db.flows[f];
      sys.(mqtt := M.SyncDraft(sys.mqtt, f, w.isOpen, d.published, d.draft, w.dials).0)
  }

  function AfterPublish(sys: Sys, f: string, w: World): (Sys, Reply) {
    if f !in sys.db.flows then (sys, Done) else SyncBoth(sys, f, sys.db.flows[f].published, w)
  }

  /** A draft that cannot be mounted does not hold up going offline. */
  function AfterOffline(sys: Sys, f: string, w: World): (Sys, Reply) {
    var (sys1, r) := AfterPublish(sys, f, w);
    if r.Done? then (DraftIfOpen(sys1, f, w), Done) else (sys1, r)
  }

  // ---- handlers ----

  function HandleSave(sys: Sys, owner: string, dsl: Dsl, newId: string, now: string, w: World): (Sys, Reply) {
    var dsl := if dsl.id == "" then dsl.(id := newId) else dsl;
    match SaveFlow(sys.db, owner, dsl, now)
    case Err(e) => (sys, Refused(e))
    case Ok(db) => (DraftIfOpen(sys.(db := db), dsl.id, w), Done)
  }

  /** Store one document operation and rebuild the flow's endpoints. */
  function StoreThenSync(sys: Sys, f: string, op: DocOp, w: World): (Sys, Reply) {
    match OnFlow(sys.db, f, op)
    case Err(e) => (sys, Refused(e))
    case Ok(db) => AfterPublish(sys.(db := db), f, w)
  }

  ghost function HandlePublish(sys: Sys, f: string, note: string, now: string, w: World): (Sys, Reply) {
    if f !in sys.db.flows then (sys, Refused(NotFound))
    else
      var d := sys.db.flows[f];
      if d.locked then (sys, Refused(FlowLocked))
      else if d.draft.None? then (sys, Refused(DraftEmpty))
      else if !CheckPasses(sys.http, f, d.draft.value.nodes) then (sys, Conflict)
      else StoreThenSync(sys, f, FlowDocs.Publish(note, now), w)
  }

  function HandleOffline(sys: Sys, f: string, now: string, w: World): (Sys, Reply) {
    match OnFlow(sys.db, f, FlowDocs.Offline(now))
    case Err(e) => (sys, Refused(e))
    case Ok(db) => AfterOffline(sys.(db := db), f, w)
  }

  ghost function HandleOnline(sys: Sys, f: string, now: string, w: World): (Sys, Reply) {
    if f !in sys.db.flows then (sys, Refused(NotFound))
    else
      var d := sys.db.flows[f];
      if d.locked then (sys, Refused(FlowLocked))
      else if d.published.Some? then (sys, Refused(AlreadyOnline))
      else
        match PeekLatest(d)
        case None => (sys, Refused(NoPublishHistory))
        case Some(dsl) =>
          if !CheckPasses(sys.http, f, dsl.nodes) then (sys, Conflict)
          else StoreThenSync(sys, f, FlowDocs.Online(now), w)
  }

  ghost function HandleRollback(sys: Sys, f: string, version: int, now: string, w: World): (Sys, Reply) {
    if version <= 0 then (sys, Refused(HistoryNotFound))
    else if f !in sys.db.flows then (sys, Refused(NotFound))
    else
      var d := sys.db.flows[f];
      if d.locked then (sys, Refused(FlowLocked))
      else
        match PublishLog.RollbackChecked(d, version)
        case None => (sys, Refused(HistoryNotFound))
        case Some(dsl) =>
          if !CheckPasses(sys.http, f, dsl.nodes) then (sys, Conflict)
          else StoreThenSync(sys, f, FlowDocs.Rollback(version, now), w)
  }

  /** To the trash, or out of it for good. */
  function HandleDelete(sys: Sys, f: string, now: string, w: World): (Sys, Reply) {
    match SoftDelete(sys.db, f, now)
    case Err(e) => (sys, Refused(e))
    case Ok(db) =>
      if f !in db.flows then (RemoveBoth(sys.(db := db), f), Done)
      else if sys.db.flows[f].published.Some? then AfterOffline(sys.(db := db), f, w)
      else (sys.(db := db), Done)
  }

  /** Operations that touch the store alone. */
  predicate StoreOnly(op: Groups.StoreOp) {
    match op
    case Edit(_, d) => d.DeleteVersion? || d.SetLocked? || d.Discard?
    case Untrash(_, _) => true
    case Move(_, _, _) => true
    case AddGroup(_, _) => true
    case Rename(_, _) => true
    case DropGroup(_, _) => true
    case _ => false
  }

  /** Both managers start empty and rebuild every published flow; editors have to reconnect. */
  function HandleRestart(sys: Sys, list: seq<Listed>, envs: string -> nat -> Env, dials: string -> nat -> M.Dial): Sys {
    Sys(Opened(sys.db), Restart.StartAll(Empty, list, envs), MqttRuns.StartAll(M.NoClients, list, dials),
        StartedUp(Empty, map[], list, envs), MqttRuns.StartedUp(map[], list, dials))
  }

  datatype Op =
    | Save(owner: string, dsl: Dsl, newId: string, now: string, w: World)
    | Publish(f: string, note: string, now: string, w: World)
    | Offline(f: string, now: string, w: World)
    | Online(f: string, now: string, w: World)
    | Rollback(f: string, version: int, now: string, w: World)
    | Delete(f: string, now: string, w: World)
    | Store(op: Groups.StoreOp)
    | Reboot(list: seq<Listed>, envs: string -> nat -> Env, dials: string -> nat -> M.Dial)

  ghost function Step(sys: Sys, op: Op): Sys {
    match op
    case Save(owner, dsl, newId, now, w) => HandleSave(sys, owner, dsl, newId, now, w).0
    case Publish(f, note, now, w) => HandlePublish(sys, f, note, now, w).0
    case Offline(f, now, w) => HandleOffline(sys, f, now, w).0
    case Online(f, now, w) => HandleOnline(sys, f, now, w).0
    case Rollback(f, version, now, w) => HandleRollback(sys, f, version, now, w).0
    case Delete(f, now, w) => HandleDelete(sys, f, now, w).0
    case Store(op) => sys.(db := Groups.StoreStep(sys.db, op))
    case Reboot(list, envs, dials) => HandleRestart(sys, list, envs, dials)
  }

  ghost function Published(db: Db): map<string, Dsl> {
    map f | f in db.flows && db.flows[f].published.Some? :: db.flows[f].published.value
  }

  /** Generated ids are not empty, store operations are of the kind above, a restart lists the store. */
  ghost predicate Legal(sys: Sys, op: Op) {
    match op
    case Save(_, dsl, newId, _, _) => newId != ""
    case Store(op) => StoreOnly(op)
    case Reboot(list, _, _) => Lists(list, Published(sys.db))
    case _ => true
  }

  // ---- what holds in every run ----

  /** Every snapshot, live or archived, parses, and only a live one has a number. */
  ghost predicate DocSound(d: FlowDoc) {
    && (d.published.None? ==> d.publishedVersion == 0)
    && (d.published.Some? ==> Parses(Items(d.published.value.nodes)))
    && (forall i | 0 <= i < |d.history| :: Parses(Items(d.history[i].dsl.nodes)))
  }

  /** Everything that ever went live parses, the mounted flows are published, and the table shows them. */
  ghost predicate Inv(sys: Sys) {
    && "" !in sys.db.flows
    && (forall f | f in sys.db.flows :: DocSound(sys.db.flows[f]))
    && Mounts(sys.http, sys.up)
    && (forall f | f in sys.up :: f in sys.db.flows && sys.db.flows[f].published == Some(sys.up[f]))
  }

  lemma DocKeepsSound(d: FlowDoc, op: DocOp)
    requires DocSound(d) && OnDoc(d, op).Ok?
    requires op.Publish? ==> d.draft.Some? && Parses(Items(d.draft.value.nodes))
    ensures DocSound(OnDoc(d, op).value)
  {
    hide Items, Parses, Oldest, WithoutVersion;
    var d' := OnDoc(d, op).value;
    match op {
      case Rollback(v, _) => PublishLog.OldestIs(d.history, v);
      case DeleteVersion(v, _) =>
        PublishLog.WithoutVersionIs(d.history, v);
        forall i | 0 <= i < |d'.history| ensures Parses(Items(d'.history[i].dsl.nodes)) {
          var j :| 0 <= j < |d.history| && d.history[j] == d'.history[i];
        }
      case _ =>
    }
  }

  /** A rebuild of one flow after its document was stored. */
  lemma SyncKeepsInv(sys: Sys, f: string, d: FlowDoc, w: World)
    requires Inv(sys) && f != "" && DocSound(d)
    ensures Inv(SyncBoth(sys.(db := sys.db.(flows := sys.db.flows[f := d])), f, d.published, w).0)
  {
    hide Items, Parses, Mounts, RouteTable.SyncFlow, M.SyncFlow;
    SyncMounts(sys.http, sys.up, f, d.published, w.env) by {
      assert Mounts(sys.http, sys.up);
    }
  }

  lemma DocStepKeepsInv(sys: Sys, f: string, op: DocOp, w: World)
    requires Inv(sys) && f in sys.db.flows && OnDoc(sys.db.flows[f], op).Ok?
    requires op.Publish? ==> sys.db.flows[f].draft.Some? && Parses(Items(sys.db.flows[f].draft.value.nodes))
    ensures Inv(StoreThenSync(sys, f, op, w).0)
  {
    hide Items, Parses, Mounts, OnDoc, SyncBoth, DocSound;
    var d := OnDoc(sys.db.flows[f], op).value;
    DocKeepsSound(sys.db.flows[f], op);
    SyncKeepsInv(sys, f, d, w);
  }

  /** An operation that leaves every live snapshot alone leaves the invariant alone. */
  lemma QuietKeepsInv(sys: Sys, sys': Sys)
    requires Inv(sys)
    requires sys'.http == sys.http && sys'.up == sys.up && "" !in sys'.db.flows
    requires forall f | f in sys'.db.flows :: DocSound(sys'.db.flows[f])
    requires forall f | f in sys.up :: f in sys'.db.flows && sys'.db.flows[f].published == sys.db.flows[f].published
    ensures Inv(sys')
  {
  }

  lemma EditKeepsLive(d: FlowDoc, op: DocOp)
    requires OnDoc(d, op).Ok? && (op.DeleteVersion? || op.SetLocked? || op.Discard?)
    ensures OnDoc(d, op).value.published == d.published
  {
    hide Oldest, WithoutVersion;
  }

  lemma OtherOpsKeepSnapshots(db: Db, op: Groups.StoreOp)
    requires StoreOnly(op) && !op.Edit?
    ensures var db' := Groups.StoreStep(db, op);
            && db'.flows.Keys == db.flows.Keys
            && forall f | f in db.flows ::
              && db'.flows[f].published == db.flows[f].published
              && db'.flows[f].publishedVersion == db.flows[f].publishedVersion
              && db'.flows[f].history == db.flows[f].history
  {
    hide OnDoc;
  }

  lemma StoreOnlyKeeps(db: Db, op: Groups.StoreOp)
    requires StoreOnly(op)
    requires forall f | f in db.flows :: DocSound(db.flows[f])
    ensures var db' := Groups.StoreStep(db, op);
            && db'.flows.Keys == db.flows.Keys
            && forall f | f in db.flows :: DocSound(db'.flows[f]) && db'.flows[f].published == db.flows[f].published
  {
    hide Items, Parses, OnDoc;
    if !op.Edit? {
      hide Groups.StoreStep;
      OtherOpsKeepSnapshots(db, op);
    } else if op.f in db.flows && OnDoc(db.flows[op.f], op.op).Ok? {
      hide DocSound;
      DocKeepsSound(db.flows[op.f], op.op);
      EditKeepsLive(db.flows[op.f], op.op);
    }
  }

  lemma DeleteKeepsInv(sys: Sys, f: string, now: string, w: World)
    requires Inv(sys)
    ensures Inv(HandleDelete(sys, f, now, w).0)
  {
    hide Items, Parses, Mounts, SyncBoth, RouteTable.RemoveFlow, M.SyncDraft, M.RemoveTrack, Capped;
    if SoftDelete(sys.db, f, now).Ok? {
      var db := SoftDelete(sys.db, f, now).value;
      var d := sys.db.flows[f];
      if f !in db.flows {
        SyncMounts(sys.http, sys.up, f, None, w.env) by {
          assert Mounts(sys.http, sys.up);
        }
        SyncUnfold(sys.http, f, None, w.env);
      } else {
        if d.published.Some? {
          DocKeepsSound(d, FlowDocs.Offline(now));
          assert db.flows == sys.db.flows[f := db.flows[f]];
          SyncKeepsInv(sys, f, db.flows[f], w);
        } else {
          QuietKeepsInv(sys, sys.(db := db));
        }
      }
    }
  }

  lemma OfflineKeepsInv(sys: Sys, f: string, now: string, w: World)
    requires Inv(sys)
    ensures Inv(HandleOffline(sys, f, now, w).0)
  {
    hide Items, Parses, Mounts, SyncBoth, M.SyncDraft, OnDoc, DocSound;
    if OnFlow(sys.db, f, FlowDocs.Offline(now)).Ok? {
      DocKeepsSound(sys.db.flows[f], FlowDocs.Offline(now));
      SyncKeepsInv(sys, f, OnDoc(sys.db.flows[f], FlowDocs.Offline(now)).value, w);
    }
  }

  lemma ListedIsPublished(db: Db, list: seq<Listed>, f: string, dsl: Dsl)
    requires Lists(list, Published(db)) && Listed(f, Some(dsl)) in list
    ensures f in db.flows && db.flows[f].published == Some(dsl)
  {
    var i :| 0 <= i < |list| && list[i] == Listed(f, Some(dsl));
    assert list[i].id in Published(db);
  }

  lemma ListedParse(sys: Sys, list: seq<Listed>)
    requires Inv(sys) && Lists(list, Published(sys.db))
    ensures ListParses(list)
  {
    hide Items, Parses, Mounts, Lists;
    forall i | 0 <= i < |list| && list[i].published.Some?
      ensures list[i].id != "" && Parses(Items(list[i].published.value.nodes)) {
      assert list[i] == Listed(list[i].id, Some(list[i].published.value));
      ListedIsPublished(sys.db, list, list[i].id, list[i].published.value);
      assert DocSound(sys.db.flows[list[i].id]);
    }
  }

  lemma RestartKeepsInv(sys: Sys, list: seq<Listed>, envs: string -> nat -> Env, dials: string -> nat -> M.Dial)
    requires Inv(sys) && Lists(list, Published(sys.db))
    ensures Inv(HandleRestart(sys, list, envs, dials))
  {
    hide Items, Parses, MqttRuns.StartAll, Restart.StartAll, StartedUp, Lists, ListParses, Mounts, DocSound;
    EmptyMounts();
    ListedParse(sys, list);
    StartMounts(Empty, map[], list, envs);
    var up := StartedUp(Empty, map[], list, envs);
    forall f | f in up ensures f in sys.db.flows && sys.db.flows[f].published == Some(up[f]) {
      ListedIsPublished(sys.db, list, f, up[f]);
    }
  }

  lemma StepKeepsInv(sys: Sys, op: Op)
    requires Inv(sys) && Legal(sys, op)
    ensures Inv(Step(sys, op))
  {
    hide Items, Parses, Mounts, SyncBoth, OnDoc, CheckPasses, StoreThenSync, HandleDelete, HandleOffline, HandleRestart,
         M.SyncDraft, PublishLog.RollbackChecked, DocSound;
    match op {
      case Save(owner, dsl, newId, now, w) => SaveKeepsInv(sys, owner, dsl, newId, now, w);
      case Publish(f, note, now, w) =>
        if f in sys.db.flows && sys.db.flows[f].draft.Some? &&
           CheckPasses(sys.http, f, sys.db.flows[f].draft.value.nodes) {
          CheckParses(sys.http, f, sys.db.flows[f].draft.value.nodes);
          DocSyncOrRefused(sys, f, FlowDocs.Publish(note, now), w);
        }
      case Offline(f, now, w) => OfflineKeepsInv(sys, f, now, w);
      case Online(f, now, w) => DocSyncOrRefused(sys, f, FlowDocs.Online(now), w);
      case Rollback(f, version, now, w) => DocSyncOrRefused(sys, f, FlowDocs.Rollback(version, now), w);
      case Delete(f, now, w) => DeleteKeepsInv(sys, f, now, w);
      case Store(op) =>
        StoreOnlyKeeps(sys.db, op);
        QuietKeepsInv(sys, sys.(db := Groups.StoreStep(sys.db, op)));
      case Reboot(list, envs, dials) => RestartKeepsInv(sys, list, envs, dials);
    }
  }

  lemma CheckParses(s: State, f: string, nodes: seq<Node>)
    requires CheckPasses(s, f, nodes)
    ensures Parses(Items(nodes))
  {
    ParsesIffNodesParse(nodes);
  }

  lemma DocSyncOrRefused(sys: Sys, f: string, op: DocOp, w: World)
    requires Inv(sys)
    requires op.Publish? && f in sys.db.flows ==>
        sys.db.flows[f].draft.Some? && Parses(Items(sys.db.flows[f].draft.value.nodes))
    ensures Inv(StoreThenSync(sys, f, op, w).0)
  {
    hide Items, Parses, Mounts, SyncBoth, OnDoc, DocSound;
    if f in sys.db.flows && OnDoc(sys.db.flows[f], op).Ok? {
      DocStepKeepsInv(sys, f, op, w);
    }
  }

  lemma SavedSound(db: Db, owner: string, dsl: Dsl, now: string)
    requires (forall f | f in db.flows :: DocSound(db.flows[f])) && SaveFlow(db, owner, dsl, now).Ok?
    ensures var db' := SaveFlow(db, owner, dsl, now).value;
            && (forall f | f in db'.flows :: DocSound(db'.flows[f]))
            && (forall f | f in db.flows :: f in db'.flows && db'.flows[f].published == db.flows[f].published)
            && db'.flows.Keys == db.flows.Keys + {dsl.id} && dsl.id != ""
  {
    hide Items, Parses;
    var db' := SaveFlow(db, owner, dsl, now).value;
    if dsl.id in db.flows {
      assert DocSound(db.flows[dsl.id]);
    }
    assert DocSound(db'.flows[dsl.id]);
  }

  lemma SaveKeepsInv(sys: Sys, owner: string, dsl: Dsl, newId: string, now: string, w: World)
    requires Inv(sys) && newId != ""
    ensures Inv(HandleSave(sys, owner, dsl, newId, now, w).0)
  {
    hide Mounts, M.SyncDraft, SaveFlow, DocSound;
    var dsl1 := if dsl.id == "" then dsl.(id := newId) else dsl;
    if SaveFlow(sys.db, owner, dsl1, now).Ok? {
      SavedSound(sys.db, owner, dsl1, now);
      QuietKeepsInv(sys, HandleSave(sys, owner, dsl, newId, now, w).0);
    }
  }

  ghost function Run(sys: Sys, ops: seq<Op>): Sys
    decreases |ops|
  {
    if ops == [] then sys else Run(Step(sys, ops[0]), ops[1..])
  }

  ghost predicate LegalRun(sys: Sys, ops: seq<Op>)
    decreases |ops|
  {
    ops != [] ==> Legal(sys, ops[0]) && LegalRun(Step(sys, ops[0]), ops[1..])
  }

  /**
   * Over every run of handlers and restarts, with any listener, certificate and broker failures, the table has a route
   * for each router of the mounted DSLs, the last one where several want a key, and no other route; each listener runs
   * in the mode of every node on its address; and each mounted DSL is the published DSL of its flow.
   */
  lemma TableShowsMounted(sys: Sys, ops: seq<Op>)
    requires Inv(sys) && LegalRun(sys, ops)
    ensures var end := Run(sys, ops);
            && Shown(Table(end.http), end.up)
            && InMode(end.http, end.up)
            && forall f | f in end.up :: f in end.db.flows && end.db.flows[f].published == Some(end.up[f])
  {
    hide Run, LegalRun, Mounts, DocSound, Shown, InMode, Table;
    RunKeepsInv(sys, ops);
    MountsShow(Run(sys, ops).http, Run(sys, ops).up);
  }

  lemma {:induction false} RunKeepsInv(sys: Sys, ops: seq<Op>)
    requires Inv(sys) && LegalRun(sys, ops)
    ensures Inv(Run(sys, ops))
    decreases |ops|
  {
    hide Inv, Step, Legal;
    if ops != [] {
      StepKeepsInv(sys, ops[0]);
      RunKeepsInv(Step(sys, ops[0]), ops[1..]);
    }
  }

  // ---- what holds in a working environment ----

  /** Everything published is mounted, without conflicts. */
  ghost predicate InStep(sys: Sys) {
    Inv(sys) && sys.up == Published(sys.db) && Clean(sys.up)
  }

  ghost predicate WorldWorks(w: World) {
    AlwaysWorks(w.env)
  }

  /**
   * Listeners and certificates work; a rollback names a version that is live, or whose oldest and newest archived
   * snapshots have the same DSL.
   */
  ghost predicate Smooth(sys: Sys, op: Op) {
    match op
    case Save(_, _, _, _, w) => WorldWorks(w)
    case Publish(_, _, _, w) => WorldWorks(w)
    case Offline(_, _, w) => WorldWorks(w)
    case Online(_, _, w) => WorldWorks(w)
    case Rollback(f, v, _, w) =>
      WorldWorks(w) && (f in sys.db.flows ==>
        v == sys.db.flows[f].publishedVersion || PublishLog.EndsAgree(sys.db.flows[f].history, v))
    case Delete(_, _, w) => WorldWorks(w)
    case Store(_) => true
    case Reboot(_, envs, _) => EnvsWork(envs)
  }

  lemma CleanSub(up: map<string, Dsl>, f: string)
    requires Clean(up)
    ensures Clean(up - {f})
  {
  }

  /** The DSL that was checked is the DSL that goes live, and so its rebuild succeeds. */
  lemma CheckedGoesLive(sys: Sys, f: string, d: FlowDoc, dsl: Dsl, w: World)
    requires InStep(sys) && f != "" && AlwaysWorks(w.env)
    requires CheckPasses(sys.http, f, dsl.nodes) && d.published == Some(dsl) && DocSound(d)
    ensures InStep(SyncBoth(sys.(db := sys.db.(flows := sys.db.flows[f := d])), f, d.published, w).0)
  {
    hide Items, Parses, Mounts, CheckPasses, RouteTable.SyncFlow, M.SyncFlow, Clean, FitsAllBeside, DocSound;
    SyncKeepsInv(sys, f, d, w);
    assert RouteTable.Inv(sys.http) by {
      MountsInv(sys.http, sys.up);
    }
    PassingFits(sys.http, f, dsl.nodes);
    CleanSub(sys.up, f);
    FitsIffClean(sys.http, sys.up, f, dsl);
    SyncClean(sys.http, sys.up, f, dsl, w.env);
    var sys' := SyncBoth(sys.(db := sys.db.(flows := sys.db.flows[f := d])), f, d.published, w).0;
    assert sys'.up == sys.up[f := dsl] == Published(sys'.db);
  }

  lemma MountsInv(s: State, up: map<string, Dsl>)
    requires Mounts(s, up)
    ensures RouteTable.Inv(s)
  {
  }

  /** Unloading a flow that is no longer published succeeds. */
  lemma UnloadStaysInStep(sys: Sys, f: string, d: FlowDoc, w: World)
    requires InStep(sys) && f != "" && d.published.None? && DocSound(d)
    ensures InStep(SyncBoth(sys.(db := sys.db.(flows := sys.db.flows[f := d])), f, d.published, w).0)
  {
    hide Items, Parses, Mounts, RouteTable.RemoveFlow, M.SyncFlow, Clean, DocSound;
    SyncKeepsInv(sys, f, d, w);
    CleanSub(sys.up, f);
    var sys' := SyncBoth(sys.(db := sys.db.(flows := sys.db.flows[f := d])), f, d.published, w).0;
    assert sys'.up == sys.up - {f} == Published(sys'.db);
  }

  lemma QuietStaysInStep(sys: Sys, sys': Sys)
    requires InStep(sys) && Inv(sys') && sys'.up == sys.up
    requires forall f ::
      (f in sys'.db.flows && sys'.db.flows[f].published.Some?)
      <==> (f in sys.db.flows && sys.db.flows[f].published.Some?)
    ensures InStep(sys')
  {
    hide Mounts, DocSound, Clean;
    forall f ensures f in Published(sys'.db) <==> f in Published(sys.db)
             ensures f in Published(sys.db) ==> Published(sys'.db)[f] == Published(sys.db)[f] {
      if f in Published(sys.db) {
        assert f in sys.up && sys'.up[f] == Published(sys.db)[f];
      }
    }
  }

  lemma PublishStaysInStep(sys: Sys, f: string, op: DocOp, dsl: Dsl, w: World)
    requires InStep(sys) && f in sys.db.flows && AlwaysWorks(w.env) && CheckPasses(sys.http, f, dsl.nodes)
    requires op.Publish? ==> sys.db.flows[f].draft == Some(dsl)
    requires OnDoc(sys.db.flows[f], op).Ok? ==> OnDoc(sys.db.flows[f], op).value.published == Some(dsl)
    ensures InStep(StoreThenSync(sys, f, op, w).0)
  {
    hide Items, Parses, Mounts, CheckPasses, OnDoc, SyncBoth, Clean, DocSound;
    if OnDoc(sys.db.flows[f], op).Ok? {
      CheckParses(sys.http, f, dsl.nodes);
      DocKeepsSound(sys.db.flows[f], op);
      CheckedGoesLive(sys, f, OnDoc(sys.db.flows[f], op).value, dsl, w);
    }
  }

  lemma DeleteStaysInStep(sys: Sys, f: string, now: string, w: World)
    requires InStep(sys)
    ensures InStep(HandleDelete(sys, f, now, w).0)
  {
    hide Items, Parses, Mounts, SyncBoth, RouteTable.RemoveFlow, M.SyncDraft, M.RemoveTrack, Clean, DocSound;
    hide OnOffline;
    DeleteKeepsInv(sys, f, now, w);
    var sys' := HandleDelete(sys, f, now, w).0;
    if SoftDelete(sys.db, f, now).Ok? {
      var db := SoftDelete(sys.db, f, now).value;
      var d := sys.db.flows[f];
      if f !in db.flows {
        CleanSub(sys.up, f);
        assert sys'.up == sys.up - {f} == Published(sys'.db);
      } else if d.published.Some? {
        PublishLog.OfflineClears(d, now);
        DocKeepsSound(d, FlowDocs.Offline(now));
        GroupFieldsSound(OnOffline(d, now).value, db.flows[f]);
        assert db.flows == sys.db.flows[f := db.flows[f]];
        UnloadStaysInStep(sys, f, db.flows[f], w);
        DraftStaysInStep(SyncBoth(sys.(db := db), f, None, w).0, f, w);
      } else {
        QuietStaysInStep(sys, sys');
      }
    }
  }

  lemma GroupFieldsSound(d: FlowDoc, d': FlowDoc)
    requires DocSound(d) && d'.published == d.published && d'.history == d.history
    requires d'.publishedVersion == d.publishedVersion
    ensures DocSound(d')
  {
  }

  lemma DraftStaysInStep(sys: Sys, f: string, w: World)
    requires InStep(sys)
    ensures InStep(DraftIfOpen(sys, f, w))
  {
    hide Mounts, Clean, DocSound, M.SyncDraft;
  }

  lemma OfflineStaysInStep(sys: Sys, f: string, now: string, w: World)
    requires InStep(sys)
    ensures InStep(HandleOffline(sys, f, now, w).0)
  {
    hide Items, Parses, Mounts, SyncBoth, M.SyncDraft, Clean, DocSound, Capped;
    if OnFlow(sys.db, f, FlowDocs.Offline(now)).Ok? {
      var d := OnDoc(sys.db.flows[f], FlowDocs.Offline(now)).value;
      DocKeepsSound(sys.db.flows[f], FlowDocs.Offline(now));
      UnloadStaysInStep(sys, f, d, w);
      DraftStaysInStep(SyncBoth(sys.(db := sys.db.(flows := sys.db.flows[f := d])), f, None, w).0, f, w);
    }
  }

  lemma RestartStaysInStep(sys: Sys, list: seq<Listed>, envs: string -> nat -> Env, dials: string -> nat -> M.Dial)
    requires InStep(sys) && Lists(list, Published(sys.db)) && EnvsWork(envs)
    ensures InStep(HandleRestart(sys, list, envs, dials))
  {
    hide Items, Parses, MqttRuns.StartAll, Restart.StartAll, StartedUp, Clean, ListParses, Mounts, DocSound;
    RestartKeepsInv(sys, list, envs, dials);
    var pub := Published(sys.db);
    ListedParse(sys, list);
    EmptyMounts();
    UnionOfList(list, pub);
    StartClean(Empty, map[], list, envs);
  }

  lemma RollbackGoesLive(d: FlowDoc, v: int, now: string)
    requires OnRollback(d, v, now).Ok?
    ensures OnRollback(d, v, now).value.published == PublishLog.RollbackStored(d, v)
  {
  }

  lemma StepStaysInStep(sys: Sys, op: Op)
    requires InStep(sys) && Legal(sys, op) && Smooth(sys, op)
    ensures InStep(Step(sys, op))
  {
    hide Items, Parses, Mounts, SyncBoth, CheckPasses, StoreThenSync, HandleDelete, HandleOffline, HandleRestart,
         M.SyncDraft, PublishLog.RollbackChecked, PublishLog.RollbackStored, Clean, DocSound, Capped, Oldest;
    match op {
      case Save(owner, dsl, newId, now, w) =>
        SaveKeepsInv(sys, owner, dsl, newId, now, w);
        SaveKeepsPublished(sys, owner, dsl, newId, now, w);
        QuietStaysInStep(sys, HandleSave(sys, owner, dsl, newId, now, w).0);
      case Publish(f, note, now, w) =>
        if f in sys.db.flows && sys.db.flows[f].draft.Some? &&
           CheckPasses(sys.http, f, sys.db.flows[f].draft.value.nodes) {
          PublishStaysInStep(sys, f, FlowDocs.Publish(note, now), sys.db.flows[f].draft.value, w);
        }
      case Offline(f, now, w) => OfflineStaysInStep(sys, f, now, w);
      case Online(f, now, w) =>
        if f in sys.db.flows && PeekLatest(sys.db.flows[f]).Some? &&
           CheckPasses(sys.http, f, PeekLatest(sys.db.flows[f]).value.nodes) {
          PublishStaysInStep(sys, f, FlowDocs.Online(now), PeekLatest(sys.db.flows[f]).value, w);
        }
      case Rollback(f, version, now, w) => RollbackStaysInStep(sys, f, version, now, w);
      case Delete(f, now, w) => DeleteStaysInStep(sys, f, now, w);
      case Store(op) =>
        StepKeepsInv(sys, Store(op));
        StoreOnlyKeeps(sys.db, op);
        QuietStaysInStep(sys, sys.(db := Groups.StoreStep(sys.db, op)));
      case Reboot(list, envs, dials) => RestartStaysInStep(sys, list, envs, dials);
    }
  }

  lemma SoundNumber(d: FlowDoc)
    requires DocSound(d)
    ensures d.published.None? ==> d.publishedVersion == 0
  {
  }

  lemma RollbackStaysInStep(sys: Sys, f: string, version: int, now: string, w: World)
    requires InStep(sys) && Smooth(sys, Op.Rollback(f, version, now, w))
    ensures InStep(HandleRollback(sys, f, version, now, w).0)
  {
    hide Items, Parses, Mounts, SyncBoth, CheckPasses, StoreThenSync, PublishLog.RollbackChecked;
    hide PublishLog.RollbackStored, PublishLog.EndsAgree, Clean, DocSound, Capped, Oldest;
    if version > 0 && f in sys.db.flows {
      var d := sys.db.flows[f];
      var checked := PublishLog.RollbackChecked(d, version);
      if checked.Some? && CheckPasses(sys.http, f, checked.value.nodes) {
        if OnRollback(d, version, now).Ok? {
          RollbackGoesLive(d, version, now);
        }
        SoundNumber(d);
        PublishLog.RollbackAgreesExactly(d, version);
        PublishStaysInStep(sys, f, FlowDocs.Rollback(version, now), checked.value, w);
      }
    }
  }

  lemma SaveKeepsPublished(sys: Sys, owner: string, dsl: Dsl, newId: string, now: string, w: World)
    ensures var sys' := HandleSave(sys, owner, dsl, newId, now, w).0;
            && sys'.up == sys.up
            && forall f ::
                 (f in sys'.db.flows && sys'.db.flows[f].published.Some?)
                 <==> (f in sys.db.flows && sys.db.flows[f].published.Some?)
  {
    hide M.SyncDraft;
  }

  ghost predicate SmoothRun(sys: Sys, ops: seq<Op>)
    decreases |ops|
  {
    ops != [] ==> Legal(sys, ops[0]) && Smooth(sys, ops[0]) && SmoothRun(Step(sys, ops[0]), ops[1..])
  }

  lemma {:induction false} StaysInStep(sys: Sys, ops: seq<Op>)
    requires InStep(sys) && SmoothRun(sys, ops)
    ensures InStep(Run(sys, ops))
    decreases |ops|
  {
    hide InStep, Step, Legal, Smooth;
    if ops != [] {
      StepStaysInStep(sys, ops[0]);
      StaysInStep(Step(sys, ops[0]), ops[1..]);
    }
  }

  /**
   * The main theorem. Over every run of save, publish, offline, online, rollback, discard, trash, purge, restore, group
   * and restart operations in which listeners and certificates work and rollbacks name versions that are live or whose
   * oldest and newest snapshots agree, each router of a currently published DSL has its route, leading to its own flow,
   * node and relation, unless a later router of the same DSL binds the same key; there is no other route; no two flows
   * bind one key; and listeners run in the modes that the published nodes ask for. MQTT may fail at any point.
   */
  lemma TableShowsPublished(sys: Sys, ops: seq<Op>)
    requires InStep(sys) && SmoothRun(sys, ops)
    ensures var end := Run(sys, ops);
            && Shown(Table(end.http), Published(end.db))
            && InMode(end.http, Published(end.db))
            && Disjoint(Published(end.db))
  {
    hide Run, SmoothRun, Mounts, DocSound, Shown, InMode, Table, Clean;
    StaysInStep(sys, ops);
    MountsShow(Run(sys, ops).http, Run(sys, ops).up);
    CleanIsDisjoint(Run(sys, ops).up);
  }

  /** A server that has just been installed satisfies the hypotheses. */
  lemma FreshServerInStep()
    ensures InStep(Sys(Opened(Db(map[], map[])), Empty, M.NoClients, map[], map[]))
  {
    hide Mounts, Clean;
    EmptyMounts();
    assert Published(Opened(Db(map[], map[]))) == map[];
    EmptyClean();
  }

  lemma EmptyClean()
    ensures Clean(map[])
  {
  }
}
