/**
 * The MQTT half of the whole server, over the runs of `Lifecycle`: which handles published flows have, whatever fails,
 * when listeners work, and when brokers accept every DSL as well.
 */
module MqttLifecycle {
  import opened Prelude
  import opened FlowDsl
  import opened FlowDocs
  import RouteTable
  import RouteSync
  import RouteCheck
  import opened Restart
  import opened Lifecycle
  import PublishLog
  import Groups
  import M = MqttLedger
  import MqttKeys
  import MqttRuns
  import MqttTracks
  import MqttMounts

  // ---- published handles ----

  /** Published MQTT handles are those of the DSLs mounted last, and only published flows have any. */
  ghost predicate MqttInv(sys: Sys) {
    && M.Core(sys.mqtt)
    && (forall f | f in sys.db.flows :: MqttKeys.NulFree(f) && f != "")
    && MqttRuns.Shows(sys.mqtt, sys.mqttUp)
    && sys.mqttUp.Keys <= Published(sys.db).Keys
  }

  predicate NulFreeIds(op: Op) {
    op.Save? ==> MqttKeys.NulFree(op.dsl.id) && MqttKeys.NulFree(op.newId)
  }

  lemma SyncKeepsMqtt(sys: Sys, f: string, d: FlowDoc, w: World)
    requires MqttInv(sys) && f in sys.db.flows
    ensures MqttInv(SyncBoth(sys.(db := sys.db.(flows := sys.db.flows[f := d])), f, d.published, w).0)
  {
    hide M.Core, RouteTable.SyncFlow, M.SyncFlow, UpAfter, MqttKeys.NulFree, MqttRuns.Shows, MqttMounts.Mountable;
    var pub, pub' := Published(sys.db).Keys, Published(sys.db.(flows := sys.db.flows[f := d])).Keys;
    MqttRuns.SyncFlowShows(sys.mqtt, sys.mqttUp, f, d.published, w.dials);
    assert pub' == if d.published.Some? then pub + {f} else pub - {f};
    RouteSync.SyncUnfold(sys.http, f, d.published, w.env);
  }

  lemma DraftKeepsMqtt(sys: Sys, f: string, w: World)
    requires MqttInv(sys)
    ensures MqttInv(DraftIfOpen(sys, f, w))
  {
    hide M.Core, M.SyncDraft, MqttKeys.NulFree, MqttRuns.Shows;
    if f in sys.db.flows {
      var d := sys.db.flows[f];
      MqttRuns.SyncDraftShows(sys.mqtt, sys.mqttUp, f, w.isOpen, d.published, d.draft, w.dials);
      assert Published(DraftIfOpen(sys, f, w).db) == Published(sys.db);
    }
  }

  lemma QuietKeepsMqtt(sys: Sys, sys': Sys)
    requires MqttInv(sys) && sys'.mqtt == sys.mqtt && sys'.mqttUp == sys.mqttUp
    requires forall f | f in sys'.db.flows :: MqttKeys.NulFree(f) && f != ""
    requires forall f ::
      (f in sys'.db.flows && sys'.db.flows[f].published.Some?)
      <==> (f in sys.db.flows && sys.db.flows[f].published.Some?)
    ensures MqttInv(sys')
  {
    hide M.Core, MqttKeys.NulFree, MqttRuns.Shows;
    assert Published(sys'.db).Keys == Published(sys.db).Keys;
  }

  lemma StoreThenSyncKeepsMqtt(sys: Sys, f: string, op: DocOp, w: World)
    requires MqttInv(sys)
    ensures MqttInv(StoreThenSync(sys, f, op, w).0)
  {
    hide MqttInv, SyncBoth, OnDoc;
    if f in sys.db.flows && OnDoc(sys.db.flows[f], op).Ok? {
      SyncKeepsMqtt(sys, f, OnDoc(sys.db.flows[f], op).value, w);
    }
  }

  lemma DeleteKeepsMqtt(sys: Sys, f: string, now: string, w: World)
    requires MqttInv(sys)
    ensures MqttInv(HandleDelete(sys, f, now, w).0)
  {
    hide M.Core, SyncBoth, M.RemoveTrack, M.SyncDraft, MqttKeys.NulFree, Capped, RouteTable.RemoveFlow;
    hide DraftIfOpen, M.Leaked, MqttRuns.Shows;
    if SoftDelete(sys.db, f, now).Ok? {
      var db := SoftDelete(sys.db, f, now).value;
      if f !in db.flows {
        MqttRuns.UnloadShows(sys.mqtt, sys.mqttUp, f);
        assert Published(db).Keys == Published(sys.db).Keys - {f};
      } else if sys.db.flows[f].published.Some? {
        assert db.flows == sys.db.flows[f := db.flows[f]];
        SyncKeepsMqtt(sys, f, db.flows[f], w);
        DraftKeepsMqtt(SyncBoth(sys.(db := db), f, db.flows[f].published, w).0, f, w);
      } else {
        QuietKeepsMqtt(sys, sys.(db := db));
      }
    }
  }

  lemma OfflineKeepsMqtt(sys: Sys, f: string, now: string, w: World)
    requires MqttInv(sys)
    ensures MqttInv(HandleOffline(sys, f, now, w).0)
  {
    hide MqttInv, SyncBoth, OnDoc, DraftIfOpen;
    if OnFlow(sys.db, f, FlowDocs.Offline(now)).Ok? {
      var d := OnDoc(sys.db.flows[f], FlowDocs.Offline(now)).value;
      SyncKeepsMqtt(sys, f, d, w);
      DraftKeepsMqtt(SyncBoth(sys.(db := sys.db.(flows := sys.db.flows[f := d])), f, d.published, w).0, f, w);
    }
  }

  lemma SaveKeepsMqtt(sys: Sys, owner: string, dsl: Dsl, newId: string, now: string, w: World)
    requires MqttInv(sys) && newId != "" && MqttKeys.NulFree(dsl.id) && MqttKeys.NulFree(newId)
    ensures MqttInv(HandleSave(sys, owner, dsl, newId, now, w).0)
  {
    hide M.Core, M.SyncDraft, MqttKeys.NulFree, DraftIfOpen, MqttRuns.Shows;
    var dsl1 := if dsl.id == "" then dsl.(id := newId) else dsl;
    if SaveFlow(sys.db, owner, dsl1, now).Ok? {
      var sys1 := sys.(db := SaveFlow(sys.db, owner, dsl1, now).value);
      QuietKeepsMqtt(sys, sys1);
      DraftKeepsMqtt(sys1, dsl1.id, w);
    }
  }

  lemma RestartKeepsMqtt(sys: Sys, list: seq<Listed>, envs: string -> nat -> RouteTable.Env,
                         dials: string -> nat -> M.Dial)
    requires MqttInv(sys) && Lists(list, Published(sys.db))
    ensures MqttInv(HandleRestart(sys, list, envs, dials))
  {
    hide M.Core, MqttRuns.StartAll, MqttKeys.NulFree, Restart.StartAll, StartedUp, Lists, MqttRuns.StartedUp;
    MqttRuns.StartsBalanced();
    forall i | 0 <= i < |list| && list[i].published.Some? ensures MqttKeys.NulFree(list[i].id) && list[i].id != "" {
      assert list[i] == Listed(list[i].id, Some(list[i].published.value));
      ListedIsPublished(sys.db, list, list[i].id, list[i].published.value);
    }
    MqttRuns.StartAllShows(M.NoClients, map[], list, dials);
    var up := MqttRuns.StartedUp(map[], list, dials);
    forall f | f in up ensures f in sys.db.flows && sys.db.flows[f].published == Some(up[f]) {
      MqttRuns.StartedFromList(map[], list, dials, f);
      ListedIsPublished(sys.db, list, f, up[f]);
    }
    assert Published(Opened(sys.db)) == Published(sys.db);
  }

  lemma StepKeepsMqtt(sys: Sys, op: Op)
    requires MqttInv(sys) && Legal(sys, op) && NulFreeIds(op)
    ensures MqttInv(Step(sys, op))
  {
    hide MqttInv, RouteCheck.CheckPasses, StoreThenSync, HandleDelete, HandleOffline, HandleRestart, HandleSave, Lists;
    hide MqttKeys.NulFree;
    match op {
      case Save(owner, dsl, newId, now, w) => SaveKeepsMqtt(sys, owner, dsl, newId, now, w);
      case Publish(f, note, now, w) => StoreThenSyncKeepsMqtt(sys, f, FlowDocs.Publish(note, now), w);
      case Offline(f, now, w) => OfflineKeepsMqtt(sys, f, now, w);
      case Online(f, now, w) => StoreThenSyncKeepsMqtt(sys, f, FlowDocs.Online(now), w);
      case Rollback(f, version, now, w) => StoreThenSyncKeepsMqtt(sys, f, FlowDocs.Rollback(version, now), w);
      case Delete(f, now, w) => DeleteKeepsMqtt(sys, f, now, w);
      case Store(op) => StoreKeepsMqtt(sys, op);
      case Reboot(list, envs, dials) => RestartKeepsMqtt(sys, list, envs, dials);
    }
  }

  lemma StoreKeepsMqtt(sys: Sys, op: Groups.StoreOp)
    requires MqttInv(sys) && StoreOnly(op)
    ensures MqttInv(sys.(db := Groups.StoreStep(sys.db, op)))
  {
    hide M.Core, MqttKeys.NulFree, OnDoc, MqttRuns.Shows;
    if op.Edit? && op.f in sys.db.flows && OnDoc(sys.db.flows[op.f], op.op).Ok? {
      EditKeepsLive(sys.db.flows[op.f], op.op);
    }
    QuietKeepsMqtt(sys, sys.(db := Groups.StoreStep(sys.db, op)));
  }

  lemma {:induction false} RunKeepsMqtt(sys: Sys, ops: seq<Op>)
    requires MqttInv(sys) && LegalRun(sys, ops) && forall i | 0 <= i < |ops| :: NulFreeIds(ops[i])
    ensures MqttInv(Run(sys, ops))
    decreases |ops|
  {
    hide MqttInv, Step, Legal, NulFreeIds;
    if ops != [] {
      StepKeepsMqtt(sys, ops[0]);
      RunKeepsMqtt(Step(sys, ops[0]), ops[1..]);
    }
  }

  /**
   * Over every run with flow ids free of NUL, whatever fails, the published MQTT handles of each flow are the managed
   * nodes of the DSL whose rebuild succeeded last and was not undone since, its receivers subscribed to their topics
   * and its borrowing senders on their receivers' clients; only published flows have any, and no client is lost or
   * disconnected twice.
   */
  lemma MqttShowsMounted(sys: Sys, ops: seq<Op>, f: string)
    requires MqttInv(sys) && LegalRun(sys, ops) && forall i | 0 <= i < |ops| :: NulFreeIds(ops[i])
    ensures var end := Run(sys, ops);
            && M.Core(end.mqtt)
            && MqttTracks.TrackNodes(end.mqtt.byNode, MqttKeys.PUBLISHED, f) ==
               (if f in end.mqttUp then MqttTracks.Wanted(MqttKeys.PUBLISHED, end.mqttUp[f]) else {})
            && (f in end.mqttUp ==> f in Published(end.db) && MqttMounts.Subscribed(end.mqtt, f, end.mqttUp[f]))
  {
    hide Run, LegalRun, NulFreeIds, M.Core, MqttTracks.TrackNodes, MqttTracks.Wanted;
    hide MqttMounts.FiledAs, MqttMounts.Subscribed;
    RunKeepsMqtt(sys, ops);
    if f in Run(sys, ops).mqttUp {
      MqttMounts.FiledIsSubscribed(Run(sys, ops).mqtt, f, Run(sys, ops).mqttUp[f]);
    }
  }

  /** What MQTT has mounted, HTTP has mounted too. */
  ghost predicate Within(sys: Sys) {
    forall f | f in sys.mqttUp :: f in sys.up && sys.up[f] == sys.mqttUp[f]
  }

  lemma SyncWithin(sys: Sys, f: string, published: Option<Dsl>, w: World)
    requires Within(sys) && (published.Some? ==> f in SyncBoth(sys, f, published, w).0.up)
    ensures Within(SyncBoth(sys, f, published, w).0)
  {
    hide RouteTable.SyncFlow, M.SyncFlow;
    RouteSync.SyncUnfold(sys.http, f, published, w.env);
  }

  lemma StoreThenSyncWithin(sys: Sys, f: string, op: DocOp, w: World)
    requires Within(sys) && InStep(StoreThenSync(sys, f, op, w).0)
    ensures Within(StoreThenSync(sys, f, op, w).0)
  {
    hide SyncBoth, OnDoc, Inv, Clean;
    if f in sys.db.flows && OnDoc(sys.db.flows[f], op).Ok? {
      var d := OnDoc(sys.db.flows[f], op).value;
      var sys1 := sys.(db := sys.db.(flows := sys.db.flows[f := d]));
      var sys' := SyncBoth(sys1, f, d.published, w).0;
      SyncKeepsDb(sys1, f, d.published, w);
      if d.published.Some? {
        assert f in Published(sys'.db);
      }
      SyncWithin(sys1, f, d.published, w);
    }
  }

  lemma SyncKeepsDb(sys: Sys, f: string, published: Option<Dsl>, w: World)
    ensures SyncBoth(sys, f, published, w).0.db == sys.db
  {
  }

  lemma OfflineWithin(sys: Sys, f: string, now: string, w: World)
    requires Within(sys)
    ensures Within(HandleOffline(sys, f, now, w).0)
  {
    hide SyncBoth, M.SyncDraft, Capped;
    if OnFlow(sys.db, f, FlowDocs.Offline(now)).Ok? {
      var sys1 := sys.(db := OnFlow(sys.db, f, FlowDocs.Offline(now)).value);
      SyncKeepsDb(sys1, f, None, w);
      SyncWithin(sys1, f, None, w);
    }
  }

  lemma DeleteWithin(sys: Sys, f: string, now: string, w: World)
    requires Within(sys)
    ensures Within(HandleDelete(sys, f, now, w).0)
  {
    hide SyncBoth, M.SyncDraft, M.RemoveTrack, RouteTable.RemoveFlow, Capped;
    if SoftDelete(sys.db, f, now).Ok? {
      var sys1 := sys.(db := SoftDelete(sys.db, f, now).value);
      SyncKeepsDb(sys1, f, None, w);
      SyncWithin(sys1, f, None, w);
    }
  }

  lemma RestartWithin(sys: Sys, list: seq<Listed>, envs: string -> nat -> RouteTable.Env,
                      dials: string -> nat -> M.Dial)
    requires Lists(list, Published(sys.db)) && InStep(HandleRestart(sys, list, envs, dials))
    ensures Within(HandleRestart(sys, list, envs, dials))
  {
    hide Inv, Clean, Lists, Restart.StartAll, MqttRuns.StartAll, StartedUp, MqttRuns.StartedUp;
    var up := MqttRuns.StartedUp(map[], list, dials);
    assert Published(Opened(sys.db)) == Published(sys.db);
    forall f | f in up ensures f in Published(sys.db) && Published(sys.db)[f] == up[f] {
      MqttRuns.StartedFromList(map[], list, dials, f);
      ListedIsPublished(sys.db, list, f, up[f]);
    }
  }

  lemma StepWithin(sys: Sys, op: Op)
    requires Within(sys) && Legal(sys, op) && InStep(Step(sys, op))
    ensures Within(Step(sys, op))
  {
    hide InStep, RouteCheck.CheckPasses, StoreThenSync, HandleDelete, HandleOffline, HandleRestart, Lists, M.SyncDraft;
    match op {
      case Publish(f, note, now, w) => SyncedWithin(sys, f, FlowDocs.Publish(note, now), w);
      case Offline(f, now, w) => OfflineWithin(sys, f, now, w);
      case Online(f, now, w) => SyncedWithin(sys, f, FlowDocs.Online(now), w);
      case Rollback(f, version, now, w) => SyncedWithin(sys, f, FlowDocs.Rollback(version, now), w);
      case Delete(f, now, w) => DeleteWithin(sys, f, now, w);
      case Reboot(list, envs, dials) => RestartWithin(sys, list, envs, dials);
      case _ =>
    }
  }

  lemma SyncedWithin(sys: Sys, f: string, op: DocOp, w: World)
    requires Within(sys)
    ensures InStep(StoreThenSync(sys, f, op, w).0) ==> Within(StoreThenSync(sys, f, op, w).0)
  {
    hide InStep, StoreThenSync;
    if InStep(StoreThenSync(sys, f, op, w).0) {
      StoreThenSyncWithin(sys, f, op, w);
    }
  }

  lemma {:induction false} StaysWithin(sys: Sys, ops: seq<Op>)
    requires InStep(sys) && Within(sys) && SmoothRun(sys, ops)
    ensures InStep(Run(sys, ops)) && Within(Run(sys, ops))
    decreases |ops|
  {
    hide InStep, Within, Step, Legal, Smooth;
    if ops != [] {
      StepStaysInStep(sys, ops[0]);
      StepWithin(sys, ops[0]);
      StaysWithin(Step(sys, ops[0]), ops[1..]);
    }
  }

  lemma {:induction false} SmoothIsLegal(sys: Sys, ops: seq<Op>)
    requires SmoothRun(sys, ops)
    ensures LegalRun(sys, ops)
    decreases |ops|
  {
    hide Step, Legal, Smooth;
    if ops != [] {
      SmoothIsLegal(Step(sys, ops[0]), ops[1..]);
    }
  }

  /**
   * Over every run in which listeners and certificates work, a flow's published MQTT handles are exactly the managed
   * nodes of its published DSL, if the rebuild of its published track succeeded, and otherwise none.
   */
  lemma MqttShowsPublished(sys: Sys, ops: seq<Op>, f: string)
    requires InStep(sys) && Within(sys) && MqttInv(sys) && SmoothRun(sys, ops)
    requires forall i | 0 <= i < |ops| :: NulFreeIds(ops[i])
    ensures var end := Run(sys, ops);
            var nodes := MqttTracks.TrackNodes(end.mqtt.byNode, MqttKeys.PUBLISHED, f);
            if f in end.mqttUp
            then f in Published(end.db) && nodes == MqttTracks.Wanted(MqttKeys.PUBLISHED, Published(end.db)[f])
            else nodes == {}
  {
    hide Run, SmoothRun, LegalRun, NulFreeIds, M.Core, MqttTracks.TrackNodes, MqttTracks.Wanted, Inv, Clean;
    SmoothIsLegal(sys, ops);
    StaysWithin(sys, ops);
    RunKeepsMqtt(sys, ops);
  }

  // ---- brokers that accept every DSL ----

  /** If the handler rebuilt the flow, the DSL it published can be mounted. */
  predicate SyncAccepted(sys': Sys, r: Reply, f: string, w: World) {
    !r.Refused? && !r.Conflict? && f in sys'.db.flows && sys'.db.flows[f].published.Some? ==>
      MqttMounts.Mountable(MqttKeys.PUBLISHED, sys'.db.flows[f].published.value, w.dials)
  }

  ghost predicate Accepted(sys: Sys, op: Op) {
    match op
    case Publish(f, note, now, w) => var (s, r) := HandlePublish(sys, f, note, now, w); SyncAccepted(s, r, f, w)
    case Online(f, now, w) => var (s, r) := HandleOnline(sys, f, now, w); SyncAccepted(s, r, f, w)
    case Rollback(f, v, now, w) => var (s, r) := HandleRollback(sys, f, v, now, w); SyncAccepted(s, r, f, w)
    case Reboot(_, _, dials) =>
      forall f | f in Published(sys.db) ::
        MqttMounts.Mountable(MqttKeys.PUBLISHED, Published(sys.db)[f], dials(f))
    case _ => true
  }

  ghost predicate AcceptedRun(sys: Sys, ops: seq<Op>)
    decreases |ops|
  {
    ops != [] ==> Accepted(sys, ops[0]) && AcceptedRun(Step(sys, ops[0]), ops[1..])
  }

  /** MQTT has mounted what HTTP has mounted. */
  ghost predicate Level(sys: Sys) {
    sys.mqttUp == sys.up
  }

  lemma SyncLevel(sys: Sys, f: string, published: Option<Dsl>, w: World)
    requires Level(sys) && M.Core(sys.mqtt) && MqttRuns.Shows(sys.mqtt, sys.mqttUp) && MqttKeys.NulFree(f) && f != ""
    requires published.Some? ==>
      && f in SyncBoth(sys, f, published, w).0.up
      && MqttMounts.Mountable(MqttKeys.PUBLISHED, published.value, w.dials)
    ensures Level(SyncBoth(sys, f, published, w).0)
  {
    hide RouteTable.SyncFlow, M.SyncFlow, M.Core, MqttRuns.Shows, MqttKeys.NulFree, MqttMounts.Mountable;
    RouteSync.SyncUnfold(sys.http, f, published, w.env);
    MqttRuns.SyncFlowShows(sys.mqtt, sys.mqttUp, f, published, w.dials);
  }

  lemma StoreThenSyncLevel(sys: Sys, f: string, op: DocOp, w: World)
    requires Level(sys) && MqttInv(sys)
    requires var (sys', r) := StoreThenSync(sys, f, op, w); SyncAccepted(sys', r, f, w) && InStep(sys')
    ensures Level(StoreThenSync(sys, f, op, w).0)
  {
    hide SyncBoth, OnDoc, Inv, Clean, M.Core, MqttRuns.Shows, MqttKeys.NulFree, MqttMounts.Mountable;
    if f in sys.db.flows && OnDoc(sys.db.flows[f], op).Ok? {
      var d := OnDoc(sys.db.flows[f], op).value;
      var sys1 := sys.(db := sys.db.(flows := sys.db.flows[f := d]));
      var sys' := SyncBoth(sys1, f, d.published, w).0;
      SyncKeepsDb(sys1, f, d.published, w);
      SyncReplies(sys1, f, d.published, w);
      if d.published.Some? {
        assert f in Published(sys'.db);
      }
      SyncLevel(sys1, f, d.published, w);
    }
  }

  lemma SyncReplies(sys: Sys, f: string, published: Option<Dsl>, w: World)
    ensures var r := SyncBoth(sys, f, published, w).1; !r.Refused? && !r.Conflict?
  {
  }

  lemma SyncedLevel(sys: Sys, f: string, op: DocOp, w: World)
    requires Level(sys) && MqttInv(sys)
    ensures var (sys', r) := StoreThenSync(sys, f, op, w); SyncAccepted(sys', r, f, w) && InStep(sys') ==> Level(sys')
  {
    hide InStep, MqttInv, StoreThenSync, SyncAccepted;
    var (sys', r) := StoreThenSync(sys, f, op, w);
    if SyncAccepted(sys', r, f, w) && InStep(sys') {
      StoreThenSyncLevel(sys, f, op, w);
    }
  }

  lemma OfflineLevel(sys: Sys, f: string, now: string, w: World)
    requires Level(sys) && MqttInv(sys)
    ensures Level(HandleOffline(sys, f, now, w).0)
  {
    hide SyncBoth, M.SyncDraft, Capped, M.Core, MqttRuns.Shows, MqttKeys.NulFree;
    if OnFlow(sys.db, f, FlowDocs.Offline(now)).Ok? {
      var sys1 := sys.(db := OnFlow(sys.db, f, FlowDocs.Offline(now)).value);
      SyncKeepsDb(sys1, f, None, w);
      SyncLevel(sys1, f, None, w);
    }
  }

  lemma DeleteLevel(sys: Sys, f: string, now: string, w: World)
    requires Level(sys) && MqttInv(sys)
    ensures Level(HandleDelete(sys, f, now, w).0)
  {
    hide SyncBoth, M.SyncDraft, M.RemoveTrack, RouteTable.RemoveFlow, Capped, M.Core, MqttRuns.Shows, MqttKeys.NulFree;
    if SoftDelete(sys.db, f, now).Ok? {
      var sys1 := sys.(db := SoftDelete(sys.db, f, now).value);
      SyncKeepsDb(sys1, f, None, w);
      SyncLevel(sys1, f, None, w);
    }
  }

  lemma {:induction false} AllStarted(up: map<string, Dsl>, list: seq<Listed>, dials: string -> nat -> M.Dial)
    requires forall i | 0 <= i < |list| && list[i].published.Some? ::
      MqttMounts.Mountable(MqttKeys.PUBLISHED, list[i].published.value, dials(list[i].id))
    ensures MqttRuns.StartedUp(up, list, dials) == Union(up, list)
    decreases |list|
  {
    hide MqttMounts.Mountable;
    if list != [] {
      if list[0].published.Some? {
        AllStarted(up[list[0].id := list[0].published.value], list[1..], dials);
      } else {
        AllStarted(up, list[1..], dials);
      }
    }
  }

  lemma RestartLevel(sys: Sys, list: seq<Listed>, envs: string -> nat -> RouteTable.Env,
                     dials: string -> nat -> M.Dial)
    requires Lists(list, Published(sys.db)) && InStep(HandleRestart(sys, list, envs, dials))
    requires forall f | f in Published(sys.db) ::
      MqttMounts.Mountable(MqttKeys.PUBLISHED, Published(sys.db)[f], dials(f))
    ensures Level(HandleRestart(sys, list, envs, dials))
  {
    hide Inv, Clean, Restart.StartAll, MqttRuns.StartAll, StartedUp, MqttRuns.StartedUp, MqttMounts.Mountable;
    assert Published(Opened(sys.db)) == Published(sys.db);
    AllStarted(map[], list, dials);
    UnionOfList(list, Published(sys.db));
  }

  lemma StepLevel(sys: Sys, op: Op)
    requires Level(sys) && MqttInv(sys) && Legal(sys, op) && Accepted(sys, op) && InStep(Step(sys, op))
    ensures Level(Step(sys, op))
  {
    hide InStep, MqttInv, RouteCheck.CheckPasses, StoreThenSync, HandleDelete, HandleOffline, HandleRestart, Lists;
    hide M.SyncDraft;
    hide SyncAccepted, MqttMounts.Mountable;
    match op {
      case Publish(f, note, now, w) => SyncedLevel(sys, f, FlowDocs.Publish(note, now), w);
      case Offline(f, now, w) => OfflineLevel(sys, f, now, w);
      case Online(f, now, w) => SyncedLevel(sys, f, FlowDocs.Online(now), w);
      case Rollback(f, version, now, w) => SyncedLevel(sys, f, FlowDocs.Rollback(version, now), w);
      case Delete(f, now, w) => DeleteLevel(sys, f, now, w);
      case Reboot(list, envs, dials) => RestartLevel(sys, list, envs, dials);
      case _ =>
    }
  }

  lemma {:induction false} StaysLevel(sys: Sys, ops: seq<Op>)
    requires InStep(sys) && Level(sys) && MqttInv(sys) && SmoothRun(sys, ops) && AcceptedRun(sys, ops)
    requires forall i | 0 <= i < |ops| :: NulFreeIds(ops[i])
    ensures InStep(Run(sys, ops)) && Level(Run(sys, ops)) && MqttInv(Run(sys, ops))
    decreases |ops|
  {
    hide InStep, Level, MqttInv, Step, Legal, Smooth, Accepted, NulFreeIds;
    if ops != [] {
      StepStaysInStep(sys, ops[0]);
      StepKeepsMqtt(sys, ops[0]);
      StepLevel(sys, ops[0]);
      StaysLevel(Step(sys, ops[0]), ops[1..]);
    }
  }

  /**
   * Over every run in which listeners and certificates work and every DSL that is rebuilt can be mounted, the
   * published MQTT handles of each flow are exactly the managed nodes of its published DSL, its receivers subscribed to
   * their topics and its borrowing senders on their receivers' clients.
   */
  lemma MqttServesPublished(sys: Sys, ops: seq<Op>, f: string)
    requires InStep(sys) && Level(sys) && MqttInv(sys) && SmoothRun(sys, ops) && AcceptedRun(sys, ops)
    requires forall i | 0 <= i < |ops| :: NulFreeIds(ops[i])
    ensures var end := Run(sys, ops);
            MqttTracks.TrackNodes(end.mqtt.byNode, MqttKeys.PUBLISHED, f) ==
            if f in Published(end.db) then MqttTracks.Wanted(MqttKeys.PUBLISHED, Published(end.db)[f]) else {}
    ensures var end := Run(sys, ops);
            f in Published(end.db) ==> MqttMounts.Subscribed(end.mqtt, f, Published(end.db)[f])
  {
    hide Run, SmoothRun, AcceptedRun, NulFreeIds, M.Core, MqttTracks.TrackNodes, MqttTracks.Wanted, Inv, Clean;
    hide MqttMounts.FiledAs, MqttMounts.Subscribed;
    StaysLevel(sys, ops);
    if f in Published(Run(sys, ops).db) {
      MqttMounts.FiledIsSubscribed(Run(sys, ops).mqtt, f, Published(Run(sys, ops).db)[f]);
    }
  }

  // ---- drafts of published flows, and half-failed synchronisations ----

  /** No mounted flow has a draft handle. */
  ghost predicate NoLiveDrafts(sys: Sys) {
    forall f | f in sys.up :: MqttTracks.TrackNodes(sys.mqtt.byNode, MqttKeys.DRAFT, f) == {}
  }

  lemma SyncLeavesNoDraft(sys: Sys, f: string, published: Option<Dsl>, w: World)
    requires NoLiveDrafts(sys) && M.Core(sys.mqtt) && MqttKeys.NulFree(f) && f != ""
    requires published.Some? ==> f in SyncBoth(sys, f, published, w).0.up
    ensures NoLiveDrafts(SyncBoth(sys, f, published, w).0)
  {
    hide RouteTable.SyncFlow, M.SyncFlow, M.Core, MqttKeys.NulFree, MqttTracks.TrackNodes;
    RouteSync.SyncUnfold(sys.http, f, published, w.env);
    MqttRuns.SyncFlowDrafts(sys.mqtt, f, published, w.dials);
  }

  lemma StoreThenSyncNoDraft(sys: Sys, f: string, op: DocOp, w: World)
    requires NoLiveDrafts(sys) && MqttInv(sys) && InStep(StoreThenSync(sys, f, op, w).0)
    ensures NoLiveDrafts(StoreThenSync(sys, f, op, w).0)
  {
    hide SyncBoth, OnDoc, Inv, Clean, M.Core, MqttRuns.Shows, MqttKeys.NulFree, MqttTracks.TrackNodes;
    if f in sys.db.flows && OnDoc(sys.db.flows[f], op).Ok? {
      var d := OnDoc(sys.db.flows[f], op).value;
      var sys1 := sys.(db := sys.db.(flows := sys.db.flows[f := d]));
      var sys' := SyncBoth(sys1, f, d.published, w).0;
      SyncKeepsDb(sys1, f, d.published, w);
      if d.published.Some? {
        assert f in Published(sys'.db);
      }
      SyncLeavesNoDraft(sys1, f, d.published, w);
    }
  }

  lemma SyncedNoDraft(sys: Sys, f: string, op: DocOp, w: World)
    requires NoLiveDrafts(sys) && MqttInv(sys)
    ensures var sys' := StoreThenSync(sys, f, op, w).0; InStep(sys') ==> NoLiveDrafts(sys')
  {
    hide InStep, MqttInv, NoLiveDrafts, StoreThenSync;
    if InStep(StoreThenSync(sys, f, op, w).0) {
      StoreThenSyncNoDraft(sys, f, op, w);
    }
  }

  /** A draft rebuild mounts nothing for a flow that is published. */
  lemma DraftLeavesNoDraft(sys: Sys, f: string, w: World)
    requires NoLiveDrafts(sys) && M.Core(sys.mqtt) && MqttKeys.NulFree(f) && f != ""
    requires f in sys.up ==> f in sys.db.flows && sys.db.flows[f].published.Some?
    ensures NoLiveDrafts(DraftIfOpen(sys, f, w))
  {
    hide M.SyncDraft, M.Core, MqttKeys.NulFree, MqttTracks.TrackNodes;
    if f in sys.db.flows {
      var d := sys.db.flows[f];
      MqttRuns.SyncDraftDrafts(sys.mqtt, f, w.isOpen, d.published, d.draft, w.dials);
    }
  }

  lemma SaveNoDraft(sys: Sys, owner: string, dsl: Dsl, newId: string, now: string, w: World)
    requires InStep(sys) && NoLiveDrafts(sys) && MqttInv(sys)
    requires newId != "" && MqttKeys.NulFree(dsl.id) && MqttKeys.NulFree(newId)
    ensures NoLiveDrafts(HandleSave(sys, owner, dsl, newId, now, w).0)
  {
    hide Mounts, Clean, M.SyncDraft, SaveFlow, DocSound, M.Core, MqttRuns.Shows, MqttKeys.NulFree, NoLiveDrafts;
    hide DraftIfOpen;
    var dsl1 := if dsl.id == "" then dsl.(id := newId) else dsl;
    if SaveFlow(sys.db, owner, dsl1, now).Ok? {
      SavedSound(sys.db, owner, dsl1, now);
      var sys1 := sys.(db := SaveFlow(sys.db, owner, dsl1, now).value);
      SameUp(sys, sys1);
      DraftLeavesNoDraft(sys1, dsl1.id, w);
    }
  }

  lemma SameUp(sys: Sys, sys': Sys)
    requires NoLiveDrafts(sys) && sys'.up == sys.up && sys'.mqtt == sys.mqtt
    ensures NoLiveDrafts(sys')
  {
  }

  lemma OfflineNoDraft(sys: Sys, f: string, now: string, w: World)
    requires NoLiveDrafts(sys) && MqttInv(sys)
    ensures NoLiveDrafts(HandleOffline(sys, f, now, w).0)
  {
    hide Capped, M.Core, MqttRuns.Shows, MqttKeys.NulFree, NoLiveDrafts, AfterOffline;
    if OnFlow(sys.db, f, FlowDocs.Offline(now)).Ok? {
      var d := OnDoc(sys.db.flows[f], FlowDocs.Offline(now)).value;
      AfterOfflineNoDraft(sys, sys.(db := sys.db.(flows := sys.db.flows[f := d])), f, w);
    }
  }

  /** Once a flow is off, its draft may come back. */
  lemma AfterOfflineNoDraft(sys: Sys, sys1: Sys, f: string, w: World)
    requires NoLiveDrafts(sys) && MqttInv(sys) && f in sys.db.flows
    requires sys1 == sys.(db := sys1.db) && f in sys1.db.flows && sys1.db.flows[f].published.None?
    ensures NoLiveDrafts(AfterOffline(sys1, f, w).0)
  {
    hide M.Core, M.SyncDraft, MqttRuns.Shows, MqttKeys.NulFree, NoLiveDrafts, RouteTable.SyncFlow, M.SyncFlow;
    hide DraftIfOpen;
    SameUp(sys, sys1);
    SyncLeavesNoDraft(sys1, f, None, w);
    SyncKeepsDb(sys1, f, None, w);
    var sys2 := SyncBoth(sys1, f, None, w).0;
    RouteSync.SyncUnfold(sys1.http, f, None, w.env);
    MqttRuns.SyncFlowShows(sys1.mqtt, sys1.mqttUp, f, None, w.dials);
    DraftLeavesNoDraft(sys2, f, w);
  }

  lemma DeleteNoDraft(sys: Sys, f: string, now: string, w: World)
    requires NoLiveDrafts(sys) && MqttInv(sys)
    ensures NoLiveDrafts(HandleDelete(sys, f, now, w).0)
  {
    hide M.Core, M.SyncDraft, M.RemoveTrack, RouteTable.RemoveFlow, Capped, MqttRuns.Shows, MqttKeys.NulFree;
    hide AfterOffline, MqttTracks.TrackNodes;
    if SoftDelete(sys.db, f, now).Ok? {
      var sys1 := sys.(db := SoftDelete(sys.db, f, now).value);
      if f !in sys1.db.flows {
        MqttRuns.UnloadDrafts(sys.mqtt, f);
      } else if sys.db.flows[f].published.Some? {
        AfterOfflineNoDraft(sys, sys1, f, w);
      }
    }
  }

  lemma RestartNoDraft(sys: Sys, list: seq<Listed>, envs: string -> nat -> RouteTable.Env,
                       dials: string -> nat -> M.Dial)
    requires MqttInv(sys) && Lists(list, Published(sys.db))
    ensures NoLiveDrafts(HandleRestart(sys, list, envs, dials))
  {
    hide M.Core, MqttRuns.StartAll, MqttKeys.NulFree, Restart.StartAll, StartedUp, Lists, MqttRuns.StartedUp;
    hide MqttRuns.Shows;
    MqttRuns.StartsBalanced();
    forall i | 0 <= i < |list| && list[i].published.Some? ensures MqttKeys.NulFree(list[i].id) && list[i].id != "" {
      assert list[i] == Listed(list[i].id, Some(list[i].published.value));
      ListedIsPublished(sys.db, list, list[i].id, list[i].published.value);
    }
    MqttRuns.StartAllDrafts(M.NoClients, list, dials);
  }

  lemma StepNoDraft(sys: Sys, op: Op)
    requires InStep(sys) && NoLiveDrafts(sys) && MqttInv(sys) && Legal(sys, op) && NulFreeIds(op)
    requires InStep(Step(sys, op))
    ensures NoLiveDrafts(Step(sys, op))
  {
    hide InStep, MqttInv, RouteCheck.CheckPasses, StoreThenSync, HandleDelete, HandleOffline, HandleRestart, Lists;
    hide HandleSave;
    hide NoLiveDrafts, MqttKeys.NulFree;
    match op {
      case Save(owner, dsl, newId, now, w) => SaveNoDraft(sys, owner, dsl, newId, now, w);
      case Publish(f, note, now, w) => SyncedNoDraft(sys, f, FlowDocs.Publish(note, now), w);
      case Offline(f, now, w) => OfflineNoDraft(sys, f, now, w);
      case Online(f, now, w) => SyncedNoDraft(sys, f, FlowDocs.Online(now), w);
      case Rollback(f, version, now, w) => SyncedNoDraft(sys, f, FlowDocs.Rollback(version, now), w);
      case Delete(f, now, w) => DeleteNoDraft(sys, f, now, w);
      case Store(op) => SameUp(sys, sys.(db := Groups.StoreStep(sys.db, op)));
      case Reboot(list, envs, dials) => RestartNoDraft(sys, list, envs, dials);
    }
  }

  lemma {:induction false} StaysWithoutDrafts(sys: Sys, ops: seq<Op>)
    requires InStep(sys) && NoLiveDrafts(sys) && MqttInv(sys) && SmoothRun(sys, ops)
    requires forall i | 0 <= i < |ops| :: NulFreeIds(ops[i])
    ensures InStep(Run(sys, ops)) && NoLiveDrafts(Run(sys, ops))
    decreases |ops|
  {
    hide InStep, NoLiveDrafts, MqttInv, Step, Legal, Smooth, NulFreeIds;
    if ops != [] {
      StepStaysInStep(sys, ops[0]);
      StepKeepsMqtt(sys, ops[0]);
      StepNoDraft(sys, ops[0]);
      StaysWithoutDrafts(Step(sys, ops[0]), ops[1..]);
    }
  }

  /** Over every run in which listeners and certificates work, a published flow has no draft handle. */
  lemma PublishedHaveNoDraft(sys: Sys, ops: seq<Op>, f: string)
    requires InStep(sys) && NoLiveDrafts(sys) && MqttInv(sys) && SmoothRun(sys, ops)
    requires forall i | 0 <= i < |ops| :: NulFreeIds(ops[i])
    ensures var end := Run(sys, ops);
            f in Published(end.db) ==> MqttTracks.TrackNodes(end.mqtt.byNode, MqttKeys.DRAFT, f) == {}
  {
    hide Run, SmoothRun, NulFreeIds, Inv, Clean, MqttInv, MqttTracks.TrackNodes;
    StaysWithoutDrafts(sys, ops);
  }

  /**
   * When the HTTP half of a synchronisation fails, the flow loses its routes, or keeps those before a rejected
   * configuration, but its MQTT nodes stay those of the DSL that was live before.
   */
  lemma FailedHttpKeepsMqtt(sys: Sys, f: string, d: FlowDoc, w: World)
    requires MqttInv(sys) && f in sys.mqttUp
    requires !RouteTable.SyncFlow(sys.http, f, d.published, w.env).1.Mounted?
    ensures var sys' := SyncBoth(sys.(db := sys.db.(flows := sys.db.flows[f := d])), f, d.published, w).0;
            && sys'.db.flows[f].published == d.published && f !in sys'.up
            && MqttTracks.TrackNodes(sys'.mqtt.byNode, MqttKeys.PUBLISHED, f) ==
               MqttTracks.Wanted(MqttKeys.PUBLISHED, sys.mqttUp[f])
  {
    hide RouteTable.SyncFlow, M.SyncFlow, M.Core, MqttTracks.TrackNodes, MqttTracks.Wanted;
  }

  /** A reply that reports success has mounted the DSL it published, exactly when its nodes can be mounted. */
  lemma DoneMountsMqtt(sys: Sys, f: string, dsl: Dsl, w: World)
    requires MqttInv(sys) && MqttKeys.NulFree(f) && f != ""
    ensures var (sys', r) := SyncBoth(sys, f, Some(dsl), w);
            && (r.Done? ==> f in sys'.mqttUp && sys'.mqttUp[f] == dsl)
            && (r.Done? <==> RouteTable.SyncFlow(sys.http, f, Some(dsl), w.env).1.Mounted?
                             && MqttMounts.Mountable(MqttKeys.PUBLISHED, dsl, w.dials))
  {
    hide M.Core, RouteTable.SyncFlow, M.SyncFlow, MqttMounts.Mountable, MqttRuns.Shows;
    MqttRuns.SyncFlowShows(sys.mqtt, sys.mqttUp, f, Some(dsl), w.dials);
  }

  /** A server that has just been installed satisfies the hypotheses. */
  lemma FreshServerMqtt()
    ensures var sys := Sys(Opened(Db(map[], map[])), RouteTable.Empty, M.NoClients, map[], map[]);
            MqttInv(sys) && Within(sys) && Level(sys) && NoLiveDrafts(sys)
  {
    MqttRuns.StartsBalanced();
  }
}
