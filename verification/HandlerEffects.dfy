/**
 * What each request handler does to the whole server: to the document, to the routes, to the MQTT nodes of both tracks,
 * and what it replies; and when it refuses and leaves everything as it was.
 */
module HandlerEffects {
  import opened Prelude
  import opened FlowDsl
  import opened FlowDocs
  import opened RouteTable
  import opened RouteSync
  import opened RouteCheck
  import opened Restart
  import opened RouteShape
  import opened Lifecycle
  import opened StoreEffects
  import PublishLog
  import Groups
  import Text
  import M = MqttLedger
  import MqttKeys
  import MqttRuns
  import MqttTracks
  import MqttMounts
  import MqttLifecycle

  // ---- the server before and after ----

  /** Both managers are in order, and the flow has an id that the ledger can file. */
  ghost predicate Ready(sys: Sys, f: string) {
    RouteTable.Inv(sys.http) && M.Core(sys.mqtt) && MqttKeys.NulFree(f) && f != ""
  }

  /** Flow `f` answers as the nodes and routers of a DSL say, and every other flow as before. */
  ghost predicate Answers(s: State, s': State, f: string, dsl: Dsl) {
    && (forall i, j, k | LastBinds(dsl.nodes, i, j, k) ::
          && k in Table(s')
          && Table(s')[k] == Target(f, dsl.nodes[i].id, dsl.nodes[i].http.value.routers[j].relation, dsl))
    && (forall k | k in Table(s') && Table(s')[k].flowID == f :: exists i, j :: LastBinds(dsl.nodes, i, j, k))
    && WithoutFlow(Table(s'), f) == WithoutFlow(Table(s), f)
  }

  /** The nodes of a DSL that are to hold a client on a track: receivers, and senders that borrow or keep one. */
  ghost function Nodes(track: string, dsl: Dsl): set<string> {
    var receivers := MqttTracks.Receivers(track, dsl.nodes);
    receivers + MqttTracks.Senders(track, dsl.nodes, receivers)
  }

  /** The nodes of flow `f` on both tracks, all other flows keeping theirs. */
  ghost predicate Holds(l: M.Ledger, l': M.Ledger, f: string, published: set<string>, draft: set<string>) {
    && MqttTracks.TrackNodes(l'.byNode, MqttKeys.PUBLISHED, f) == published
    && MqttTracks.TrackNodes(l'.byNode, MqttKeys.DRAFT, f) == draft
    && forall t, g | g != f :: MqttTracks.TrackNodes(l'.byNode, t, g) == MqttTracks.TrackNodes(l.byNode, t, g)
  }

  /** The draft nodes a flow is to have: those of its draft, if it is open, not live, and its draft can be mounted. */
  ghost function DraftNodes(d: FlowDoc, w: World): set<string> {
    if w.isOpen && d.published.None? && d.draft.Some?
       && MqttMounts.Mountable(MqttKeys.DRAFT, d.draft.value, w.dials)
    then Nodes(MqttKeys.DRAFT, d.draft.value) else {}
  }

  /** A DSL went live on HTTP, and on MQTT too exactly when it can be mounted there; the draft is unloaded. */
  ghost predicate WentLive(sys: Sys, sys': Sys, f: string, dsl: Dsl, w: World, r: Reply) {
    var mqtt := MqttMounts.Mountable(MqttKeys.PUBLISHED, dsl, w.dials);
    && r == (if mqtt then Done else MqttFailed)
    && Answers(sys.http, sys'.http, f, dsl)
    && sys'.up == sys.up[f := dsl]
    && sys'.mqttUp == (if mqtt then sys.mqttUp[f := dsl] else sys.mqttUp - {f})
    && Holds(sys.mqtt, sys'.mqtt, f, if mqtt then Nodes(MqttKeys.PUBLISHED, dsl) else {}, {})
  }

  /** The HTTP half failed: other flows answer as before, and no client was touched. */
  ghost predicate WentDark(sys: Sys, sys': Sys, f: string, r: Reply) {
    && r.HttpFailed? && !r.outcome.Mounted?
    && WithoutFlow(Table(sys'.http), f) == WithoutFlow(Table(sys.http), f)
    && sys'.up == sys.up - {f}
    && sys'.mqtt == sys.mqtt && sys'.mqttUp == sys.mqttUp
  }

  /** Only the listener or the certificate failed, and the flow then answers nothing. */
  ghost predicate ListenerFailed(sys': Sys, f: string, r: Reply) {
    && r.HttpFailed? && (r.outcome.ListenError? || r.outcome.KeyPairError?)
    && forall k | k in Table(sys'.http) :: Table(sys'.http)[k].flowID != f
  }

  /** The flow answers nothing any more and holds no published client. */
  ghost predicate Unloaded(sys: Sys, sys': Sys, f: string, draft: set<string>) {
    && Table(sys'.http) == WithoutFlow(Table(sys.http), f)
    && sys'.up == sys.up - {f} && sys'.mqttUp == sys.mqttUp - {f}
    && Holds(sys.mqtt, sys'.mqtt, f, {}, draft)
  }

  // ---- synchronisation ----

  lemma NodesAre(track: string, dsl: Dsl)
    ensures Nodes(track, dsl) == MqttTracks.Wanted(track, dsl)
  {
    MqttTracks.WantedIs(track, dsl);
  }

  lemma MqttSynced(l: M.Ledger, f: string, published: Option<Dsl>, dials: nat -> M.Dial)
    requires M.Core(l) && MqttKeys.NulFree(f) && f != ""
    ensures var (l', ok) := M.SyncFlow(l, f, published, dials);
            var fits := published.Some? ==> MqttMounts.Mountable(MqttKeys.PUBLISHED, published.value, dials);
            && M.Core(l') && ok == fits
            && Holds(l, l', f, if published.Some? && fits then Nodes(MqttKeys.PUBLISHED, published.value) else {}, {})
  {
    hide M.Core, M.Leaked, M.RemoveTrack, M.SyncTrack, MqttKeys.NulFree, MqttTracks.TrackNodes, MqttMounts.Mountable;
    hide Nodes, MqttTracks.Wanted;
    var l1 := M.RemoveTrack(l, MqttKeys.DRAFT, f);
    M.RemoveTrackEffect(l, MqttKeys.DRAFT, f);
    MqttTracks.RemoveTrackMounts(l, MqttKeys.DRAFT, f);
    if published.None? {
      M.RemoveTrackEffect(l1, MqttKeys.PUBLISHED, f);
      MqttTracks.RemoveTrackMounts(l1, MqttKeys.PUBLISHED, f);
    } else {
      NodesAre(MqttKeys.PUBLISHED, published.value);
      M.SyncTrackEffect(l1, MqttKeys.PUBLISHED, f, published.value, dials);
      MqttTracks.SyncTrackMounts(l1, MqttKeys.PUBLISHED, f, published.value, dials);
      MqttMounts.SyncSucceedsExactly(l1, MqttKeys.PUBLISHED, f, published.value, dials);
    }
  }

  lemma DraftSynced(l: M.Ledger, f: string, d: FlowDoc, w: World)
    requires M.Core(l) && MqttKeys.NulFree(f) && f != ""
    ensures var l' := M.SyncDraft(l, f, w.isOpen, d.published, d.draft, w.dials).0;
            && M.Core(l')
            && Holds(l, l', f, MqttTracks.TrackNodes(l.byNode, MqttKeys.PUBLISHED, f), DraftNodes(d, w))
  {
    hide M.Core, M.Leaked, M.RemoveTrack, M.SyncTrack, MqttKeys.NulFree, MqttTracks.TrackNodes, MqttMounts.Mountable;
    hide Nodes, MqttTracks.Wanted;
    M.RemoveTrackEffect(l, MqttKeys.DRAFT, f);
    MqttTracks.RemoveTrackMounts(l, MqttKeys.DRAFT, f);
    if d.draft.Some? {
      NodesAre(MqttKeys.DRAFT, d.draft.value);
      M.SyncTrackEffect(l, MqttKeys.DRAFT, f, d.draft.value, w.dials);
      MqttTracks.SyncTrackMounts(l, MqttKeys.DRAFT, f, d.draft.value, w.dials);
      MqttMounts.SyncSucceedsExactly(l, MqttKeys.DRAFT, f, d.draft.value, w.dials);
    }
  }

  lemma HttpSynced(s: State, f: string, dsl: Dsl, env: nat -> Env)
    requires RouteTable.Inv(s) && f != ""
    ensures var (s', o) := RouteTable.SyncFlow(s, f, Some(dsl), env);
            && (o.Mounted? ==> Answers(s, s', f, dsl))
            && WithoutFlow(Table(s'), f) == WithoutFlow(Table(s), f)
            && (CheckPasses(s, f, dsl.nodes) && !o.Mounted? ==>
                  && (o.ListenError? || o.KeyPairError?)
                  && forall k | k in Table(s') :: Table(s')[k].flowID != f)
            && (CheckPasses(s, f, dsl.nodes) && AlwaysWorks(env) ==> o.Mounted?)
  {
    hide RouteTable.Inv, RouteTable.SyncFlow, Table, CheckPasses, LastBinds, Items, RoutesOf;
    SyncEffect(s, f, Some(dsl), env);
    if CheckPasses(s, f, dsl.nodes) {
      PredictorSufficient(s, f, dsl, env);
    }
    if RouteTable.SyncFlow(s, f, Some(dsl), env).1.Mounted? {
      RebuildBinds(s, f, dsl, env);
    }
  }

  /** A synchronisation puts a DSL live or leaves the flow dark; after a passing check only a listener can fail. */
  lemma SyncGoesLive(sys: Sys, f: string, dsl: Dsl, w: World)
    requires Ready(sys, f)
    ensures var (sys', r) := SyncBoth(sys, f, Some(dsl), w);
            var passes := CheckPasses(sys.http, f, dsl.nodes);
            && sys'.db == sys.db
            && (WentLive(sys, sys', f, dsl, w, r) || WentDark(sys, sys', f, r))
            && (passes && r.HttpFailed? ==> ListenerFailed(sys', f, r))
            && (passes && AlwaysWorks(w.env) ==> WentLive(sys, sys', f, dsl, w, r))
  {
    hide RouteTable.Inv, RouteTable.SyncFlow, M.Core, M.SyncFlow, MqttKeys.NulFree, Table, CheckPasses, Answers, Holds;
    hide MqttMounts.Mountable, Nodes, AlwaysWorks;
    HttpSynced(sys.http, f, dsl, w.env);
    MqttSynced(sys.mqtt, f, Some(dsl), w.dials);
  }

  lemma SyncUnloads(sys: Sys, f: string, w: World)
    requires Ready(sys, f)
    ensures var (sys', r) := SyncBoth(sys, f, None, w);
            r == Done && sys'.db == sys.db && M.Core(sys'.mqtt) && Unloaded(sys, sys', f, {})
  {
    hide RouteTable.Inv, RouteTable.SyncFlow, M.Core, M.SyncFlow, MqttKeys.NulFree, Table, Holds;
    SyncUnfold(sys.http, f, None, w.env);
    RemoveFlowEffect(sys.http, f);
    MqttSynced(sys.mqtt, f, None, w.dials);
  }

  /** What a handler that puts a checked DSL live has done, in any environment. */
  ghost predicate PutLive(sys: Sys, sys': Sys, f: string, dsl: Dsl, w: World, r: Reply) {
    && OnlyFlow(sys.db, sys'.db, f) && f in sys'.db.flows && sys'.db.flows[f].published == Some(dsl)
    && (WentLive(sys, sys', f, dsl, w, r) || (WentDark(sys, sys', f, r) && ListenerFailed(sys', f, r)))
    && (AlwaysWorks(w.env) ==> WentLive(sys, sys', f, dsl, w, r))
  }

  /** Storing one operation and synchronising: the document is stored, whatever becomes of the endpoints. */
  lemma StoredAndSynced(sys: Sys, f: string, op: DocOp, dsl: Dsl, w: World)
    requires Ready(sys, f) && f in sys.db.flows
    requires OnDoc(sys.db.flows[f], op).Ok? && OnDoc(sys.db.flows[f], op).value.published == Some(dsl)
    ensures var (sys', r) := StoreThenSync(sys, f, op, w);
            var passes := CheckPasses(sys.http, f, dsl.nodes);
            && OnlyFlow(sys.db, sys'.db, f) && f in sys'.db.flows
            && OnDoc(sys.db.flows[f], op) == Ok(sys'.db.flows[f])
            && (WentLive(sys, sys', f, dsl, w, r) || WentDark(sys, sys', f, r))
            && (passes ==> PutLive(sys, sys', f, dsl, w, r))
  {
    hide RouteTable.Inv, M.Core, MqttKeys.NulFree, Table, CheckPasses, Answers, Holds, SyncBoth, OnDoc;
    hide MqttMounts.Mountable, Nodes, AlwaysWorks;
    var sys1 := sys.(db := OnFlow(sys.db, f, op).value);
    SyncGoesLive(sys1, f, dsl, w);
  }

  // ---- publish, online, rollback ----

  /**
   * Publishing a draft that passes the check stores it as the next version and puts it live; in a working environment
   * its routes are up and the reply is success exactly when MQTT can mount it.
   */
  lemma PublishEffect(sys: Sys, f: string, note: string, now: string, w: World)
    requires Ready(sys, f) && f in sys.db.flows && !sys.db.flows[f].locked && sys.db.flows[f].draft.Some?
    requires CheckPasses(sys.http, f, sys.db.flows[f].draft.value.nodes)
    ensures var (sys', r) := HandlePublish(sys, f, note, now, w);
            && PutLive(sys, sys', f, sys.db.flows[f].draft.value, w, r)
            && PublishedDraft(sys.db.flows[f], sys'.db.flows[f], note, now)
  {
    hide Ready, CheckPasses, StoreThenSync, PutLive, WentLive, WentDark, OnDoc, OnlyFlow, Pushed;
    PublishingGoesLive(sys.db.flows[f], note, now);
    StoredAndSynced(sys, f, FlowDocs.Publish(note, now), sys.db.flows[f].draft.value, w);
  }

  /** Every other publish request is refused, and changes nothing. */
  lemma PublishRefusals(sys: Sys, f: string, note: string, now: string, w: World)
    requires Ready(sys, f)
    ensures var (sys', r) := HandlePublish(sys, f, note, now, w);
            var stored := f in sys.db.flows;
            && (r == Refused(NotFound) <==> !stored)
            && (r == Refused(FlowLocked) <==> stored && sys.db.flows[f].locked)
            && (r == Refused(DraftEmpty) <==> stored && !sys.db.flows[f].locked && sys.db.flows[f].draft.None?)
            && (r == Conflict <==> stored && !sys.db.flows[f].locked && sys.db.flows[f].draft.Some?
                                   && !CheckPasses(sys.http, f, sys.db.flows[f].draft.value.nodes))
            && (r.Refused? || r.Conflict? ==> sys' == sys)
  {
    hide Ready, CheckPasses, StoreThenSync, WentLive, WentDark, ListenerFailed, OnDoc, OnlyFlow, PublishedDraft;
    if f in sys.db.flows && !sys.db.flows[f].locked && sys.db.flows[f].draft.Some?
       && CheckPasses(sys.http, f, sys.db.flows[f].draft.value.nodes) {
      PublishEffect(sys, f, note, now, w);
      LiveReplies(sys, HandlePublish(sys, f, note, now, w).0, f, sys.db.flows[f].draft.value, w,
                  HandlePublish(sys, f, note, now, w).1);
    }
  }

  lemma LiveReplies(sys: Sys, sys': Sys, f: string, dsl: Dsl, w: World, r: Reply)
    requires PutLive(sys, sys', f, dsl, w, r)
    ensures !r.Refused? && !r.Conflict? && !r.Forbidden?
  {
    hide OnlyFlow, Answers, Holds, Table, MqttMounts.Mountable;
  }

  /** Going online takes the newest snapshot out of the history and puts it live. */
  lemma OnlineEffect(sys: Sys, f: string, now: string, w: World)
    requires Ready(sys, f) && f in sys.db.flows && !sys.db.flows[f].locked
    requires sys.db.flows[f].published.None? && sys.db.flows[f].history != []
    requires var hist := sys.db.flows[f].history; CheckPasses(sys.http, f, hist[|hist| - 1].dsl.nodes)
    ensures var (sys', r) := HandleOnline(sys, f, now, w);
            var hist := sys.db.flows[f].history;
            && PutLive(sys, sys', f, hist[|hist| - 1].dsl, w, r)
            && BroughtOnline(sys.db.flows[f], sys'.db.flows[f], now)
  {
    hide Ready, CheckPasses, StoreThenSync, PutLive, WentLive, WentDark, OnDoc, OnlyFlow;
    GoingOnlineTakesLatest(sys.db.flows[f], now);
    var hist := sys.db.flows[f].history;
    StoredAndSynced(sys, f, FlowDocs.Online(now), hist[|hist| - 1].dsl, w);
  }

  lemma OnlineRefusals(sys: Sys, f: string, now: string, w: World)
    requires Ready(sys, f)
    ensures var (sys', r) := HandleOnline(sys, f, now, w);
            var stored := f in sys.db.flows;
            && (r == Refused(NotFound) <==> !stored)
            && (r == Refused(FlowLocked) <==> stored && sys.db.flows[f].locked)
            && (r == Refused(AlreadyOnline) <==>
                  stored && !sys.db.flows[f].locked && sys.db.flows[f].published.Some?)
            && (r == Refused(NoPublishHistory) <==>
                  stored && !sys.db.flows[f].locked && sys.db.flows[f].published.None? && sys.db.flows[f].history == [])
            && (r == Conflict <==>
                  stored && !sys.db.flows[f].locked && sys.db.flows[f].published.None? && sys.db.flows[f].history != []
                  && var hist := sys.db.flows[f].history; !CheckPasses(sys.http, f, hist[|hist| - 1].dsl.nodes))
            && (r.Refused? || r.Conflict? ==> sys' == sys)
  {
    hide Ready, CheckPasses, StoreThenSync, WentLive, WentDark, ListenerFailed, OnDoc, OnlyFlow, BroughtOnline;
    if f in sys.db.flows && !sys.db.flows[f].locked && sys.db.flows[f].published.None?
       && sys.db.flows[f].history != [] {
      var hist := sys.db.flows[f].history;
      if CheckPasses(sys.http, f, hist[|hist| - 1].dsl.nodes) {
        OnlineEffect(sys, f, now, w);
        LiveReplies(sys, HandleOnline(sys, f, now, w).0, f, hist[|hist| - 1].dsl, w, HandleOnline(sys, f, now, w).1);
      }
    }
  }

  /** The snapshot the handler checks: the live one, or the newest archived one of the version. */
  ghost predicate Checks(d: FlowDoc, version: int, dsl: Dsl) {
    if version == d.publishedVersion then d.published == Some(dsl)
    else exists j :: PublishLog.LastAt(d.history, j, version) && d.history[j].dsl == dsl
  }

  lemma ChecksIs(d: FlowDoc, version: int, dsl: Dsl)
    requires version > 0 && (d.published.None? ==> d.publishedVersion == 0)
    ensures Checks(d, version, dsl) <==> PublishLog.RollbackChecked(d, version) == Some(dsl)
  {
    hide PublishLog.RollbackChecked, Oldest, Reversed, PublishLog.FirstIndex;
    PublishLog.CheckedIs(d, version);
    PublishLog.OldestIsFirst(Reversed(d.history), version);
    PublishLog.NewestIsLast(d.history, version);
    var b := |d.history| - 1 - PublishLog.FirstIndex(Reversed(d.history), version);
    if b >= 0 {
      assert forall j | PublishLog.LastAt(d.history, j, version) :: j == b;
    }
  }

  /**
   * Rolling back to an archived version whose checked snapshot passes makes its oldest snapshot the next version. It
   * goes live as in any publish, if it is the snapshot that was checked; otherwise it may meet a conflict. Rolling back
   * to the live version changes no document and rebuilds the endpoints.
   */
  lemma RollbackEffect(sys: Sys, f: string, version: int, now: string, w: World, checked: Dsl)
    requires Ready(sys, f) && f in sys.db.flows && !sys.db.flows[f].locked && version > 0
    requires sys.db.flows[f].published.None? ==> sys.db.flows[f].publishedVersion == 0
    requires Checks(sys.db.flows[f], version, checked) && CheckPasses(sys.http, f, checked.nodes)
    ensures var (sys', r) := HandleRollback(sys, f, version, now, w);
            var d := sys.db.flows[f];
            && OnlyFlow(sys.db, sys'.db, f) && f in sys'.db.flows
            && (version == d.publishedVersion ==> sys'.db == sys.db && PutLive(sys, sys', f, checked, w, r))
            && (version != d.publishedVersion ==>
                  forall i | PublishLog.FirstAt(d.history, i, version) ::
                    && RolledBackTo(d, sys'.db.flows[f], d.history[i], now)
                    && (d.history[i].dsl == checked ==> PutLive(sys, sys', f, checked, w, r))
                    && (WentLive(sys, sys', f, d.history[i].dsl, w, r) || WentDark(sys, sys', f, r)))
  {
    hide Ready, CheckPasses, StoreThenSync, PutLive, WentLive, WentDark, OnDoc, RolledBackTo, OnlyFlow;
    hide PublishLog.RollbackChecked, PublishLog.LastAt, PublishLog.FirstAt, Checks, HandleRollback;
    var d := sys.db.flows[f];
    ChecksIs(d, version, checked);
    HandlesRollback(sys, f, version, now, w, checked);
    RollingBackKeepsDraft(d, version, now);
    if version == d.publishedVersion {
      LiveChecked(d, version, checked);
      StoredAndSynced(sys, f, FlowDocs.Rollback(version, now), checked, w);
      SameFlow(sys.db, HandleRollback(sys, f, version, now, w).0.db, f);
    } else {
      ArchivedChecked(d, version, checked);
      forall i | PublishLog.FirstAt(d.history, i, version)
        ensures 0 <= i < |d.history|
        ensures OnDoc(d, FlowDocs.Rollback(version, now)).Ok?
        ensures OnDoc(d, FlowDocs.Rollback(version, now)).value.published == Some(d.history[i].dsl)
      {
        FirstIn(d.history, i, version);
        RolledBackDsl(d, OnDoc(d, FlowDocs.Rollback(version, now)).value, d.history[i], now);
      }
      var i := OldestAt(d.history, version);
      StoredAndSynced(sys, f, FlowDocs.Rollback(version, now), d.history[i].dsl, w);
    }
  }

  lemma HandlesRollback(sys: Sys, f: string, version: int, now: string, w: World, checked: Dsl)
    requires f in sys.db.flows && !sys.db.flows[f].locked && version > 0
    requires PublishLog.RollbackChecked(sys.db.flows[f], version) == Some(checked)
    requires CheckPasses(sys.http, f, checked.nodes)
    ensures HandleRollback(sys, f, version, now, w) == StoreThenSync(sys, f, FlowDocs.Rollback(version, now), w)
  {
    hide CheckPasses, StoreThenSync, PublishLog.RollbackChecked;
  }

  lemma SameFlow(db: Db, db': Db, f: string)
    requires OnlyFlow(db, db', f) && f in db.flows && f in db'.flows && db'.flows[f] == db.flows[f]
    ensures db' == db
  {
    forall g ensures g in db'.flows <==> g in db.flows
             ensures g in db.flows ==> db'.flows[g] == db.flows[g] {
      assert g != f ==> (g in db.flows - {f} <==> g in db'.flows - {f});
      assert g != f && g in db.flows ==> (db.flows - {f})[g] == (db'.flows - {f})[g];
    }
  }

  lemma LiveChecked(d: FlowDoc, version: int, checked: Dsl)
    requires Checks(d, version, checked) && version == d.publishedVersion
    ensures d.published == Some(checked)
  {
  }

  lemma ArchivedChecked(d: FlowDoc, version: int, checked: Dsl)
    requires Checks(d, version, checked) && version != d.publishedVersion
    ensures !NeverArchived(d.history, version)
  {
  }

  lemma FirstIn(hist: seq<HistEntry>, i: int, version: int)
    requires PublishLog.FirstAt(hist, i, version)
    ensures 0 <= i < |hist| && forall j | PublishLog.FirstAt(hist, j, version) :: j == i
  {
  }

  lemma RolledBackDsl(d: FlowDoc, d': FlowDoc, e: HistEntry, now: string)
    requires RolledBackTo(d, d', e, now)
    ensures d'.published == Some(e.dsl)
  {
    hide Pushed, Text.TrimSpace;
  }

  lemma OldestAt(hist: seq<HistEntry>, version: int) returns (i: int)
    requires !NeverArchived(hist, version)
    ensures PublishLog.FirstAt(hist, i, version) && forall j | PublishLog.FirstAt(hist, j, version) :: j == i
  {
    hide PublishLog.FirstIndex;
    i := PublishLog.FirstIndex(hist, version);
  }

  lemma RollbackRefusals(sys: Sys, f: string, version: int, now: string, w: World)
    requires Ready(sys, f)
    requires f in sys.db.flows && sys.db.flows[f].published.None? ==> sys.db.flows[f].publishedVersion == 0
    ensures var (sys', r) := HandleRollback(sys, f, version, now, w);
            var stored := f in sys.db.flows;
            && (r == Refused(NotFound) <==> version > 0 && !stored)
            && (r == Refused(FlowLocked) <==> version > 0 && stored && sys.db.flows[f].locked)
            && (r == Refused(HistoryNotFound) <==>
                  version <= 0 || (stored && !sys.db.flows[f].locked && version != sys.db.flows[f].publishedVersion
                                   && NeverArchived(sys.db.flows[f].history, version)))
            && (r == Conflict <==>
                  version > 0 && stored && !sys.db.flows[f].locked
                  && exists dsl :: Checks(sys.db.flows[f], version, dsl) && !CheckPasses(sys.http, f, dsl.nodes))
            && (r.Refused? || r.Conflict? ==> sys' == sys)
  {
    hide Ready, CheckPasses, StoreThenSync, PublishLog.RollbackChecked, PublishLog.FirstAt, PublishLog.LastAt, Checks;
    if version > 0 && f in sys.db.flows && !sys.db.flows[f].locked {
      var d := sys.db.flows[f];
      forall dsl ensures Checks(d, version, dsl) <==> PublishLog.RollbackChecked(d, version) == Some(dsl) {
        ChecksIs(d, version, dsl);
      }
      CheckedOrAbsent(d, version);
      if PublishLog.RollbackChecked(d, version).Some? {
        var dsl := PublishLog.RollbackChecked(d, version).value;
        if CheckPasses(sys.http, f, dsl.nodes) {
          RollbackReplies(sys, f, version, now, w, dsl);
        }
      }
    }
  }

  /** There is a snapshot to check unless the version is neither live nor archived. */
  lemma CheckedOrAbsent(d: FlowDoc, version: int)
    requires version > 0 && (d.published.None? ==> d.publishedVersion == 0)
    ensures PublishLog.RollbackChecked(d, version).None? <==>
            version != d.publishedVersion && NeverArchived(d.history, version)
  {
    hide PublishLog.RollbackChecked, Oldest, Reversed, PublishLog.FirstIndex;
    PublishLog.CheckedIs(d, version);
    PublishLog.OldestIsFirst(Reversed(d.history), version);
    PublishLog.NewestIsLast(d.history, version);
  }

  lemma RollbackReplies(sys: Sys, f: string, version: int, now: string, w: World, checked: Dsl)
    requires Ready(sys, f) && f in sys.db.flows && !sys.db.flows[f].locked && version > 0
    requires sys.db.flows[f].published.None? ==> sys.db.flows[f].publishedVersion == 0
    requires PublishLog.RollbackChecked(sys.db.flows[f], version) == Some(checked)
    requires CheckPasses(sys.http, f, checked.nodes)
    ensures var r := HandleRollback(sys, f, version, now, w).1; r.Done? || r.MqttFailed? || r.HttpFailed?
  {
    hide Ready, CheckPasses, StoreThenSync, OnDoc, PublishLog.RollbackChecked, AlwaysWorks, Checks, OnlyFlow, Answers;
    hide Holds, Table, MqttMounts.Mountable, RolledBackTo;
    var d := sys.db.flows[f];
    ChecksIs(d, version, checked);
    RollbackEffect(sys, f, version, now, w, checked);
    if version != d.publishedVersion {
      ArchivedChecked(d, version, checked);
      var i := OldestAt(d.history, version);
    }
  }

  // ---- offline, save, delete ----

  /** Taking a flow offline always succeeds: it unloads the flow, and open editors get their draft back. */
  lemma OfflineEffect(sys: Sys, f: string, now: string, w: World)
    requires Ready(sys, f)
    ensures var (sys', r) := HandleOffline(sys, f, now, w);
            var stored := f in sys.db.flows;
            && (r == Refused(NotFound) <==> !stored)
            && (r == Refused(FlowLocked) <==> stored && sys.db.flows[f].locked)
            && (r == Refused(NoPublished) <==> stored && !sys.db.flows[f].locked && sys.db.flows[f].published.None?)
            && (r == Done <==> stored && !sys.db.flows[f].locked && sys.db.flows[f].published.Some?)
            && (r == Done || r.Refused?) && (r.Refused? ==> sys' == sys)
            && (r == Done ==>
                  && OnlyFlow(sys.db, sys'.db, f) && f in sys'.db.flows
                  && TakenOffline(sys.db.flows[f], sys'.db.flows[f], now)
                  && Unloaded(sys, sys', f, DraftNodes(sys'.db.flows[f], w)))
  {
    hide Ready, OnDoc, SyncBoth, AfterOffline, Unloaded, DraftNodes, Pushed;
    if f in sys.db.flows {
      var op := FlowDocs.Offline(now);
      GoingOfflineArchives(sys.db.flows[f], now);
      if OnDoc(sys.db.flows[f], op).Ok? {
        AfterOfflineUnloads(sys, sys.(db := OnFlow(sys.db, f, op).value), f, w);
      }
    }
  }

  lemma AfterOfflineUnloads(sys: Sys, sys1: Sys, f: string, w: World)
    requires Ready(sys, f) && sys1 == sys.(db := sys1.db) && f in sys1.db.flows && sys1.db.flows[f].published.None?
    ensures var (sys', r) := AfterOffline(sys1, f, w);
            r == Done && sys'.db == sys1.db && Unloaded(sys, sys', f, DraftNodes(sys1.db.flows[f], w))
  {
    hide RouteTable.Inv, M.Core, MqttKeys.NulFree, SyncBoth, M.SyncDraft, Table, DraftNodes, MqttTracks.TrackNodes;
    SyncUnloads(sys1, f, w);
    var sys2 := SyncBoth(sys1, f, None, w).0;
    DraftSynced(sys2.mqtt, f, sys1.db.flows[f], w);
  }

  /**
   * Saving stores the draft and touches no route and no published client; the draft nodes of the flow become those of
   * the new draft, if an editor has the flow open, it is not live and the draft can be mounted, and else none.
   */
  lemma SaveEffect(sys: Sys, owner: string, dsl: Dsl, newId: string, now: string, w: World)
    requires newId != "" && Ready(sys, if dsl.id == "" then newId else dsl.id)
    ensures var (sys', r) := HandleSave(sys, owner, dsl, newId, now, w);
            var saved := if dsl.id == "" then dsl.(id := newId) else dsl;
            var stored := saved.id in sys.db.flows;
            && r == (if stored && sys.db.flows[saved.id].locked then Refused(FlowLocked) else Done)
            && (r.Refused? ==> sys' == sys)
            && (r == Done ==>
                  && OnlyFlow(sys.db, sys'.db, saved.id) && saved.id in sys'.db.flows
                  && (!stored ==> Created(sys'.db.flows[saved.id], owner, saved, now))
                  && (stored ==> sys'.db.flows[saved.id] ==
                                 sys.db.flows[saved.id].(name := dsl.name, draft := Some(saved), updatedAt := now))
                  && sys' == sys.(db := sys'.db, mqtt := sys'.mqtt)
                  && Holds(sys.mqtt, sys'.mqtt, saved.id,
                           MqttTracks.TrackNodes(sys.mqtt.byNode, MqttKeys.PUBLISHED, saved.id),
                           DraftNodes(sys'.db.flows[saved.id], w)))
  {
    hide RouteTable.Inv, M.Core, MqttKeys.NulFree, M.SyncDraft, DraftNodes, Holds, OnDoc, MqttTracks.TrackNodes;
    var saved := if dsl.id == "" then dsl.(id := newId) else dsl;
    SavingCreates(sys.db, owner, saved, now);
    EditingConcernsOne(sys.db, saved.id, SaveDraft(saved, now));
    if saved.id in sys.db.flows {
      SavingReplacesDraft(sys.db.flows[saved.id], saved, now);
    }
    if SaveFlow(sys.db, owner, saved, now).Ok? {
      DraftSynced(sys.mqtt, saved.id, SaveFlow(sys.db, owner, saved, now).value.flows[saved.id], w);
    }
  }

  /**
   * Deleting moves a flow to the trash, unloading it if it was live; a flow in the trash is deleted for good and keeps
   * no client on any track.
   */
  lemma DeleteEffect(sys: Sys, f: string, now: string, w: World)
    requires Ready(sys, f)
    ensures var (sys', r) := HandleDelete(sys, f, now, w);
            var stored := f in sys.db.flows;
            && (r == Refused(NotFound) <==> !stored)
            && (r == Refused(FlowLocked) <==> stored && sys.db.flows[f].locked)
            && (r == Done <==> stored && !sys.db.flows[f].locked) && (r == Done || r.Refused?)
            && (r.Refused? ==> sys' == sys)
            && (r == Done ==>
                  var d := sys.db.flows[f];
                  && OnlyFlow(sys.db, sys'.db, f) && (f in sys'.db.flows <==> d.groupId != TRASH)
                  && (d.groupId == TRASH ==> Unloaded(sys, sys', f, {}))
                  && (d.groupId != TRASH && d.published.None? ==>
                        Trashed(d, sys'.db.flows[f], now) && sys' == sys.(db := sys'.db))
                  && (d.groupId != TRASH && d.published.Some? ==>
                        && (exists off :: TakenOffline(d, off, now) && Trashed(off, sys'.db.flows[f], now))
                        && Unloaded(sys, sys', f, DraftNodes(sys'.db.flows[f], w))))
  {
    hide RouteTable.Inv, M.Core, MqttKeys.NulFree, SoftDelete, AfterOffline, Unloaded, DraftNodes, TakenOffline;
    hide RemoveBoth, Trashed;
    TrashingMovesOrPurges(sys.db, f, now);
    if SoftDelete(sys.db, f, now).Ok? {
      var sys1 := sys.(db := SoftDelete(sys.db, f, now).value);
      if f !in sys1.db.flows {
        RemoveUnloads(sys, sys1, f);
      } else if sys.db.flows[f].published.Some? {
        TrashedIsOffline(sys.db.flows[f], sys1.db.flows[f], now);
        AfterOfflineUnloads(sys, sys1, f, w);
      }
    }
  }

  lemma TrashedIsOffline(d: FlowDoc, d': FlowDoc, now: string)
    requires d.published.Some? && exists off :: TakenOffline(d, off, now) && Trashed(off, d', now)
    ensures d'.published.None?
  {
    hide Pushed;
  }

  lemma RemoveUnloads(sys: Sys, sys1: Sys, f: string)
    requires Ready(sys, f) && sys1 == sys.(db := sys1.db)
    ensures RemoveBoth(sys1, f).db == sys1.db && Unloaded(sys, RemoveBoth(sys1, f), f, {})
  {
    hide RouteTable.Inv, RouteTable.RemoveFlow, M.Core, M.RemoveTrack, MqttKeys.NulFree, Table, MqttTracks.TrackNodes;
    hide M.Leaked;
    RemoveFlowEffect(sys.http, f);
    var l1 := M.RemoveTrack(sys.mqtt, MqttKeys.PUBLISHED, f);
    M.RemoveTrackEffect(sys.mqtt, MqttKeys.PUBLISHED, f);
    MqttTracks.RemoveTrackMounts(sys.mqtt, MqttKeys.PUBLISHED, f);
    MqttTracks.RemoveTrackMounts(l1, MqttKeys.DRAFT, f);
  }

  /** In every reachable state the conditions above are met for every stored flow. */
  lemma ReachableReady(sys: Sys, ops: seq<Op>, f: string)
    requires Lifecycle.Inv(sys) && MqttLifecycle.MqttInv(sys) && LegalRun(sys, ops)
    requires forall i | 0 <= i < |ops| :: MqttLifecycle.NulFreeIds(ops[i])
    requires f in Lifecycle.Run(sys, ops).db.flows
    ensures Ready(Lifecycle.Run(sys, ops), f)
    ensures var d := Lifecycle.Run(sys, ops).db.flows[f]; d.published.None? ==> d.publishedVersion == 0
  {
    hide Lifecycle.Run, LegalRun, MqttLifecycle.NulFreeIds, Mounts, DocSound, M.Core, MqttRuns.Shows, MqttKeys.NulFree;
    hide RouteTable.Inv;
    RunKeepsInv(sys, ops);
    MqttLifecycle.RunKeepsMqtt(sys, ops);
    MountsInv(Lifecycle.Run(sys, ops).http, Lifecycle.Run(sys, ops).up);
    SoundNumber(Lifecycle.Run(sys, ops).db.flows[f]);
  }

  // ---- restart ----

  /** Which flows start-up mounts on MQTT: those listed as published whose DSL can be mounted. */
  lemma {:induction false} StartedIs(up: map<string, Dsl>, list: seq<Listed>, dials: string -> nat -> M.Dial, f: string)
    requires forall i, j | 0 <= i < j < |list| :: list[i].id != list[j].id
    requires f !in up
    ensures var started := MqttRuns.StartedUp(up, list, dials);
            && (f in started ==> exists i :: MountsAt(list, i, f, started[f], dials))
            && (forall i, dsl | MountsAt(list, i, f, dsl, dials) :: f in started && started[f] == dsl)
    decreases |list|
  {
    hide MqttMounts.Mountable;
    if list != [] {
      var rest := list[1..];
      if list[0].published.None? {
        StartedIs(up, rest, dials, f);
      } else if list[0].id == f {
        var dsl := list[0].published.value;
        var ok := MqttMounts.Mountable(MqttKeys.PUBLISHED, dsl, dials(f));
        StartedElsewhere(MqttRuns.UpWith(up, f, Some(dsl), ok), rest, dials, f);
        assert ok ==> MountsAt(list, 0, f, dsl, dials);
      } else {
        var dsl := list[0].published.value;
        var ok := MqttMounts.Mountable(MqttKeys.PUBLISHED, dsl, dials(list[0].id));
        StartedIs(MqttRuns.UpWith(up, list[0].id, Some(dsl), ok), rest, dials, f);
      }
      forall i, dsl | MountsAt(list, i, f, dsl, dials) && i > 0 ensures MountsAt(rest, i - 1, f, dsl, dials) {
        assert rest[i - 1] == list[i];
      }
      forall i, dsl | MountsAt(rest, i, f, dsl, dials) ensures MountsAt(list, i + 1, f, dsl, dials) {
        assert rest[i] == list[i + 1];
      }
    }
  }

  ghost predicate MountsAt(list: seq<Listed>, i: int, f: string, dsl: Dsl, dials: string -> nat -> M.Dial) {
    && 0 <= i < |list| && list[i] == Listed(f, Some(dsl))
    && MqttMounts.Mountable(MqttKeys.PUBLISHED, dsl, dials(f))
  }

  /** A flow that is not listed stays as it was. */
  lemma {:induction false} StartedElsewhere(up: map<string, Dsl>, list: seq<Listed>, dials: string -> nat -> M.Dial,
                                            f: string)
    requires forall i | 0 <= i < |list| :: list[i].id != f
    ensures var started := MqttRuns.StartedUp(up, list, dials);
            (f in started <==> f in up) && (f in up ==> started[f] == up[f])
    decreases |list|
  {
    hide MqttMounts.Mountable;
    if list != [] {
      if list[0].published.None? {
        StartedElsewhere(up, list[1..], dials, f);
      } else {
        var dsl := list[0].published.value;
        var ok := MqttMounts.Mountable(MqttKeys.PUBLISHED, dsl, dials(list[0].id));
        StartedElsewhere(MqttRuns.UpWith(up, list[0].id, Some(dsl), ok), list[1..], dials, f);
      }
    }
  }

  lemma StartedOf(db: Db, list: seq<Listed>, dials: string -> nat -> M.Dial, f: string)
    requires Lists(list, Published(db))
    ensures var started := MqttRuns.StartedUp(map[], list, dials);
            && (f in started <==>
                  f in Published(db) && MqttMounts.Mountable(MqttKeys.PUBLISHED, Published(db)[f], dials(f)))
            && (f in started ==> started[f] == Published(db)[f])
  {
    hide MqttMounts.Mountable, MqttRuns.StartedUp, Published;
    var started := MqttRuns.StartedUp(map[], list, dials);
    StartedIs(map[], list, dials, f);
    if f in started {
      var i :| MountsAt(list, i, f, started[f], dials);
      assert list[i].id in Published(db);
    }
    if f in Published(db) && MqttMounts.Mountable(MqttKeys.PUBLISHED, Published(db)[f], dials(f)) {
      var i :| 0 <= i < |list| && list[i].id == f;
      assert MountsAt(list, i, f, Published(db)[f], dials);
    }
  }

  /**
   * A restart keeps every document and makes sure of the trash; in a working environment every published flow answers
   * as its nodes and routers say, every flow whose DSL can be mounted has its MQTT nodes, and no draft is left.
   */
  lemma RestartEffect(sys: Sys, list: seq<Listed>, envs: string -> nat -> Env, dials: string -> nat -> M.Dial,
                      f: string)
    requires InStep(sys) && MqttLifecycle.MqttInv(sys) && Lists(list, Published(sys.db)) && EnvsWork(envs)
    ensures var sys' := HandleRestart(sys, list, envs, dials);
            var pub := Published(sys.db);
            && sys'.db.flows == sys.db.flows && TRASH in sys'.db.groups
            && sys'.db.groups - {TRASH} == sys.db.groups - {TRASH}
            && Shown(Table(sys'.http), pub) && InMode(sys'.http, pub)
            && MqttTracks.TrackNodes(sys'.mqtt.byNode, MqttKeys.DRAFT, f) == {}
            && MqttTracks.TrackNodes(sys'.mqtt.byNode, MqttKeys.PUBLISHED, f) ==
               (if f in pub && MqttMounts.Mountable(MqttKeys.PUBLISHED, pub[f], dials(f))
                then Nodes(MqttKeys.PUBLISHED, pub[f]) else {})
  {
    hide HandleRestart, Mounts, Clean, DocSound, Shown, InMode, Table, Nodes, MqttMounts.Mountable, Lists, Opened;
    hide MqttRuns.StartedUp, M.Core, MqttKeys.NulFree, MqttTracks.TrackNodes, MqttTracks.Wanted, EnvsWork;
    hide MqttMounts.FiledAs;
    RestartIs(sys, list, envs, dials);
    OpeningMakesTrash(sys.db);
    RestartStaysInStep(sys, list, envs, dials);
    MqttLifecycle.RestartKeepsMqtt(sys, list, envs, dials);
    var sys' := HandleRestart(sys, list, envs, dials);
    assert Published(sys'.db) == Published(sys.db);
    MountsShow(sys'.http, sys'.up);
    RestartDrafts(sys, list, envs, dials, f);
    StartedOf(sys.db, list, dials, f);
    if f in Published(sys.db) {
      NodesAre(MqttKeys.PUBLISHED, Published(sys.db)[f]);
    }
  }

  lemma RestartIs(sys: Sys, list: seq<Listed>, envs: string -> nat -> Env, dials: string -> nat -> M.Dial)
    ensures var sys' := HandleRestart(sys, list, envs, dials);
            sys'.db == Opened(sys.db) && sys'.mqttUp == MqttRuns.StartedUp(map[], list, dials)
  {
  }

  lemma RestartDrafts(sys: Sys, list: seq<Listed>, envs: string -> nat -> Env, dials: string -> nat -> M.Dial,
                      f: string)
    requires MqttLifecycle.MqttInv(sys) && Lists(list, Published(sys.db))
    ensures MqttTracks.TrackNodes(HandleRestart(sys, list, envs, dials).mqtt.byNode, MqttKeys.DRAFT, f) == {}
  {
    hide M.Core, MqttRuns.StartAll, MqttKeys.NulFree, Restart.StartAll, StartedUp, Lists, MqttRuns.StartedUp;
    hide MqttRuns.Shows, MqttTracks.TrackNodes;
    MqttRuns.StartsBalanced();
    forall i | 0 <= i < |list| && list[i].published.Some? ensures MqttKeys.NulFree(list[i].id) && list[i].id != "" {
      assert list[i] == Listed(list[i].id, Some(list[i].published.value));
      ListedIsPublished(sys.db, list, list[i].id, list[i].published.value);
    }
    forall g ensures MqttTracks.TrackNodes(M.NoClients.byNode, MqttKeys.DRAFT, g) == {} {
      NoDraftYet(g);
    }
    MqttRuns.StartAllDrafts(M.NoClients, list, dials);
  }

  lemma NoDraftYet(g: string)
    ensures MqttTracks.TrackNodes(M.NoClients.byNode, MqttKeys.DRAFT, g) == {}
  {
  }
}
