/**
 * Publish history over whole runs: a capped history against the unbounded log it stands for,
 * version numbers, and operations that undo each other.
 */
module PublishLog {
  import opened Prelude
  import opened FlowDsl
  import opened FlowDocs

  // ---- the unbounded log ----

  /** What an operation that the store carried out does to a log that is never truncated. */
  function LogStep(log: seq<HistEntry>, d: FlowDoc, op: DocOp): seq<HistEntry> {
    if OnDoc(d, op).Err? then log
    else
      match op
      case Publish(_, _) => if d.published.Some? then log + [Archive(d, "")] else log
      case Rollback(v, _) =>
        if v != d.publishedVersion && d.published.Some? && d.publishedVersion > 0
        then log + [Archive(d, d.publishedNote)] else log
      case Offline(_) => log + [Archive(d, d.publishedNote)]
      case Online(_) => if log == [] then log else log[..|log| - 1]
      case DeleteVersion(v, _) => WithoutVersion(log, v)
      case _ => log
  }

  function DocStep(d: FlowDoc, op: DocOp): FlowDoc {
    match OnDoc(d, op)
    case Ok(d') => d'
    case Err(_) => d
  }

  function DocRun(d: FlowDoc, ops: seq<DocOp>): FlowDoc
    decreases |ops|
  {
    if ops == [] then d else DocRun(DocStep(d, ops[0]), ops[1..])
  }

  function LogRun(log: seq<HistEntry>, d: FlowDoc, ops: seq<DocOp>): seq<HistEntry>
    decreases |ops|
  {
    if ops == [] then log else LogRun(LogStep(log, d, ops[0]), DocStep(d, ops[0]), ops[1..])
  }

  /**
   * The entries that the cap has cut off so far, after one more operation: a snapshot archived on top of twenty others
   * pushes out the oldest, and deleting a version deletes it here too.
   */
  function CutStep(cut: seq<HistEntry>, d: FlowDoc, op: DocOp): seq<HistEntry> {
    if OnDoc(d, op).Err? then cut
    else
      match op
      case DeleteVersion(v, _) => WithoutVersion(cut, v)
      case _ => if Archives(d, op) && |d.history| >= MAX_PUBLISH_HISTORY then cut + [d.history[0]] else cut
  }

  /** The operation archives the live snapshot. */
  predicate Archives(d: FlowDoc, op: DocOp) {
    match op
    case Publish(_, _) => d.published.Some?
    case Rollback(v, _) => v != d.publishedVersion && d.published.Some? && d.publishedVersion > 0
    case Offline(_) => true
    case _ => false
  }

  function CutRun(cut: seq<HistEntry>, d: FlowDoc, ops: seq<DocOp>): seq<HistEntry>
    decreases |ops|
  {
    if ops == [] then cut else CutRun(CutStep(cut, d, ops[0]), DocStep(d, ops[0]), ops[1..])
  }

  lemma {:induction false} WithoutVersionSplits(a: seq<HistEntry>, b: seq<HistEntry>, v: int)
    ensures WithoutVersion(a + b, v) == WithoutVersion(a, v) + WithoutVersion(b, v)
    decreases |a|
  {
    if a == [] {
      assert a + b == b;
    } else {
      assert (a + b)[1..] == a[1..] + b;
      WithoutVersionSplits(a[1..], b, v);
    }
  }

  lemma {:induction false} WithoutVersionIs(a: seq<HistEntry>, v: int)
    ensures |WithoutVersion(a, v)| <= |a|
    ensures forall i | 0 <= i < |WithoutVersion(a, v)| ::
        WithoutVersion(a, v)[i] in a && WithoutVersion(a, v)[i].version != v
    ensures forall e | e in a && e.version != v :: e in WithoutVersion(a, v)
    decreases |a|
  {
    if a != [] {
      WithoutVersionIs(a[1..], v);
    }
  }

  lemma PushSplits(hist: seq<HistEntry>, cut: seq<HistEntry>, e: HistEntry)
    requires |hist| <= MAX_PUBLISH_HISTORY
    ensures |Capped(hist + [e])| <= MAX_PUBLISH_HISTORY
    ensures cut + hist + [e] ==
            (if |hist| >= MAX_PUBLISH_HISTORY then cut + [hist[0]] else cut) + Capped(hist + [e])
  {
    if |hist| >= MAX_PUBLISH_HISTORY {
      assert hist + [e] == [hist[0]] + (hist + [e])[1..];
    }
  }

  lemma PopSplits(hist: seq<HistEntry>, cut: seq<HistEntry>)
    requires hist != []
    ensures (cut + hist)[..|cut + hist| - 1] == cut + hist[..|hist| - 1]
  {
  }

  /** What a successful operation does to the history. */
  lemma HistoryAfter(d: FlowDoc, op: DocOp)
    requires OnDoc(d, op).Ok?
    ensures var hist := OnDoc(d, op).value.history;
            match op
            case Publish(_, _) => hist == if d.published.Some? then Capped(d.history + [Archive(d, "")]) else d.history
            case Rollback(v, _) =>
              hist == if v != d.publishedVersion && d.published.Some? && d.publishedVersion > 0
                      then Capped(d.history + [Archive(d, d.publishedNote)]) else d.history
            case Offline(_) => d.published.Some? && hist == Capped(d.history + [Archive(d, d.publishedNote)])
            case Online(_) => d.history != [] && hist == d.history[..|d.history| - 1]
            case DeleteVersion(v, _) => hist == WithoutVersion(d.history, v)
            case _ => hist == d.history
  {
    hide Capped, Archive, Oldest, WithoutVersion, Text.TrimSpace;
  }

  /** One operation keeps the unbounded log split into what the cap has cut off and what is stored. */
  lemma StepSplitsLog(d: FlowDoc, cut: seq<HistEntry>, op: DocOp)
    requires |d.history| <= MAX_PUBLISH_HISTORY
    ensures LogStep(cut + d.history, d, op) == CutStep(cut, d, op) + DocStep(d, op).history
    ensures |DocStep(d, op).history| <= MAX_PUBLISH_HISTORY
  {
    hide OnDoc, WithoutVersion, Capped, Archive;
    if OnDoc(d, op).Ok? {
      HistoryAfter(d, op);
      match op
      case Publish(_, _) =>
        if d.published.Some? {
          PushSplits(d.history, cut, Archive(d, ""));
        }
      case Rollback(v, _) =>
        if d.published.Some? {
          PushSplits(d.history, cut, Archive(d, d.publishedNote));
        }
      case Offline(_) => PushSplits(d.history, cut, Archive(d, d.publishedNote));
      case Online(_) => PopSplits(d.history, cut);
      case DeleteVersion(v, _) =>
        WithoutVersionSplits(cut, d.history, v);
        WithoutVersionIs(d.history, v);
      case _ =>
    }
  }

  /**
   * Over any run the log that the same successful operations write without a limit is exactly what the cap has cut off
   * followed by the stored history, which never holds more than twenty entries.
   */
  lemma {:induction false} HistoryRefinesLog(d: FlowDoc, cut: seq<HistEntry>, ops: seq<DocOp>)
    requires |d.history| <= MAX_PUBLISH_HISTORY
    ensures LogRun(cut + d.history, d, ops) == CutRun(cut, d, ops) + DocRun(d, ops).history
    ensures |DocRun(d, ops).history| <= MAX_PUBLISH_HISTORY
    decreases |ops|
  {
    hide LogStep, CutStep, DocStep;
    if ops != [] {
      StepSplitsLog(d, cut, ops[0]);
      HistoryRefinesLog(DocStep(d, ops[0]), CutStep(cut, d, ops[0]), ops[1..]);
    }
  }

  /** The log stays within the cap at every point of a run. */
  predicate NeverOverflows(log: seq<HistEntry>, d: FlowDoc, ops: seq<DocOp>)
    decreases |ops|
  {
    |log| <= MAX_PUBLISH_HISTORY &&
    (ops == [] || NeverOverflows(LogStep(log, d, ops[0]), DocStep(d, ops[0]), ops[1..]))
  }

  /** Until the log outgrows the cap, the stored history is the whole log. */
  lemma {:induction false} HistoryIsLog(d: FlowDoc, ops: seq<DocOp>)
    requires NeverOverflows(d.history, d, ops)
    ensures DocRun(d, ops).history == LogRun(d.history, d, ops)
    decreases |ops|
  {
    hide LogStep, DocStep, CutStep;
    if ops != [] {
      assert [] + d.history == d.history;
      assert |LogStep(d.history, d, ops[0])| <= MAX_PUBLISH_HISTORY by {
        assert NeverOverflows(LogStep(d.history, d, ops[0]), DocStep(d, ops[0]), ops[1..]);
      }
      StepSplitsLog(d, [], ops[0]);
      NothingCut(d, ops[0]);
      assert [] + DocStep(d, ops[0]).history == DocStep(d, ops[0]).history;
      HistoryIsLog(DocStep(d, ops[0]), ops[1..]);
    }
  }

  lemma NothingCut(d: FlowDoc, op: DocOp)
    requires |d.history| <= MAX_PUBLISH_HISTORY && |LogStep(d.history, d, op)| <= MAX_PUBLISH_HISTORY
    ensures CutStep([], d, op) == []
  {
    hide OnDoc, Archive;
    if OnDoc(d, op).Ok? {
      HistoryAfter(d, op);
    }
  }

  // ---- version numbers ----

  /** Versions grow through the history and end below the live one; offline flows have version 0. */
  ghost predicate VersionsOk(d: FlowDoc) {
    && (forall i, j | 0 <= i < j < |d.history| :: d.history[i].version < d.history[j].version)
    && (forall i | 0 <= i < |d.history| :: d.history[i].version > 0)
    && (if d.published.Some?
        then d.publishedVersion > 0 && forall i | 0 <= i < |d.history| :: d.history[i].version < d.publishedVersion
        else d.publishedVersion == 0)
  }

  /** The operations that give out a new version number. */
  predicate Stamps(d: FlowDoc, op: DocOp) {
    op.Publish? || (op.Rollback? && op.version != d.publishedVersion)
  }

  lemma {:induction false} FilterKeepsOrder(a: seq<HistEntry>, v: int)
    requires forall i, j | 0 <= i < j < |a| :: a[i].version < a[j].version
    ensures forall i, j | 0 <= i < j < |WithoutVersion(a, v)| ::
        WithoutVersion(a, v)[i].version < WithoutVersion(a, v)[j].version
    decreases |a|
  {
    if a != [] {
      FilterKeepsOrder(a[1..], v);
      WithoutVersionIs(a[1..], v);
    }
  }

  lemma {:induction false} OldestIs(hist: seq<HistEntry>, version: int)
    ensures match Oldest(hist, version)
            case None => forall i | 0 <= i < |hist| :: hist[i].version != version
            case Some(e) => exists i :: 0 <= i < |hist| && hist[i] == e && e.version == version
                                        && forall j | 0 <= j < i :: hist[j].version != version
    decreases |hist|
  {
    if hist != [] && hist[0].version != version {
      OldestIs(hist[1..], version);
      match Oldest(hist[1..], version)
      case None => assert forall i | 0 < i < |hist| :: hist[i] == hist[1..][i - 1];
      case Some(e) =>
        var i :| 0 <= i < |hist[1..]| && hist[1..][i] == e && e.version == version
                 && forall j | 0 <= j < i :: hist[1..][j].version != version;
        assert forall j | 0 <= j < i + 1 :: hist[j].version != version by {
          forall j | 0 <= j < i + 1 ensures hist[j].version != version {
            assert j > 0 ==> hist[j] == hist[1..][j - 1];
          }
        }
        assert hist[i + 1] == e;
    }
  }

  lemma FilterKeepsVersions(d: FlowDoc, v: int)
    requires VersionsOk(d)
    ensures VersionsOk(d.(history := WithoutVersion(d.history, v)))
  {
    FilterKeepsOrder(d.history, v);
    WithoutVersionIs(d.history, v);
    forall i | 0 <= i < |WithoutVersion(d.history, v)|
      ensures WithoutVersion(d.history, v)[i].version > 0
      ensures d.published.Some? ==> WithoutVersion(d.history, v)[i].version < d.publishedVersion
    {
      var j :| 0 <= j < |d.history| && d.history[j] == WithoutVersion(d.history, v)[i];
    }
  }

  /** Archiving a snapshot above all others keeps the order, whatever the cap cuts off. */
  lemma ArchiveKeepsOrder(hist: seq<HistEntry>, e: HistEntry)
    requires forall i, j | 0 <= i < j < |hist| :: hist[i].version < hist[j].version
    requires e.version > 0 && forall i | 0 <= i < |hist| :: 0 < hist[i].version < e.version
    ensures var h := Capped(hist + [e]);
            && (forall i, j | 0 <= i < j < |h| :: h[i].version < h[j].version)
            && (forall i | 0 <= i < |h| :: 0 < h[i].version <= e.version)
  {
    var h := Capped(hist + [e]);
    var cut := |hist| + 1 - |h|;
    assert forall i | 0 <= i < |h| :: h[i] == (hist + [e])[cut + i];
  }

  /** Numbering restarts at 1 below existing history only when it happens offline. */
  lemma StampKeepsVersions(d: FlowDoc, op: DocOp)
    requires VersionsOk(d) && OnDoc(d, op).Ok? && Stamps(d, op)
    ensures VersionsOk(OnDoc(d, op).value) <==> !(d.published.None? && d.history != [])
  {
    hide Oldest, Capped;
    var d' := OnDoc(d, op).value;
    if d.published.Some? {
      ArchiveKeepsOrder(d.history, Archive(d, if op.Publish? then "" else d.publishedNote));
    } else if d.history != [] {
      assert d'.history[0].version >= 1 == d'.publishedVersion;
    } else if op.Rollback? {
      OldestIs(d.history, op.version);
    }
  }

  /**
   * A successful operation keeps the versions in order if and only if it does not hand out a number
   * while the flow is offline with a non-empty history; then numbering would restart at 1.
   */
  lemma VersionsKeptExactly(d: FlowDoc, op: DocOp)
    requires VersionsOk(d) && OnDoc(d, op).Ok?
    ensures VersionsOk(OnDoc(d, op).value) <==> !(Stamps(d, op) && d.published.None? && d.history != [])
  {
    hide Oldest, WithoutVersion, Capped;
    if Stamps(d, op) {
      StampKeepsVersions(d, op);
    } else if op.Offline? {
      ArchiveKeepsOrder(d.history, Archive(d, d.publishedNote));
    } else if op.DeleteVersion? {
      FilterKeepsVersions(d, op.version);
    }
  }

  /** Every version in a run is handed out while online, or before there is any history. */
  ghost predicate StampsOnline(d: FlowDoc, ops: seq<DocOp>)
    decreases |ops|
  {
    ops != [] ==>
      && !(Stamps(d, ops[0]) && d.published.None? && d.history != [])
      && StampsOnline(DocStep(d, ops[0]), ops[1..])
  }

  lemma {:induction false} VersionsOverRuns(d: FlowDoc, ops: seq<DocOp>)
    requires VersionsOk(d) && StampsOnline(d, ops)
    ensures VersionsOk(DocRun(d, ops))
    decreases |ops|
  {
    if ops != [] {
      if OnDoc(d, ops[0]).Ok? {
        VersionsKeptExactly(d, ops[0]);
      }
      VersionsOverRuns(DocStep(d, ops[0]), ops[1..]);
    }
  }

  /** Publish, offline, edit, publish: both snapshots are numbered 1. */
  function Republished(owner: string, a: Dsl, b: Dsl, now: string): FlowDoc {
    DocRun(NewDoc(owner, a, now), [Publish("", now), Offline(now), SaveDraft(b, now), Publish("", now)])
  }

  lemma VersionRepeats(owner: string, a: Dsl, b: Dsl, now: string)
    ensures var d := Republished(owner, a, b, now);
            && d.published == Some(b) && !d.locked
            && |d.history| == 1 && d.history[0].dsl == a && d.history[0].version == d.publishedVersion == 1
            && !VersionsOk(d)
  {
    var d0 := NewDoc(owner, a, now);
    DocRunAppends(d0, [Publish("", now), Offline(now), SaveDraft(b, now)], Publish("", now));
    DocRunAppends(d0, [Publish("", now), Offline(now)], SaveDraft(b, now));
    DocRunAppends(d0, [Publish("", now)], Offline(now));
    DocRunAppends(d0, [], Publish("", now));
    assert [] + [Publish("", now)] == [Publish("", now)];
    assert [Publish("", now)] + [Offline(now)] == [Publish("", now), Offline(now)];
    assert [Publish("", now), Offline(now)] + [SaveDraft(b, now)]
        == [Publish("", now), Offline(now), SaveDraft(b, now)];
    assert [Publish("", now), Offline(now), SaveDraft(b, now)] + [Publish("", now)] ==
           [Publish("", now), Offline(now), SaveDraft(b, now), Publish("", now)];
    assert DocRun(d0, [Publish("", now)]) == DocStep(d0, Publish("", now));
  }

  // ---- operations that undo each other ----

  /**
   * Offline then online restores the live snapshot, version, note and publish time. The history
   * comes back whole exactly when it had room for one more entry; otherwise its oldest entry is lost.
   */
  lemma OfflineThenOnline(d: FlowDoc, t1: string, t2: string)
    requires d.published.Some? && !d.locked && |d.history| <= MAX_PUBLISH_HISTORY
    ensures OnOffline(d, t1).Ok? && OnOnline(OnOffline(d, t1).value, t2).Ok?
    ensures var d' := OnOnline(OnOffline(d, t1).value, t2).value;
            && d'.published == d.published
            && d'.publishedVersion == d.publishedVersion && d'.publishedNote == d.publishedNote
            && d'.publishedAt == (if d.publishedAt == "" then t2 else d.publishedAt)
            && d'.draft == d.draft && d'.name == d.name
            && d'.history == (if |d.history| < MAX_PUBLISH_HISTORY then d.history else d.history[1..])
            && (d'.history == d.history <==> |d.history| < MAX_PUBLISH_HISTORY)
  {
    var pushed := d.history + [Archive(d, d.publishedNote)];
    if |d.history| == MAX_PUBLISH_HISTORY {
      assert pushed[1..][..MAX_PUBLISH_HISTORY - 1] == d.history[1..];
    } else {
      assert pushed[..|d.history|] == d.history;
    }
  }

  /** Online then offline puts the restored snapshot back where it came from. */
  lemma OnlineThenOffline(d: FlowDoc, t1: string, t2: string)
    requires d.published.None? && !d.locked && d.history != [] && |d.history| <= MAX_PUBLISH_HISTORY
    ensures OnOnline(d, t1).Ok? && OnOffline(OnOnline(d, t1).value, t2).Ok?
    ensures var last := d.history[|d.history| - 1];
            var d' := OnOffline(OnOnline(d, t1).value, t2).value;
            && d'.published.None?
            && var shown := if last.publishedAt == "" then t1 else last.publishedAt;
               d'.history == d.history[|d.history| - 1 := last.(publishedAt := shown)]
  {
    var last := d.history[|d.history| - 1];
    var rest := d.history[..|d.history| - 1];
    assert d.history == rest + [last];
  }

  /** Where a trash, a deleted group and a restore leave the two group fields. */
  function Refiled(d: FlowDoc, groupId: string, previousGroupId: string, now: string): FlowDoc {
    d.(groupId := groupId, previousGroupId := previousGroupId, updatedAt := now)
  }

  lemma TrashMoves(db: Db, f: string, now: string)
    requires f in db.flows && db.flows[f].published.Some? && !db.flows[f].locked && db.flows[f].groupId != TRASH
    ensures SoftDelete(db, f, now).Ok?
    ensures var trashed := SoftDelete(db, f, now).value;
            && trashed.groups == db.groups && f in trashed.flows
            && trashed.flows[f] == Refiled(OnOffline(db.flows[f], now).value, TRASH, db.flows[f].groupId, now)
  {
    hide Capped;
  }

  lemma TrashSurvives(db: Db, f: string, g: string, now: string)
    requires f in db.flows && db.flows[f].groupId == TRASH && DeleteGroup(db, g, now).Ok?
    ensures var kept := DeleteGroup(db, g, now).value;
            var d := db.flows[f];
            && kept.groups == db.groups - {g} && f in kept.flows
            && kept.flows[f] == (if g == d.previousGroupId then Refiled(d, TRASH, "", now) else d)
  {
  }

  lemma RestoreRefiles(db: Db, f: string, now: string)
    requires f in db.flows && !db.flows[f].locked
    requires db.flows[f].groupId == TRASH && db.flows[f].previousGroupId != TRASH
    ensures Restore(db, f, now).Ok?
    ensures var prev := db.flows[f].previousGroupId;
            var restored := Restore(db, f, now).value;
            f in restored.flows
            && restored.flows[f] == Refiled(db.flows[f], if prev in db.groups then prev else "", "", now)
  {
  }

  lemma OnlineIgnoresGroup(d: FlowDoc, groupId: string, previousGroupId: string, t: string, now: string)
    requires OnOnline(d, now).Ok?
    ensures var o := OnOnline(Refiled(d, groupId, previousGroupId, t), now);
            o == Ok(Refiled(OnOnline(d, now).value, groupId, previousGroupId, now))
  {
  }

  /**
   * Trashing a live flow, possibly deleting some group meanwhile, restoring it and going online
   * restores its live snapshot, and its group unless that is the group that was deleted.
   */
  lemma TrashRestoreOnline(db: Db, f: string, g: string, t1: string, t2: string, t3: string, t4: string)
    requires f in db.flows && db.flows[f].published.Some? && !db.flows[f].locked
    requires db.flows[f].groupId != TRASH && (db.flows[f].groupId == "" || db.flows[f].groupId in db.groups)
    requires "" !in db.groups && |db.flows[f].history| <= MAX_PUBLISH_HISTORY
    ensures SoftDelete(db, f, t1).Ok?
    ensures var trashed := SoftDelete(db, f, t1).value;
            var kept := if DeleteGroup(trashed, g, t2).Ok? then DeleteGroup(trashed, g, t2).value else trashed;
            && f in kept.flows && kept.flows[f].published.None? && kept.flows[f].groupId == TRASH
            && Restore(kept, f, t3).Ok?
            && OnFlow(Restore(kept, f, t3).value, f, Online(t4)).Ok?
            && var d, d' := db.flows[f], OnFlow(Restore(kept, f, t3).value, f, Online(t4)).value.flows[f];
               && d'.published == d.published && d'.publishedVersion == d.publishedVersion
               && d'.publishedNote == d.publishedNote && d'.draft == d.draft
               && d'.history == (if |d.history| < MAX_PUBLISH_HISTORY then d.history else d.history[1..])
               && d'.groupId == (if DeleteGroup(trashed, g, t2).Ok? && g == d.groupId then "" else d.groupId)
               && d'.previousGroupId == ""
  {
    hide OnOffline, OnOnline, SoftDelete, DeleteGroup, Restore;
    var d := db.flows[f];
    TrashMoves(db, f, t1);
    OfflineThenOnline(d, t1, t4);
    OfflineClears(d, t1);
    var trashed := SoftDelete(db, f, t1).value;
    var deleted := DeleteGroup(trashed, g, t2);
    var kept := if deleted.Ok? then deleted.value else trashed;
    if deleted.Ok? {
      TrashSurvives(trashed, f, g, t2);
      DeletedWasThere(trashed, g, t2);
    }
    RestoreRefiles(kept, f, t3);
    OnlineIgnoresGroup(OnOffline(d, t1).value, Restore(kept, f, t3).value.flows[f].groupId, "", t3, t4);
  }

  lemma OfflineClears(d: FlowDoc, now: string)
    requires d.published.Some? && !d.locked
    ensures OnDoc(d, Offline(now)) == OnOffline(d, now) && OnOffline(d, now).Ok?
    ensures var d' := OnOffline(d, now).value; d'.published.None? && !d'.locked
  {
    hide Capped;
  }

  lemma DeletedWasThere(db: Db, g: string, now: string)
    requires DeleteGroup(db, g, now).Ok?
    ensures g in db.groups && g != TRASH
  {
  }

  // ---- what is checked and what goes live ----

  /** The DSL the rollback handler checks, the first match in the listing, and the DSL the store then makes live. */
  function RollbackChecked(d: FlowDoc, version: int): Option<Dsl> {
    match Oldest(Listing(d), version)
    case None => None
    case Some(e) => Some(e.dsl)
  }

  function RollbackStored(d: FlowDoc, version: int): Option<Dsl> {
    if version == d.publishedVersion then d.published
    else match Oldest(d.history, version) case None => None case Some(e) => Some(e.dsl)
  }

  /** At most one archived snapshot has this version. */
  ghost predicate OccursOnce(hist: seq<HistEntry>, version: int) {
    forall i, j | 0 <= i < |hist| && 0 <= j < |hist| && hist[i].version == hist[j].version == version :: i == j
  }

  predicate FirstAt(hist: seq<HistEntry>, i: int, version: int) {
    0 <= i < |hist| && hist[i].version == version && forall k | 0 <= k < i :: hist[k].version != version
  }

  predicate LastAt(hist: seq<HistEntry>, i: int, version: int) {
    0 <= i < |hist| && hist[i].version == version && forall k | i < k < |hist| :: hist[k].version != version
  }

  /** The oldest and the newest archived snapshot of a version, if there is one, have the same DSL. */
  ghost predicate EndsAgree(hist: seq<HistEntry>, version: int) {
    forall i, j | FirstAt(hist, i, version) && LastAt(hist, j, version) :: hist[i].dsl == hist[j].dsl
  }

  lemma {:induction false} ReversedAt(hist: seq<HistEntry>, i: nat)
    requires i < |hist|
    ensures Reversed(hist)[i] == hist[|hist| - 1 - i]
    decreases |hist|
  {
    if i > 0 {
      ReversedAt(hist[..|hist| - 1], i - 1);
    }
  }

  function FirstIndex(hist: seq<HistEntry>, version: int): (i: nat)
    ensures i <= |hist|
    ensures i < |hist| ==> hist[i].version == version
    ensures forall j | 0 <= j < i :: hist[j].version != version
  {
    if hist == [] || hist[0].version == version then 0 else 1 + FirstIndex(hist[1..], version)
  }

  lemma OldestIsFirst(hist: seq<HistEntry>, version: int)
    ensures var i := FirstIndex(hist, version);
            Oldest(hist, version) == if i < |hist| then Some(hist[i]) else None
    decreases |hist|
  {
    if hist != [] {
      OldestIsFirst(hist[1..], version);
    }
  }

  /** The search from the newest end stops at the last occurrence. */
  lemma NewestIsLast(hist: seq<HistEntry>, version: int)
    ensures var b := FirstIndex(Reversed(hist), version);
            if b < |hist| then LastAt(hist, |hist| - 1 - b, version) && Reversed(hist)[b] == hist[|hist| - 1 - b]
            else forall k | 0 <= k < |hist| :: hist[k].version != version
  {
    hide FirstIndex, Reversed;
    var rev := Reversed(hist);
    forall i | 0 <= i < |hist| ensures hist[i] == rev[|hist| - 1 - i] {
      ReversedAt(hist, |hist| - 1 - i);
    }
  }

  /** The first match in the whole listing is the live snapshot, if it has the version, and else the newest archived. */
  lemma CheckedIs(d: FlowDoc, version: int)
    requires version > 0 && (d.published.None? ==> d.publishedVersion == 0)
    ensures RollbackChecked(d, version) ==
            if version == d.publishedVersion then d.published
            else match Oldest(Reversed(d.history), version) case None => None case Some(e) => Some(e.dsl)
  {
    hide Reversed;
    var live := if d.published.Some? then [Archive(d, d.publishedNote)] else [];
    var rev := Reversed(d.history);
    if d.published.Some? {
      assert (live + rev)[1..] == rev;
    } else {
      assert live + rev == rev;
    }
  }

  /**
   * The DSL whose routes the rollback handler checks is the DSL that the store makes live if and only if the version
   * is the live one, or its oldest and newest archived snapshots have the same DSL.
   */
  lemma RollbackAgreesExactly(d: FlowDoc, version: int)
    requires version > 0 && (d.published.None? ==> d.publishedVersion == 0)
    ensures RollbackChecked(d, version) == RollbackStored(d, version) <==>
            version == d.publishedVersion || EndsAgree(d.history, version)
  {
    hide RollbackChecked, Oldest, Reversed, FirstIndex;
    CheckedIs(d, version);
    OldestIsFirst(d.history, version);
    OldestIsFirst(Reversed(d.history), version);
    NewestIsLast(d.history, version);
    var a := FirstIndex(d.history, version);
    var b := |d.history| - 1 - FirstIndex(Reversed(d.history), version);
    if a < |d.history| {
      assert FirstAt(d.history, a, version) && LastAt(d.history, b, version);
      assert forall i | FirstAt(d.history, i, version) :: i == a;
      assert forall j | LastAt(d.history, j, version) :: j == b;
    }
  }

  /** In particular they agree on a version that is live or archived once. */
  lemma RollbackCheckedIsStored(d: FlowDoc, version: int)
    requires version > 0 && (d.published.None? ==> d.publishedVersion == 0)
    requires version == d.publishedVersion || OccursOnce(d.history, version)
    ensures RollbackChecked(d, version) == RollbackStored(d, version)
  {
    hide RollbackChecked, RollbackStored;
    RollbackAgreesExactly(d, version);
  }

  /** With repeated versions the two can differ: the check sees one DSL and another goes live. */
  lemma RollbackUnchecked(owner: string, a: Dsl, b: Dsl, now: string)
    requires a != b
    ensures var d := DocStep(Republished(owner, a, b, now), Offline(now));
            RollbackChecked(d, 1) == Some(b) && RollbackStored(d, 1) == Some(a)
  {
    hide Republished;
    VersionRepeats(owner, a, b, now);
    var d := Republished(owner, a, b, now);
    var hist := DocStep(d, Offline(now)).history;
    assert hist == [d.history[0], Archive(d, d.publishedNote)];
    ReversedAt(hist, 0);
    assert [] + Reversed(hist) == Reversed(hist);
  }

  /** Exactly when a version occurs once do both searches stop at the same entry of the history. */
  lemma SameEntryIffUnique(hist: seq<HistEntry>, version: int)
    requires exists i :: 0 <= i < |hist| && hist[i].version == version
    ensures |hist| - 1 - FirstIndex(Reversed(hist), version) == FirstIndex(hist, version) <==>
            OccursOnce(hist, version)
  {
    hide FirstIndex, Reversed;
    var rev := Reversed(hist);
    forall i | 0 <= i < |hist| ensures rev[i] == hist[|hist| - 1 - i] && hist[i] == rev[|hist| - 1 - i] {
      ReversedAt(hist, i);
      ReversedAt(hist, |hist| - 1 - i);
    }
    var k :| 0 <= k < |hist| && hist[k].version == version;
    assert rev[|hist| - 1 - k].version == version;
    var a, b := FirstIndex(hist, version), FirstIndex(rev, version);
    assert hist[|hist| - 1 - b].version == version;
    forall i | 0 <= i < |hist| && hist[i].version == version ensures a <= i <= |hist| - 1 - b {
      assert rev[|hist| - 1 - i].version == version;
    }
  }

  lemma {:induction false} DocRunAppends(d: FlowDoc, ops: seq<DocOp>, op: DocOp)
    ensures DocRun(d, ops + [op]) == DocStep(DocRun(d, ops), op)
    decreases |ops|
  {
    if ops == [] {
      assert [op][1..] == [];
    } else {
      assert (ops + [op])[1..] == ops[1..] + [op];
      DocRunAppends(DocStep(d, ops[0]), ops[1..], op);
    }
  }

  /** After publishing or discarding, draft and live snapshot no longer differ. */
  lemma NoChangesLeft(d: FlowDoc, op: DocOp, fingerprint: Dsl -> Option<string>)
    requires (op.Publish? || op.Discard?) && OnDoc(d, op).Ok?
    ensures var d' := OnDoc(d, op).value;
            && d'.draft == d'.published && d'.published.Some?
            && (UnpublishedChanges(d', fingerprint) <==> fingerprint(d'.published.value).None?)
  {
  }
}
