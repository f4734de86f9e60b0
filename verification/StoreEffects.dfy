/**
 * What each operation on flow documents and groups changes, what it leaves alone, and when it is refused.
 *
 * A document keeps every field that its lemma does not name; a snapshot that is archived goes to the end of the
 * history, from which the oldest entries drop out beyond twenty.
 */
module StoreEffects {
  import opened Prelude
  import opened FlowDsl
  import opened FlowDocs
  import PublishLog
  import Groups
  import Text

  /** `hist'` is `hist` with one more entry, cut to the last twenty. */
  ghost predicate Pushed(hist: seq<HistEntry>, hist': seq<HistEntry>, e: HistEntry) {
    && |hist'| == (if |hist| < 20 then |hist| + 1 else 20)
    && hist'[|hist'| - 1] == e
    && forall i | 0 <= i < |hist'| - 1 :: hist'[i] == hist[|hist| + 1 - |hist'| + i]
  }

  lemma CappedPushes(hist: seq<HistEntry>, e: HistEntry)
    ensures Pushed(hist, Capped(hist + [e]), e)
  {
  }

  /** No archived snapshot has this version. */
  predicate NeverArchived(hist: seq<HistEntry>, version: int) {
    forall i | 0 <= i < |hist| :: hist[i].version != version
  }

  // ---- one document before and after ----

  /** The draft went live under the next number; what it replaced was archived without its note. */
  ghost predicate PublishedDraft(d: FlowDoc, d': FlowDoc, note: string, now: string)
    requires d.draft.Some?
  {
    && d' == d.(name := d.draft.value.name, published := d.draft, publishedAt := now,
                publishedNote := Text.TrimSpace(note), publishedVersion := d.publishedVersion + 1,
                history := d'.history, updatedAt := now)
    && if d.published.None? then d'.history == d.history
       else Pushed(d.history, d'.history, HistEntry(d.publishedVersion, "", d.publishedAt, d.published.value))
  }

  /** Archived snapshot `e` went live under the next number; what it replaced was archived with its note. */
  ghost predicate RolledBackTo(d: FlowDoc, d': FlowDoc, e: HistEntry, now: string) {
    var note := Text.TrimSpace(e.note);
    && d' == d.(published := Some(e.dsl), publishedAt := now, publishedNote := if note == "" then "rollback" else note,
                publishedVersion := d.publishedVersion + 1, history := d'.history, updatedAt := now)
    && if d.published.Some? && d.publishedVersion > 0
       then Pushed(d.history, d'.history,
                   HistEntry(d.publishedVersion, d.publishedNote, d.publishedAt, d.published.value))
       else d'.history == d.history
  }

  /** The live snapshot was archived with its note, and nothing is live any more. */
  ghost predicate TakenOffline(d: FlowDoc, d': FlowDoc, now: string)
    requires d.published.Some?
  {
    && d' == d.(published := None, publishedAt := "", publishedNote := "", publishedVersion := 0,
                history := d'.history, updatedAt := now)
    && Pushed(d.history, d'.history,
              HistEntry(d.publishedVersion, d.publishedNote, d.publishedAt, d.published.value))
  }

  /** The newest archived snapshot was taken out of the history and is live, with its number, note and time. */
  ghost predicate BroughtOnline(d: FlowDoc, d': FlowDoc, now: string)
    requires d.history != []
  {
    var e := d.history[|d.history| - 1];
    && d.history == d'.history + [e]
    && d' == d.(published := Some(e.dsl), publishedNote := e.note, publishedVersion := e.version,
                publishedAt := if e.publishedAt == "" then now else e.publishedAt,
                history := d'.history, updatedAt := now)
  }

  /** A new flow is unpublished, unlocked and outside all groups. */
  predicate Created(d: FlowDoc, owner: string, dsl: Dsl, now: string) {
    && d.name == dsl.name && d.ownerId == owner && d.draft == Some(dsl)
    && d.groupId == "" && d.previousGroupId == "" && !d.locked && d.lockHash == ""
    && d.published.None? && d.publishedVersion == 0 && d.publishedNote == "" && d.publishedAt == ""
    && d.history == [] && d.createdAt == now && d.updatedAt == now
  }

  /** The flow is in the trash, which remembers its group. */
  predicate Trashed(d: FlowDoc, d': FlowDoc, now: string) {
    d' == d.(groupId := TRASH, previousGroupId := d.groupId, updatedAt := now)
  }

  // ---- operations on one document ----

  /** Saving replaces draft and name, and nothing of what is live. */
  lemma SavingReplacesDraft(d: FlowDoc, dsl: Dsl, now: string)
    ensures d.locked ==> OnDoc(d, SaveDraft(dsl, now)) == Err(FlowLocked)
    ensures !d.locked ==>
      OnDoc(d, SaveDraft(dsl, now)) == Ok(d.(name := dsl.name, draft := Some(dsl), updatedAt := now))
  {
  }

  /** Publishing makes the draft live under the next number and archives what it replaces, without its note. */
  lemma PublishingGoesLive(d: FlowDoc, note: string, now: string)
    ensures var r := OnDoc(d, Publish(note, now));
            && (r == Err(FlowLocked) <==> d.locked)
            && (r == Err(DraftEmpty) <==> !d.locked && d.draft.None?)
            && (r.Ok? <==> !d.locked && d.draft.Some?)
            && (r.Ok? ==> PublishedDraft(d, r.value, note, now))
  {
    hide Capped;
    if d.published.Some? {
      CappedPushes(d.history, Archive(d, ""));
    }
  }

  /** A rollback is carried out unless the flow is locked or the version is neither live nor archived. */
  lemma RollingBackAccepts(d: FlowDoc, version: int, now: string)
    ensures var r := OnDoc(d, Rollback(version, now));
            && (r == Err(FlowLocked) <==> d.locked)
            && (r == Err(HistoryNotFound) <==>
                  !d.locked && version != d.publishedVersion && NeverArchived(d.history, version))
            && (r.Ok? <==> !d.locked && (version == d.publishedVersion || !NeverArchived(d.history, version)))
            && (r.Ok? && version == d.publishedVersion ==> r.value == d)
  {
    hide Capped, Oldest, Text.TrimSpace;
    PublishLog.OldestIs(d.history, version);
  }

  lemma OldestIsAt(hist: seq<HistEntry>, version: int, i: int)
    requires PublishLog.FirstAt(hist, i, version)
    ensures Oldest(hist, version) == Some(hist[i])
  {
    hide Oldest;
    PublishLog.OldestIs(hist, version);
  }

  lemma RollingBackTo(d: FlowDoc, version: int, now: string, i: int)
    requires OnDoc(d, Rollback(version, now)).Ok? && version != d.publishedVersion
    requires PublishLog.FirstAt(d.history, i, version)
    ensures RolledBackTo(d, OnDoc(d, Rollback(version, now)).value, d.history[i], now)
  {
    hide Capped, Oldest, Text.TrimSpace, Pushed, PublishLog.FirstAt;
    OldestIsAt(d.history, version, i);
    if d.published.Some? {
      CappedPushes(d.history, Archive(d, d.publishedNote));
    }
  }

  /**
   * Rolling back makes the oldest archived snapshot of a version live under the next number, archives what it replaces
   * with its note, and leaves draft and name alone; rolling back to the live version does nothing.
   */
  lemma RollingBackKeepsDraft(d: FlowDoc, version: int, now: string)
    ensures var r := OnDoc(d, Rollback(version, now));
            && (r == Err(FlowLocked) <==> d.locked)
            && (r == Err(HistoryNotFound) <==>
                  !d.locked && version != d.publishedVersion && NeverArchived(d.history, version))
            && (r.Ok? <==> !d.locked && (version == d.publishedVersion || !NeverArchived(d.history, version)))
            && (r.Ok? && version == d.publishedVersion ==> r.value == d)
            && (r.Ok? && version != d.publishedVersion ==>
                  forall i | PublishLog.FirstAt(d.history, i, version) :: RolledBackTo(d, r.value, d.history[i], now))
  {
    hide OnDoc, RolledBackTo;
    RollingBackAccepts(d, version, now);
    var r := OnDoc(d, Rollback(version, now));
    if r.Ok? && version != d.publishedVersion {
      forall i | PublishLog.FirstAt(d.history, i, version) ensures RolledBackTo(d, r.value, d.history[i], now) {
        RollingBackTo(d, version, now, i);
      }
    }
  }

  /** Going offline archives the live snapshot with its note and keeps the draft. */
  lemma GoingOfflineArchives(d: FlowDoc, now: string)
    ensures var r := OnDoc(d, Offline(now));
            && (r == Err(FlowLocked) <==> d.locked)
            && (r == Err(NoPublished) <==> !d.locked && d.published.None?)
            && (r.Ok? <==> !d.locked && d.published.Some?)
            && (r.Ok? ==> TakenOffline(d, r.value, now))
  {
    hide Capped;
    if d.published.Some? {
      CappedPushes(d.history, Archive(d, d.publishedNote));
    }
  }

  /** Going online takes the newest archived snapshot out of the history, with its number, note and time. */
  lemma GoingOnlineTakesLatest(d: FlowDoc, now: string)
    ensures var r := OnDoc(d, Online(now));
            && (r == Err(FlowLocked) <==> d.locked)
            && (r == Err(AlreadyOnline) <==> !d.locked && d.published.Some?)
            && (r == Err(NoPublishHistory) <==> !d.locked && d.published.None? && d.history == [])
            && (r.Ok? <==> !d.locked && d.published.None? && d.history != [])
            && (r.Ok? ==> BroughtOnline(d, r.value, now))
  {
  }

  /** Discarding the draft goes back to what is live. */
  lemma DiscardingGoesBack(d: FlowDoc, now: string)
    ensures var r := OnDoc(d, Discard(now));
            && (r == Err(FlowLocked) <==> d.locked)
            && (r == Err(NoPublished) <==> !d.locked && d.published.None?)
            && (!d.locked && d.published.Some? ==>
                  r == Ok(d.(name := d.published.value.name, draft := d.published, updatedAt := now)))
  {
  }

  /** Deleting a version removes its archived snapshots, keeps the others in order, and refuses the live one. */
  lemma DeletingVersionFilters(d: FlowDoc, version: int, now: string)
    ensures var r := OnDoc(d, DeleteVersion(version, now));
            && (r == Err(FlowLocked) <==> d.locked)
            && (r == Err(CannotDeleteLive) <==> !d.locked && version > 0 && version == d.publishedVersion)
            && (r == Err(HistoryNotFound) <==>
                  !d.locked && (version <= 0 || (version != d.publishedVersion && NeverArchived(d.history, version))))
            && (r.Ok? <==> !d.locked && version > 0 && version != d.publishedVersion
                           && !NeverArchived(d.history, version))
            && (r.Ok? ==>
                  && r.value == d.(history := r.value.history, updatedAt := now)
                  && NeverArchived(r.value.history, version)
                  && Subsequence(r.value.history, d.history)
                  && forall v | v != version :: Of(r.value.history, v) == Of(d.history, v))
  {
    hide Oldest, WithoutVersion, Subsequence, Of;
    PublishLog.OldestIs(d.history, version);
    FilterKeepsRest(d.history, version);
    PublishLog.WithoutVersionIs(d.history, version);
  }

  /** The snapshots of one version, in order. */
  function Of(hist: seq<HistEntry>, version: int): seq<HistEntry> {
    if hist == [] then []
    else (if hist[0].version == version then [hist[0]] else []) + Of(hist[1..], version)
  }

  predicate Subsequence(a: seq<HistEntry>, b: seq<HistEntry>)
    decreases |b|
  {
    a == [] || (b != [] && ((a[0] == b[0] && Subsequence(a[1..], b[1..])) || Subsequence(a, b[1..])))
  }

  lemma {:induction false} FilterKeepsRest(hist: seq<HistEntry>, version: int)
    ensures Subsequence(WithoutVersion(hist, version), hist)
    ensures forall v | v != version :: Of(WithoutVersion(hist, version), v) == Of(hist, v)
    decreases |hist|
  {
    if hist != [] {
      FilterKeepsRest(hist[1..], version);
      var rest := WithoutVersion(hist[1..], version);
      if hist[0].version != version {
        assert WithoutVersion(hist, version) == [hist[0]] + rest;
        assert ([hist[0]] + rest)[1..] == rest;
      } else {
        assert WithoutVersion(hist, version) == rest;
      }
    }
  }

  /** Locking sets the password; unlocking needs it, unless none was set. */
  lemma LockingNeedsPassword(d: FlowDoc, locked: bool, password: string, hash: string, now: string)
    ensures var r := OnDoc(d, SetLocked(locked, password, hash, now));
            && (locked ==> r == Ok(d.(locked := true, lockHash := if password == "" then "" else hash,
                                      updatedAt := now)))
            && (!locked && (d.lockHash == "" || (password != "" && d.lockHash == hash)) ==>
                  r == Ok(d.(locked := false, lockHash := "", updatedAt := now)))
            && (!locked && d.lockHash != "" && (password == "" || d.lockHash != hash) ==> r == Err(UnlockFailed))
  {
  }

  // ---- documents in the store ----

  /** `db'` differs from `db` at most in one flow. */
  ghost predicate OnlyFlow(db: Db, db': Db, f: string) {
    db'.groups == db.groups && db'.flows - {f} == db.flows - {f}
  }

  /** An edit concerns one stored flow. */
  lemma EditingConcernsOne(db: Db, f: string, op: DocOp)
    ensures var r := Groups.Perform(db, Groups.Edit(f, op));
            && (f !in db.flows ==> r == Err(NotFound))
            && (f in db.flows ==>
                  && (r.Ok? <==> OnDoc(db.flows[f], op).Ok?)
                  && (r.Err? ==> r.error == OnDoc(db.flows[f], op).error)
                  && (r.Ok? ==> OnlyFlow(db, r.value, f) && f in r.value.flows
                                && r.value.flows[f] == OnDoc(db.flows[f], op).value))
  {
    hide OnDoc;
  }

  /** Saving under a new id creates a flow. */
  lemma SavingCreates(db: Db, owner: string, dsl: Dsl, now: string)
    ensures var r := Groups.Perform(db, Groups.Save(owner, dsl, now));
            && (dsl.id == "" <==> r == Err(IdRequired))
            && (dsl.id != "" && dsl.id in db.flows ==>
                  r == Groups.Perform(db, Groups.Edit(dsl.id, SaveDraft(dsl, now))))
            && (dsl.id != "" && dsl.id !in db.flows ==>
                  && r.Ok? && OnlyFlow(db, r.value, dsl.id) && dsl.id in r.value.flows
                  && Created(r.value.flows[dsl.id], owner, dsl, now))
  {
  }

  /** A flow moves between groups, and neither into nor out of the trash. */
  lemma MovingChangesGroup(db: Db, f: string, g: string, now: string)
    ensures var r := Groups.Perform(db, Groups.Move(f, g, now));
            var toTrash := g == TRASH;
            var stored := f in db.flows;
            var fromTrash := stored && db.flows[f].groupId == TRASH;
            && (r == Err(CannotMoveToTrash) <==> toTrash)
            && (r == Err(MustRestoreFromTrash) <==> !toTrash && fromTrash)
            && (r == Err(NotFound) <==> !toTrash && (!stored || (!fromTrash && g != "" && g !in db.groups)))
            && (r.Ok? <==> !toTrash && stored && !fromTrash && (g == "" || g in db.groups))
            && (r.Ok? ==> OnlyFlow(db, r.value, f) && f in r.value.flows
                          && r.value.flows[f] == db.flows[f].(groupId := g, updatedAt := now))
  {
  }

  /**
   * Trashing takes a live flow offline, remembers its group and leaves the rest of it alone; in the trash the flow is
   * deleted for good.
   */
  lemma TrashingMovesOrPurges(db: Db, f: string, now: string)
    ensures var r := Groups.Perform(db, Groups.Trash(f, now));
            && (r == Err(NotFound) <==> f !in db.flows)
            && (r == Err(FlowLocked) <==> f in db.flows && db.flows[f].locked)
            && (r.Ok? <==> f in db.flows && !db.flows[f].locked)
            && (r.Ok? ==> OnlyFlow(db, r.value, f) && (f in r.value.flows <==> db.flows[f].groupId != TRASH))
            && (r.Ok? && db.flows[f].groupId != TRASH ==>
                  var d, d' := db.flows[f], r.value.flows[f];
                  if d.published.None? then Trashed(d, d', now)
                  else exists off :: TakenOffline(d, off, now) && Trashed(off, d', now))
  {
    if f in db.flows {
      hide Capped;
      var d := db.flows[f];
      if d.published.Some? && !d.locked {
        GoingOfflineArchives(d, now);
        assert TakenOffline(d, OnOffline(d, now).value, now);
      }
    }
  }

  /** Restoring puts a flow back into its group, if that still exists, and outside all groups otherwise. */
  lemma RestoringRefiles(db: Db, f: string, now: string)
    ensures var r := Groups.Perform(db, Groups.Untrash(f, now));
            && (r == Err(NotFound) <==> f !in db.flows)
            && (r == Err(FlowLocked) <==> f in db.flows && db.flows[f].locked)
            && (r == Err(NotInTrash) <==> f in db.flows && !db.flows[f].locked && db.flows[f].groupId != TRASH)
            && (r.Ok? <==> f in db.flows && !db.flows[f].locked && db.flows[f].groupId == TRASH)
            && (r.Ok? ==>
                  var g := db.flows[f].previousGroupId;
                  && OnlyFlow(db, r.value, f) && f in r.value.flows
                  && r.value.flows[f] == db.flows[f].(previousGroupId := "", updatedAt := now, groupId :=
                                                      if g != TRASH && g in db.groups then g else ""))
  {
  }

  // ---- groups ----

  lemma AddingGroup(db: Db, name: string, id: string)
    ensures var r := Groups.Perform(db, Groups.AddGroup(name, id));
            && (r == Err(NameRequired) <==> Text.TrimSpace(name) == "")
            && (Text.TrimSpace(name) != "" ==>
                  && r.Ok? && r.value.flows == db.flows && r.value.groups - {id} == db.groups - {id}
                  && id in r.value.groups && r.value.groups[id] == GroupDoc(Text.TrimSpace(name), 0, false))
  {
  }

  lemma RenamingGroup(db: Db, g: string, name: string)
    ensures var r := Groups.Perform(db, Groups.Rename(g, name));
            var named := Text.TrimSpace(name) != "";
            && (r == Err(SystemGroup) <==> g == TRASH || (named && g in db.groups && db.groups[g].system))
            && (r == Err(NameRequired) <==> g != TRASH && !named)
            && (r == Err(NotFound) <==> g != TRASH && named && g !in db.groups)
            && (r.Ok? <==> g != TRASH && named && g in db.groups && !db.groups[g].system)
            && (r.Ok? ==> r.value.flows == db.flows
                          && r.value.groups == db.groups[g := db.groups[g].(name := Text.TrimSpace(name))])
  {
  }

  lemma DroppingGroup(db: Db, g: string, now: string)
    ensures var r := Groups.Perform(db, Groups.DropGroup(g, now));
            && (r == Err(SystemGroup) <==> g == TRASH || (g in db.groups && db.groups[g].system))
            && (r == Err(NotFound) <==> g != TRASH && g !in db.groups)
            && (r.Ok? <==> g != TRASH && g in db.groups && !db.groups[g].system)
            && (r.Ok? ==>
                  && r.value.groups == db.groups - {g} && r.value.flows.Keys == db.flows.Keys
                  && forall f | f in db.flows ::
                       var d := db.flows[f];
                       var refers := g == d.groupId || g == d.previousGroupId;
                       r.value.flows[f] ==
                       d.(groupId := if g == d.groupId then "" else d.groupId,
                          previousGroupId := if g == d.previousGroupId then "" else d.previousGroupId,
                          updatedAt := if refers then now else d.updatedAt))
  {
  }

  /** Opening the store makes sure of the trash, a system group sorted last, and changes nothing else. */
  lemma OpeningMakesTrash(db: Db)
    ensures var db' := Opened(db);
            && Groups.Perform(db, Groups.Reopen) == Ok(db')
            && db'.flows == db.flows && db'.groups - {TRASH} == db.groups - {TRASH} && TRASH in db'.groups
            && (TRASH in db.groups ==> db' == db)
            && (TRASH !in db.groups ==> db'.groups[TRASH] == GroupDoc("垃圾箱", 100000, true))
  {
  }

  // ---- reading ----

  /** The history is listed live snapshot first, then from the newest archived entry to the oldest. */
  lemma ListedNewestFirst(d: FlowDoc, i: nat)
    ensures var live := if d.published.Some? then 1 else 0;
            && |Listing(d)| == live + |d.history|
            && (d.published.Some? ==>
                  Listing(d)[0] == HistEntry(d.publishedVersion, d.publishedNote, d.publishedAt, d.published.value))
            && (i < |d.history| ==> Listing(d)[live + i] == d.history[|d.history| - 1 - i])
  {
    hide Reversed;
    if i < |d.history| {
      PublishLog.ReversedAt(d.history, i);
    }
  }

  /**
   * The flag for unpublished changes is on for a draft that was never live, and for one whose fingerprint differs from
   * the live one's or cannot be compared with it.
   */
  lemma ChangesShown(d: FlowDoc, fingerprint: Dsl -> Option<string>)
    ensures UnpublishedChanges(d, fingerprint) <==>
            d.draft.Some? && (d.published.Some? ==>
              || fingerprint(d.draft.value).None? || fingerprint(d.published.value).None?
              || fingerprint(d.draft.value) != fingerprint(d.published.value))
  {
  }
}
