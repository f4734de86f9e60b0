/**
 * The flow store as it is written: collections of documents updated in place, one document per
 * call. Every method is proved against the operation of the same name on the stored values.
 */
module FlowStore {
  import opened Prelude
  import opened FlowDsl
  import opened FlowDocs
  import PublishLog
  import Text

  class Store {
    var flows: map<string, FlowDoc>
    var groups: map<string, GroupDoc>

    constructor Open(flows: map<string, FlowDoc>, groups: map<string, GroupDoc>)
      ensures Contents() == Opened(Db(flows, groups))
    {
      this.flows, this.groups := flows, groups;
      new;
      EnsureTrashGroup();
    }

    function Contents(): Db
      reads this
    {
      Db(flows, groups)
    }

    method EnsureTrashGroup()
      modifies `groups
      ensures Contents() == Opened(old(Contents()))
    {
      if TRASH !in groups {
        groups := groups[TRASH := GroupDoc("垃圾箱", TRASH_SORT, true)];
      }
    }

    method GetFlow(f: string) returns (r: Result<FlowDoc>)
      ensures r == if f in flows then Ok(flows[f]) else Err(NotFound)
    {
      if f in flows {
        return Ok(flows[f]);
      }
      return Err(NotFound);
    }

    /** Outcome of an operation on one document, as the stored values say it must be. */
    ghost predicate Performed(before: Db, f: string, op: DocOp, r: Result<FlowDoc>)
      reads this
    {
      match OnFlow(before, f, op)
      case Err(e) => r == Err(e) && Contents() == before
      case Ok(db) => Contents() == db && f in db.flows && r == Ok(db.flows[f])
    }

    method SaveFlow(owner: string, dsl: Dsl, now: string) returns (r: Result<FlowDoc>)
      modifies `flows
      ensures match FlowDocs.SaveFlow(old(Contents()), owner, dsl, now)
              case Err(e) => r == Err(e) && Contents() == old(Contents())
              case Ok(db) => Contents() == db && dsl.id in db.flows && r == Ok(db.flows[dsl.id])
    {
      if dsl.id == "" {
        return Err(IdRequired);
      }
      if dsl.id !in flows {
        flows := flows[dsl.id := NewDoc(owner, dsl, now)];
      } else {
        var doc := flows[dsl.id];
        if doc.locked {
          return Err(FlowLocked);
        }
        flows := flows[dsl.id := doc.(name := dsl.name, draft := Some(dsl), updatedAt := now)];
      }
      return Ok(flows[dsl.id]);
    }

    method PublishFlow(f: string, note: string, now: string) returns (r: Result<FlowDoc>)
      modifies `flows
      ensures Performed(old(Contents()), f, Publish(note, now), r)
    {
      if f !in flows {
        return Err(NotFound);
      }
      var doc := flows[f];
      if doc.locked {
        return Err(FlowLocked);
      }
      if doc.draft.None? {
        return Err(DraftEmpty);
      }
      var hist := doc.history;
      if doc.published.Some? {
        hist := hist + [HistEntry(doc.publishedVersion, "", doc.publishedAt, doc.published.value)];
        if |hist| > MAX_PUBLISH_HISTORY {
          hist := hist[|hist| - MAX_PUBLISH_HISTORY..];
        }
      }
      doc := doc.(name := doc.draft.value.name, published := doc.draft, publishedAt := now,
                  publishedVersion := doc.publishedVersion + 1, history := hist, updatedAt := now);
      flows := flows[f := doc];
      flows := flows[f := doc.(publishedNote := Text.TrimSpace(note))];
      return Ok(flows[f]);
    }

    method DiscardDraft(f: string, now: string) returns (r: Result<FlowDoc>)
      modifies `flows
      ensures Performed(old(Contents()), f, Discard(now), r)
    {
      if f !in flows {
        return Err(NotFound);
      }
      var doc := flows[f];
      if doc.locked {
        return Err(FlowLocked);
      }
      if doc.published.None? {
        return Err(NoPublished);
      }
      flows := flows[f := doc.(name := doc.published.value.name, draft := doc.published, updatedAt := now)];
      return Ok(flows[f]);
    }

    /** Scan the history from its oldest entry. */
    method FindVersion(hist: seq<HistEntry>, version: int) returns (e: Option<HistEntry>)
      ensures e == Oldest(hist, version)
    {
      var i := 0;
      assert hist[0..] == hist;
      while i < |hist|
        invariant 0 <= i <= |hist|
        invariant Oldest(hist, version) == Oldest(hist[i..], version)
      {
        assert hist[i..][0] == hist[i] && hist[i..][1..] == hist[i + 1..];
        if hist[i].version == version {
          return Some(hist[i]);
        }
        i := i + 1;
      }
      return None;
    }

    method RollbackPublish(f: string, version: int, now: string) returns (r: Result<FlowDoc>)
      modifies `flows
      ensures Performed(old(Contents()), f, Rollback(version, now), r)
    {
      if f !in flows {
        return Err(NotFound);
      }
      var doc := flows[f];
      if doc.locked {
        return Err(FlowLocked);
      }
      if version == doc.publishedVersion {
        assert flows[f := doc] == flows;
        return Ok(doc);
      }
      var target := FindVersion(doc.history, version);
      if target.None? {
        return Err(HistoryNotFound);
      }
      var hist := doc.history;
      if doc.published.Some? && doc.publishedVersion > 0 {
        hist := hist + [HistEntry(doc.publishedVersion, doc.publishedNote, doc.publishedAt, doc.published.value)];
        if |hist| > MAX_PUBLISH_HISTORY {
          hist := hist[|hist| - MAX_PUBLISH_HISTORY..];
        }
      }
      var note := Text.TrimSpace(target.value.note);
      if note == "" {
        note := "rollback";
      }
      flows := flows[f := doc.(published := Some(target.value.dsl), publishedAt := now,
                               publishedVersion := doc.publishedVersion + 1, publishedNote := note,
                               history := hist, updatedAt := now)];
      return Ok(flows[f]);
    }

    /** Copy a history without the entries of one version, and say whether there were any. */
    method DropVersion(hist: seq<HistEntry>, version: int) returns (next: seq<HistEntry>, found: bool)
      ensures next == WithoutVersion(hist, version)
      ensures found <==> Oldest(hist, version).Some?
    {
      next, found := [], false;
      var i := 0;
      assert hist[..0] == [];
      while i < |hist|
        invariant 0 <= i <= |hist|
        invariant next == WithoutVersion(hist[..i], version)
        invariant found <==> exists j :: 0 <= j < i && hist[j].version == version
      {
        assert hist[..i + 1] == hist[..i] + [hist[i]];
        PublishLog.WithoutVersionSplits(hist[..i], [hist[i]], version);
        if hist[i].version == version {
          found := true;
        } else {
          next := next + [hist[i]];
        }
        i := i + 1;
      }
      assert hist[..i] == hist;
      PublishLog.OldestIs(hist, version);
    }

    method DeletePublishHistory(f: string, version: int, now: string) returns (r: Result<FlowDoc>)
      modifies `flows
      ensures Performed(old(Contents()), f, DeleteVersion(version, now), r)
    {
      if f !in flows {
        return Err(NotFound);
      }
      var doc := flows[f];
      if doc.locked {
        return Err(FlowLocked);
      }
      if version <= 0 {
        return Err(HistoryNotFound);
      }
      if version == doc.publishedVersion {
        return Err(CannotDeleteLive);
      }
      var hist := doc.history;
      var next, found := DropVersion(hist, version);
      if !found {
        return Err(HistoryNotFound);
      }
      flows := flows[f := doc.(history := next, updatedAt := now)];
      return Ok(flows[f]);
    }

    method UnpublishFlow(f: string, now: string) returns (r: Result<FlowDoc>)
      modifies `flows
      ensures Performed(old(Contents()), f, Offline(now), r)
    {
      if f !in flows {
        return Err(NotFound);
      }
      var doc := flows[f];
      if doc.locked {
        return Err(FlowLocked);
      }
      if doc.published.None? {
        return Err(NoPublished);
      }
      var archived := HistEntry(doc.publishedVersion, doc.publishedNote, doc.publishedAt, doc.published.value);
      var hist := doc.history + [archived];
      if |hist| > MAX_PUBLISH_HISTORY {
        hist := hist[|hist| - MAX_PUBLISH_HISTORY..];
      }
      flows := flows[f := doc.(published := None, publishedAt := "", publishedNote := "",
                               publishedVersion := 0, history := hist, updatedAt := now)];
      return Ok(flows[f]);
    }

    method GoOnlineFromLatest(f: string, now: string) returns (r: Result<FlowDoc>)
      modifies `flows
      ensures Performed(old(Contents()), f, Online(now), r)
    {
      if f !in flows {
        return Err(NotFound);
      }
      var doc := flows[f];
      if doc.locked {
        return Err(FlowLocked);
      }
      if doc.published.Some? {
        return Err(AlreadyOnline);
      }
      if doc.history == [] {
        return Err(NoPublishHistory);
      }
      var last := doc.history[|doc.history| - 1];
      var pubAt := last.publishedAt;
      if pubAt == "" {
        pubAt := now;
      }
      flows := flows[f := doc.(published := Some(last.dsl), publishedAt := pubAt, publishedNote := last.note,
                               publishedVersion := last.version, history := doc.history[..|doc.history| - 1],
                               updatedAt := now)];
      return Ok(flows[f]);
    }

    /** What `GoOnlineFromLatest` would make live, without doing it. */
    method PeekLatestPublishDSL(f: string) returns (r: Result<Dsl>)
      ensures r == if f !in flows then Err(NotFound)
                   else match PeekLatest(flows[f]) case None => Err(NoPublishHistory) case Some(dsl) => Ok(dsl)
    {
      if f !in flows {
        return Err(NotFound);
      }
      var hist := flows[f].history;
      if hist == [] {
        return Err(NoPublishHistory);
      }
      return Ok(hist[|hist| - 1].dsl);
    }

    /** The live snapshot first, then the archived ones from newest to oldest. */
    method ListPublishHistory(f: string) returns (r: Result<seq<HistEntry>>)
      ensures r == if f in flows then Ok(Listing(flows[f])) else Err(NotFound)
    {
      if f !in flows {
        return Err(NotFound);
      }
      var doc := flows[f];
      var out: seq<HistEntry> := [];
      if doc.published.Some? {
        out := [HistEntry(doc.publishedVersion, doc.publishedNote, doc.publishedAt, doc.published.value)];
      }
      var i := |doc.history|;
      assert doc.history[..i] == doc.history;
      while i > 0
        invariant 0 <= i <= |doc.history|
        invariant out + Reversed(doc.history[..i]) == Listing(doc)
      {
        assert doc.history[..i][..i - 1] == doc.history[..i - 1];
        i := i - 1;
        out := out + [doc.history[i]];
      }
      assert out == Listing(doc);
      return Ok(out);
    }

    method SoftDeleteOrPurgeFlow(f: string, now: string) returns (r: Result<bool>, wasPublished: bool)
      modifies `flows
      ensures match SoftDelete(old(Contents()), f, now)
              case Err(e) => r == Err(e) && Contents() == old(Contents())
              case Ok(db) => Contents() == db && r == Ok(f !in db.flows)
      ensures r.Ok? ==> wasPublished == (f in flows && old(flows)[f].published.Some?)
    {
      wasPublished := false;
      if f !in flows {
        return Err(NotFound), false;
      }
      var rec := flows[f];
      if rec.locked {
        return Err(FlowLocked), false;
      }
      if rec.groupId == TRASH {
        flows := flows - {f};
        return Ok(true), false;
      }
      wasPublished := rec.published.Some?;
      if wasPublished {
        var offline := UnpublishFlow(f, now);
      }
      flows := flows[f := flows[f].(groupId := TRASH, previousGroupId := rec.groupId, updatedAt := now)];
      return Ok(false), wasPublished;
    }

    method RestoreFlow(f: string, now: string) returns (r: Result<FlowDoc>)
      modifies `flows
      ensures match Restore(old(Contents()), f, now)
              case Err(e) => r == Err(e) && Contents() == old(Contents())
              case Ok(db) => Contents() == db && f in db.flows && r == Ok(db.flows[f])
    {
      if f !in flows {
        return Err(NotFound);
      }
      var rec := flows[f];
      if rec.locked {
        return Err(FlowLocked);
      }
      if rec.groupId != TRASH {
        return Err(NotInTrash);
      }
      var prev := rec.previousGroupId;
      if prev == TRASH {
        prev := "";
      }
      if prev != "" && prev !in groups {
        prev := "";
      }
      flows := flows[f := rec.(groupId := prev, previousGroupId := "", updatedAt := now)];
      return Ok(flows[f]);
    }

    method SetFlowGroup(f: string, g: string, now: string) returns (r: Result<FlowDoc>)
      modifies `flows
      ensures match FlowDocs.SetFlowGroup(old(Contents()), f, g, now)
              case Err(e) => r == Err(e) && Contents() == old(Contents())
              case Ok(db) => Contents() == db && f in db.flows && r == Ok(db.flows[f])
    {
      if g == TRASH {
        return Err(CannotMoveToTrash);
      }
      if f !in flows {
        return Err(NotFound);
      }
      if flows[f].groupId == TRASH {
        return Err(MustRestoreFromTrash);
      }
      if g != "" && g !in groups {
        return Err(NotFound);
      }
      flows := flows[f := flows[f].(groupId := g, updatedAt := now)];
      return Ok(flows[f]);
    }

    method SetFlowLocked(f: string, locked: bool, password: string, hash: string, now: string)
      returns (r: Result<FlowDoc>)
      modifies `flows
      ensures Performed(old(Contents()), f, SetLocked(locked, password, hash, now), r)
    {
      if f !in flows {
        return Err(NotFound);
      }
      var doc := flows[f];
      var digest := if password == "" then "" else hash;
      if locked {
        flows := flows[f := doc.(locked := true, lockHash := digest, updatedAt := now)];
        return Ok(flows[f]);
      }
      if doc.lockHash != "" && doc.lockHash != digest {
        return Err(UnlockFailed);
      }
      flows := flows[f := doc.(locked := false, lockHash := "", updatedAt := now)];
      return Ok(flows[f]);
    }

    method CreateGroup(name: string, id: string) returns (r: Result<string>)
      modifies `groups
      ensures match FlowDocs.CreateGroup(old(Contents()), name, id)
              case Err(e) => r == Err(e) && Contents() == old(Contents())
              case Ok(db) => Contents() == db && r == Ok(id)
    {
      var trimmed := Text.TrimSpace(name);
      if trimmed == "" {
        return Err(NameRequired);
      }
      groups := groups[id := GroupDoc(trimmed, 0, false)];
      return Ok(id);
    }

    /** Ungroup every flow of a group, one document at a time. */
    method ClearFlowsGroup(g: string, now: string)
      modifies `flows
      ensures flows == map f | f in old(flows) :: ClearGroup(old(flows)[f], g, now)
    {
      var docs := set f | f in flows && flows[f].groupId == g;
      while docs != {}
        invariant docs <= flows.Keys
        invariant flows.Keys == old(flows).Keys
        invariant forall f | f in flows ::
          flows[f] == if f in docs then old(flows)[f] else ClearGroup(old(flows)[f], g, now)
        invariant forall f | f in docs :: old(flows)[f].groupId == g
        decreases docs
      {
        var f :| f in docs;
        flows := flows[f := flows[f].(groupId := "", updatedAt := now)];
        docs := docs - {f};
      }
    }

    /** Forget a group as the place to restore trashed flows to. */
    method ClearPreviousGroupRefs(g: string, now: string)
      modifies `flows
      ensures flows == map f | f in old(flows) :: ClearPrevious(old(flows)[f], g, now)
    {
      var docs := set f | f in flows && flows[f].previousGroupId == g;
      while docs != {}
        invariant docs <= flows.Keys
        invariant flows.Keys == old(flows).Keys
        invariant forall f | f in flows ::
          flows[f] == if f in docs then old(flows)[f] else ClearPrevious(old(flows)[f], g, now)
        invariant forall f | f in docs :: old(flows)[f].previousGroupId == g
        decreases docs
      {
        var f :| f in docs;
        flows := flows[f := flows[f].(previousGroupId := "", updatedAt := now)];
        docs := docs - {f};
      }
    }

    method DeleteGroup(g: string, now: string) returns (r: Result<()>)
      modifies this
      ensures match FlowDocs.DeleteGroup(old(Contents()), g, now)
              case Err(e) => r == Err(e) && Contents() == old(Contents())
              case Ok(db) => Contents() == db && r == Ok(())
    {
      if g == TRASH {
        return Err(SystemGroup);
      }
      if g !in groups {
        return Err(NotFound);
      }
      if groups[g].system {
        return Err(SystemGroup);
      }
      ClearFlowsGroup(g, now);
      ClearPreviousGroupRefs(g, now);
      groups := groups - {g};
      return Ok(());
    }
  }
}
