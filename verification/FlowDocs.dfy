/**
 * Flow and group documents, and what each store operation does to them.
 *
 * A document field that holds DSL JSON is modelled by the DSL itself, and an empty field by `None`.
 * Timestamps are whatever the clock reads, so each operation takes its reading as a parameter.
 */
module FlowDocs {
  import opened Prelude
  import opened FlowDsl
  import Text

  const MAX_PUBLISH_HISTORY := 20
  const TRASH := "__trash__"
  const TRASH_SORT := 100000

  datatype HistEntry = HistEntry(version: int, note: string, publishedAt: string, dsl: Dsl)

  datatype FlowDoc = FlowDoc(
    name: string, ownerId: string, groupId: string, previousGroupId: string,
    locked: bool, lockHash: string,
    draft: Option<Dsl>,
    published: Option<Dsl>, publishedAt: string, publishedNote: string, publishedVersion: int,
    history: seq<HistEntry>,
    createdAt: string, updatedAt: string)

  datatype GroupDoc = GroupDoc(name: string, sort: int, system: bool)

  datatype Db = Db(flows: map<string, FlowDoc>, groups: map<string, GroupDoc>)

  datatype Error =
    | NotFound | FlowLocked | DraftEmpty | NoPublished | HistoryNotFound | CannotDeleteLive
    | NoPublishHistory | AlreadyOnline | NotInTrash | CannotMoveToTrash | MustRestoreFromTrash
    | SystemGroup | UnlockFailed | IdRequired | NameRequired

  datatype Result<+T> = Ok(value: T) | Err(error: Error)

  // ---- publish history ----

  function Capped(hist: seq<HistEntry>): seq<HistEntry> {
    if |hist| > MAX_PUBLISH_HISTORY then hist[|hist| - MAX_PUBLISH_HISTORY..] else hist
  }

  /** The live snapshot as a history entry. */
  function Archive(d: FlowDoc, note: string): HistEntry
    requires d.published.Some?
  {
    HistEntry(d.publishedVersion, note, d.publishedAt, d.published.value)
  }

  /** The first entry, oldest first, that carries a version. */
  function Oldest(hist: seq<HistEntry>, version: int): Option<HistEntry> {
    if hist == [] then None
    else if hist[0].version == version then Some(hist[0])
    else Oldest(hist[1..], version)
  }

  function WithoutVersion(hist: seq<HistEntry>, version: int): seq<HistEntry> {
    if hist == [] then []
    else (if hist[0].version == version then [] else [hist[0]]) + WithoutVersion(hist[1..], version)
  }

  // ---- operations on one document ----

  datatype DocOp =
    | SaveDraft(dsl: Dsl, now: string)
    | Publish(note: string, now: string)
    | Rollback(version: int, now: string)
    | Offline(now: string)
    | Online(now: string)
    | DeleteVersion(version: int, now: string)
    | Discard(now: string)
    | SetLocked(locked: bool, password: string, hash: string, now: string)

  function OnDoc(d: FlowDoc, op: DocOp): Result<FlowDoc> {
    match op
    case SaveDraft(dsl, now) => OnSave(d, dsl, now)
    case Publish(note, now) => OnPublish(d, note, now)
    case Rollback(version, now) => OnRollback(d, version, now)
    case Offline(now) => OnOffline(d, now)
    case Online(now) => OnOnline(d, now)
    case DeleteVersion(version, now) => OnDeleteVersion(d, version, now)
    case Discard(now) => OnDiscard(d, now)
    case SetLocked(locked, password, hash, now) => OnSetLocked(d, locked, password, hash, now)
  }

  function NewDoc(owner: string, dsl: Dsl, now: string): FlowDoc {
    FlowDoc(dsl.name, owner, "", "", false, "", Some(dsl), None, "", "", 0, [], now, now)
  }

  function OnSave(d: FlowDoc, dsl: Dsl, now: string): Result<FlowDoc> {
    if d.locked then Err(FlowLocked) else Ok(d.(name := dsl.name, draft := Some(dsl), updatedAt := now))
  }

  /** The draft goes live; the snapshot it replaces is archived without its note. */
  function OnPublish(d: FlowDoc, note: string, now: string): Result<FlowDoc> {
    if d.locked then Err(FlowLocked)
    else if d.draft.None? then Err(DraftEmpty)
    else
      Ok(d.(name := d.draft.value.name,
            published := d.draft, publishedAt := now, publishedNote := Text.TrimSpace(note),
            publishedVersion := d.publishedVersion + 1,
            history := if d.published.Some? then Capped(d.history + [Archive(d, "")]) else d.history,
            updatedAt := now))
  }

  function OnRollback(d: FlowDoc, version: int, now: string): Result<FlowDoc> {
    if d.locked then Err(FlowLocked)
    else if version == d.publishedVersion then Ok(d)
    else
      match Oldest(d.history, version)
      case None => Err(HistoryNotFound)
      case Some(e) =>
        var note := Text.TrimSpace(e.note);
        Ok(d.(published := Some(e.dsl), publishedAt := now,
              publishedNote := if note == "" then "rollback" else note,
              publishedVersion := d.publishedVersion + 1,
              history := if d.published.Some? && d.publishedVersion > 0
                         then Capped(d.history + [Archive(d, d.publishedNote)]) else d.history,
              updatedAt := now))
  }

  function OnOffline(d: FlowDoc, now: string): Result<FlowDoc> {
    if d.locked then Err(FlowLocked)
    else if d.published.None? then Err(NoPublished)
    else
      Ok(d.(published := None, publishedAt := "", publishedNote := "", publishedVersion := 0,
            history := Capped(d.history + [Archive(d, d.publishedNote)]),
            updatedAt := now))
  }

  function OnOnline(d: FlowDoc, now: string): Result<FlowDoc> {
    if d.locked then Err(FlowLocked)
    else if d.published.Some? then Err(AlreadyOnline)
    else if d.history == [] then Err(NoPublishHistory)
    else
      var last := d.history[|d.history| - 1];
      Ok(d.(published := Some(last.dsl),
            publishedAt := if last.publishedAt == "" then now else last.publishedAt,
            publishedNote := last.note, publishedVersion := last.version,
            history := d.history[..|d.history| - 1],
            updatedAt := now))
  }

  function OnDeleteVersion(d: FlowDoc, version: int, now: string): Result<FlowDoc> {
    if d.locked then Err(FlowLocked)
    else if version <= 0 then Err(HistoryNotFound)
    else if version == d.publishedVersion then Err(CannotDeleteLive)
    else if Oldest(d.history, version).None? then Err(HistoryNotFound)
    else Ok(d.(history := WithoutVersion(d.history, version), updatedAt := now))
  }

  function OnDiscard(d: FlowDoc, now: string): Result<FlowDoc> {
    if d.locked then Err(FlowLocked)
    else if d.published.None? then Err(NoPublished)
    else Ok(d.(name := d.published.value.name, draft := d.published, updatedAt := now))
  }

  /** `hash` is the digest of `password`; the empty password has the empty digest. */
  function OnSetLocked(d: FlowDoc, locked: bool, password: string, hash: string, now: string): Result<FlowDoc> {
    var digest := if password == "" then "" else hash;
    if locked then Ok(d.(locked := true, lockHash := digest, updatedAt := now))
    else if d.lockHash != "" && d.lockHash != digest then Err(UnlockFailed)
    else Ok(d.(locked := false, lockHash := "", updatedAt := now))
  }

  // ---- operations on the store ----

  function OnFlow(db: Db, f: string, op: DocOp): Result<Db> {
    if f !in db.flows then Err(NotFound)
    else
      match OnDoc(db.flows[f], op)
      case Err(e) => Err(e)
      case Ok(d) => Ok(db.(flows := db.flows[f := d]))
  }

  function SaveFlow(db: Db, owner: string, dsl: Dsl, now: string): Result<Db> {
    if dsl.id == "" then Err(IdRequired)
    else if dsl.id !in db.flows then Ok(db.(flows := db.flows[dsl.id := NewDoc(owner, dsl, now)]))
    else OnFlow(db, dsl.id, SaveDraft(dsl, now))
  }

  function SetFlowGroup(db: Db, f: string, g: string, now: string): Result<Db> {
    if g == TRASH then Err(CannotMoveToTrash)
    else if f !in db.flows then Err(NotFound)
    else if db.flows[f].groupId == TRASH then Err(MustRestoreFromTrash)
    else if g != "" && g !in db.groups then Err(NotFound)
    else Ok(db.(flows := db.flows[f := db.flows[f].(groupId := g, updatedAt := now)]))
  }

  /** Outside the trash: take offline and move in. Inside: delete for good. */
  function SoftDelete(db: Db, f: string, now: string): Result<Db> {
    if f !in db.flows then Err(NotFound)
    else
      var d := db.flows[f];
      if d.locked then Err(FlowLocked)
      else if d.groupId == TRASH then Ok(db.(flows := db.flows - {f}))
      else
        var d1 := if d.published.Some? then OnOffline(d, now).value else d;
        Ok(db.(flows := db.flows[f := d1.(groupId := TRASH, previousGroupId := d.groupId, updatedAt := now)]))
  }

  function Restore(db: Db, f: string, now: string): Result<Db> {
    if f !in db.flows then Err(NotFound)
    else
      var d := db.flows[f];
      if d.locked then Err(FlowLocked)
      else if d.groupId != TRASH then Err(NotInTrash)
      else
        var prev := if d.previousGroupId != TRASH && d.previousGroupId in db.groups then d.previousGroupId else "";
        Ok(db.(flows := db.flows[f := d.(groupId := prev, previousGroupId := "", updatedAt := now)]))
  }

  /** `id` is the fresh id that the library allocates. */
  function CreateGroup(db: Db, name: string, id: string): Result<Db> {
    var trimmed := Text.TrimSpace(name);
    if trimmed == "" then Err(NameRequired)
    else Ok(db.(groups := db.groups[id := GroupDoc(trimmed, 0, false)]))
  }

  function RenameGroup(db: Db, g: string, name: string): Result<Db> {
    var trimmed := Text.TrimSpace(name);
    if g == TRASH then Err(SystemGroup)
    else if trimmed == "" then Err(NameRequired)
    else if g !in db.groups then Err(NotFound)
    else if db.groups[g].system then Err(SystemGroup)
    else Ok(db.(groups := db.groups[g := db.groups[g].(name := trimmed)]))
  }

  function ClearGroup(d: FlowDoc, g: string, now: string): FlowDoc {
    if d.groupId == g then d.(groupId := "", updatedAt := now) else d
  }

  function ClearPrevious(d: FlowDoc, g: string, now: string): FlowDoc {
    if d.previousGroupId == g then d.(previousGroupId := "", updatedAt := now) else d
  }

  function DeleteGroup(db: Db, g: string, now: string): Result<Db> {
    if g == TRASH then Err(SystemGroup)
    else if g !in db.groups then Err(NotFound)
    else if db.groups[g].system then Err(SystemGroup)
    else
      Ok(Db(map f | f in db.flows :: ClearPrevious(ClearGroup(db.flows[f], g, now), g, now), db.groups - {g}))
  }

  /** Opening the store creates the trash group if it is missing. */
  function Opened(db: Db): Db {
    if TRASH in db.groups then db else db.(groups := db.groups[TRASH := GroupDoc("垃圾箱", TRASH_SORT, true)])
  }

  // ---- reading the history ----

  /** The order in which the history is listed: live snapshot, then newest archived first. */
  function Listing(d: FlowDoc): seq<HistEntry> {
    (if d.published.Some? then [Archive(d, d.publishedNote)] else []) + Reversed(d.history)
  }

  function Reversed(hist: seq<HistEntry>): (r: seq<HistEntry>)
    ensures |r| == |hist|
  {
    if hist == [] then [] else [hist[|hist| - 1]] + Reversed(hist[..|hist| - 1])
  }

  function PeekLatest(d: FlowDoc): Option<Dsl> {
    if d.history == [] then None else Some(d.history[|d.history| - 1].dsl)
  }

  /** `fingerprint` is the engine's digest of a DSL, `None` when it cannot be computed. */
  predicate UnpublishedChanges(d: FlowDoc, fingerprint: Dsl -> Option<string>) {
    if d.published.None? then d.draft.Some?
    else if d.draft.None? then false
    else
      var a, b := fingerprint(d.draft.value), fingerprint(d.published.value);
      a.None? || b.None? || a != b
  }
}
