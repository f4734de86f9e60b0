/** Group references over every run of store operations. */
module Groups {
  import opened Prelude
  import opened FlowDsl
  import opened FlowDocs

  datatype StoreOp =
    | Save(owner: string, dsl: Dsl, now: string)
    | Edit(f: string, op: DocOp)
    | Move(f: string, g: string, now: string)
    | Trash(f: string, now: string)
    | Untrash(f: string, now: string)
    | AddGroup(name: string, id: string)
    | Rename(g: string, name: string)
    | DropGroup(g: string, now: string)
    | Reopen

  function Perform(db: Db, op: StoreOp): Result<Db> {
    match op
    case Save(owner, dsl, now) => SaveFlow(db, owner, dsl, now)
    case Edit(f, op) => OnFlow(db, f, op)
    case Move(f, g, now) => SetFlowGroup(db, f, g, now)
    case Trash(f, now) => SoftDelete(db, f, now)
    case Untrash(f, now) => Restore(db, f, now)
    case AddGroup(name, id) => CreateGroup(db, name, id)
    case Rename(g, name) => RenameGroup(db, g, name)
    case DropGroup(g, now) => DeleteGroup(db, g, now)
    case Reopen => Ok(Opened(db))
  }

  /** A refused operation leaves the store as it was. */
  function StoreStep(db: Db, op: StoreOp): Db {
    match Perform(db, op)
    case Ok(db') => db'
    case Err(_) => db
  }

  /** The library allocates group ids that are not in use. */
  predicate FreshIds(db: Db, op: StoreOp) {
    op.AddGroup? ==> op.id != "" && op.id !in db.groups
  }

  predicate RefsOk(d: FlowDoc, groups: set<string>) {
    && (d.groupId == "" || d.groupId in groups)
    && (d.previousGroupId == "" || d.previousGroupId in groups)
    && d.previousGroupId != TRASH
    && (d.groupId != TRASH ==> d.previousGroupId == "")
  }

  /** The trash exists, and no flow refers to a group that does not. */
  ghost predicate GroupsOk(db: Db) {
    && TRASH in db.groups
    && "" !in db.groups
    && forall f | f in db.flows :: RefsOk(db.flows[f], db.groups.Keys)
  }

  lemma DocKeepsRefs(d: FlowDoc, op: DocOp, groups: set<string>)
    requires RefsOk(d, groups) && OnDoc(d, op).Ok?
    ensures RefsOk(OnDoc(d, op).value, groups)
  {
    hide Capped, Oldest, WithoutVersion;
  }

  lemma StepKeepsGroups(db: Db, op: StoreOp)
    requires GroupsOk(db) && FreshIds(db, op)
    ensures GroupsOk(StoreStep(db, op))
  {
    hide OnDoc, Capped;
    if Perform(db, op).Ok? {
      match op
      case Edit(f, docOp) => DocKeepsRefs(db.flows[f], docOp, db.groups.Keys);
      case Save(owner, dsl, now) =>
        if dsl.id in db.flows {
          DocKeepsRefs(db.flows[dsl.id], SaveDraft(dsl, now), db.groups.Keys);
        }
      case Trash(f, now) => assert RefsOk(db.flows[f], db.groups.Keys);
      case DropGroup(g, now) =>
        forall f | f in db.flows
          ensures RefsOk(ClearPrevious(ClearGroup(db.flows[f], g, now), g, now), db.groups.Keys - {g}) {
          assert RefsOk(db.flows[f], db.groups.Keys);
        }
      case _ =>
    }
  }

  predicate AllFresh(db: Db, ops: seq<StoreOp>)
    decreases |ops|
  {
    ops != [] ==> FreshIds(db, ops[0]) && AllFresh(StoreStep(db, ops[0]), ops[1..])
  }

  function StoreRun(db: Db, ops: seq<StoreOp>): Db
    decreases |ops|
  {
    if ops == [] then db else StoreRun(StoreStep(db, ops[0]), ops[1..])
  }

  /** In every reachable state group references point at existing groups. */
  lemma {:induction false} GroupsOverRuns(db: Db, ops: seq<StoreOp>)
    requires GroupsOk(db) && AllFresh(db, ops)
    ensures GroupsOk(StoreRun(db, ops))
    decreases |ops|
  {
    if ops != [] {
      StepKeepsGroups(db, ops[0]);
      GroupsOverRuns(StoreStep(db, ops[0]), ops[1..]);
    }
  }

  /** A freshly opened empty store satisfies the invariant. */
  lemma OpenedIsOk()
    ensures GroupsOk(Opened(Db(map[], map[])))
  {
  }

  /** Deleting a group loses no flow: its members become ungrouped, everything else about them stays. */
  lemma DeleteGroupKeepsFlows(db: Db, g: string, now: string, f: string)
    requires GroupsOk(db) && DeleteGroup(db, g, now).Ok? && f in db.flows
    ensures var db' := DeleteGroup(db, g, now).value;
            && db'.flows.Keys == db.flows.Keys && db'.groups.Keys == db.groups.Keys - {g}
            && var d, d' := db.flows[f], db'.flows[f];
               && d'.groupId == (if d.groupId == g then "" else d.groupId)
               && d'.previousGroupId == (if d.previousGroupId == g then "" else d.previousGroupId)
               && (d.groupId != g && d.previousGroupId != g ==> d' == d)
               && d' == d.(groupId := d'.groupId, previousGroupId := d'.previousGroupId, updatedAt := d'.updatedAt)
  {
  }
}
