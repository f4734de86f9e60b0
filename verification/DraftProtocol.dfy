/**
 * Draft receivers that follow the editors: the concurrent protocol.
 *
 * Each call of `UpdateSessionOpenFlows`, `ReleaseSession` or `SyncDraftIfOpen` is a thread. The
 * session table changes in one step under its lock; removing a draft, registering one handle, reading
 * whether a flow is open and listing the mounted drafts are separate steps, and threads interleave
 * freely between them.
 */
module DraftProtocol {
  import opened Prelude

  /**
   * Where a call stands. A session call closes, then opens, then sweeps; a save only mounts.
   */
  datatype Thread =
    | Closing(toClose: seq<string>, toOpen: seq<string>)
    | Opening(toOpen: seq<string>)
    | Clearing(f: string, mount: bool, toOpen: seq<string>)
    | Mounting(f: string, toOpen: seq<string>)
    | Sweeping(ids: seq<string>)
    | Sweep(f: string, ids: seq<string>)
    | SaveBegun(f: string)
    | SaveClearing(f: string, mount: bool)
    | SaveMounting(f: string)

  /**
   * `sessions` maps an editor session to the flows it has open, and `drafts` a flow to the nodes that
   * have a draft handle. `late` is history: the flows for which a save registered a handle after the
   * last editor had closed them.
   */
  datatype State = State(sessions: map<string, set<string>>, drafts: map<string, set<string>>,
                         threads: map<nat, Thread>, late: set<string>)

  const Idle := State(map[], map[], map[], {})

  ghost predicate IsOpen(s: State, f: string) {
    exists sid :: sid in s.sessions && f in s.sessions[sid]
  }

  datatype Action =
    | BeginUpdate(t: nat, sid: string, wanted: set<string>, toClose: seq<string>, toOpen: seq<string>)
    | BeginRelease(t: nat, sid: string, toClose: seq<string>)
    | CloseNext(t: nat)
    | OpenNext(t: nat, found: bool, mountable: bool)
    | Clear(t: nat)
    | Mount(t: nat, node: string)
    | MountEnds(t: nat, failed: bool)
    | ListDrafts(t: nat, ids: seq<string>)
    | SweepNext(t: nat)
    | SweepRemove(t: nat)
    | Finish(t: nat)
    | BeginSave(t: nat, f: string)
    | SaveNext(t: nat, mountable: bool)
    | Unmount(f: string)

  function SessionsAfter(s: State, a: Action): map<string, set<string>> {
    match a
    case BeginUpdate(_, sid, wanted, _, _) => s.sessions[sid := wanted]
    case BeginRelease(_, sid, _) => s.sessions - {sid}
    case _ => s.sessions
  }

  /** The lists handed to a session call are the flows it really closed and opened. */
  ghost predicate ListsExact(s: State, a: Action)
    requires a.BeginUpdate? || a.BeginRelease?
  {
    var s' := s.(sessions := SessionsAfter(s, a));
    && (forall f :: f in a.toClose <==> IsOpen(s, f) && !IsOpen(s', f))
    && (a.BeginUpdate? ==> forall f :: f in a.toOpen <==> !IsOpen(s, f) && IsOpen(s', f))
  }

  ghost predicate Enabled(s: State, a: Action) {
    match a
    case BeginUpdate(t, sid, wanted, toClose, toOpen) => t !in s.threads && "" !in wanted && ListsExact(s, a)
    case BeginRelease(t, sid, toClose) => t !in s.threads && ListsExact(s, a)
    case CloseNext(t) => t in s.threads && s.threads[t].Closing?
    case OpenNext(t, _, _) => t in s.threads && s.threads[t].Opening? && s.threads[t].toOpen != []
    case Clear(t) => t in s.threads && (s.threads[t].Clearing? || s.threads[t].SaveClearing?)
    case Mount(t, _) => t in s.threads && (s.threads[t].Mounting? || s.threads[t].SaveMounting?)
    case MountEnds(t, _) => t in s.threads && (s.threads[t].Mounting? || s.threads[t].SaveMounting?)
    case ListDrafts(t, ids) =>
      && t in s.threads && s.threads[t] == Opening([])
      && forall f | f in s.drafts :: f in ids
    case SweepNext(t) => t in s.threads && s.threads[t].Sweeping? && s.threads[t].ids != []
    case SweepRemove(t) => t in s.threads && s.threads[t].Sweep?
    case Finish(t) => t in s.threads && s.threads[t] == Sweeping([])
    case BeginSave(t, f) => t !in s.threads
    case SaveNext(t, _) => t in s.threads && s.threads[t].SaveBegun?
    case Unmount(f) => true
  }

  function SetThread(s: State, t: nat, th: Thread): State {
    s.(threads := s.threads[t := th])
  }

  function EndThread(s: State, t: nat): State {
    s.(threads := s.threads - {t})
  }

  /** `RemoveDraft`: all of a flow's draft handles go at once. */
  function RemoveDraft(s: State, f: string): State {
    s.(drafts := s.drafts - {f}, late := s.late - {f})
  }

  function AddHandle(s: State, f: string, node: string): State {
    s.(drafts := s.drafts[f := (if f in s.drafts then s.drafts[f] else {}) + {node}])
  }

  ghost function Step(s: State, a: Action): State
    requires Enabled(s, a)
  {
    match a
    case BeginUpdate(t, sid, wanted, toClose, toOpen) =>
      SetThread(s.(sessions := SessionsAfter(s, a), late := s.late - Elements(toOpen)), t, Closing(toClose, toOpen))
    case BeginRelease(t, sid, toClose) =>
      SetThread(s.(sessions := SessionsAfter(s, a)), t, Closing(toClose, []))
    case CloseNext(t) =>
      var th := s.threads[t];
      if th.toClose == [] then SetThread(s, t, Opening(th.toOpen))
      else SetThread(RemoveDraft(s, th.toClose[0]), t, Closing(th.toClose[1..], th.toOpen))
    case OpenNext(t, found, mountable) =>
      var f, rest := s.threads[t].toOpen[0], s.threads[t].toOpen[1..];
      if !found then SetThread(s, t, Opening(rest))
      else SetThread(s, t, Clearing(f, IsOpen(s, f) && mountable, rest))
    case Clear(t) =>
      var th := s.threads[t];
      var s1 := RemoveDraft(s, th.f);
      if th.Clearing? then SetThread(s1, t, if th.mount then Mounting(th.f, th.toOpen) else Opening(th.toOpen))
      else if th.mount then SetThread(s1, t, SaveMounting(th.f)) else EndThread(s1, t)
    case Mount(t, node) =>
      var th := s.threads[t];
      var s1 := AddHandle(s, th.f, node);
      if th.SaveMounting? && !IsOpen(s, th.f) then s1.(late := s1.late + {th.f}) else s1
    case MountEnds(t, failed) =>
      var th := s.threads[t];
      if th.Mounting? then SetThread(s, t, if failed then Clearing(th.f, false, th.toOpen) else Opening(th.toOpen))
      else if failed then SetThread(s, t, SaveClearing(th.f, false)) else EndThread(s, t)
    case ListDrafts(t, ids) => SetThread(s, t, Sweeping(ids))
    case SweepNext(t) =>
      var ids := s.threads[t].ids;
      SetThread(s, t, if IsOpen(s, ids[0]) then Sweeping(ids[1..]) else Sweep(ids[0], ids[1..]))
    case SweepRemove(t) => SetThread(RemoveDraft(s, s.threads[t].f), t, Sweeping(s.threads[t].ids))
    case Finish(t) => EndThread(s, t)
    case BeginSave(t, f) => SetThread(s, t, SaveBegun(f))
    case SaveNext(t, mountable) =>
      var f := s.threads[t].f;
      SetThread(s, t, SaveClearing(f, IsOpen(s, f) && mountable))
    case Unmount(f) => RemoveDraft(s, f)
  }

  // ---- the invariant ----

  predicate IsSave(th: Thread) {
    th.SaveBegun? || th.SaveClearing? || th.SaveMounting?
  }

  /** A session call that has yet to look at a flow's draft, or is about to remove it. */
  predicate Watches(th: Thread, f: string) {
    match th
    case Sweeping(ids) => f in ids
    case Sweep(g, ids) => f == g || f in ids
    case _ => !IsSave(th)
  }

  ghost predicate Watched(s: State, f: string) {
    exists t :: t in s.threads && Watches(s.threads[t], f)
  }

  ghost predicate Orphan(s: State, f: string) {
    f in s.drafts && !IsOpen(s, f)
  }

  /** Every mounted draft of a closed flow is still watched, or was mounted late by a save. */
  ghost predicate Inv(s: State) {
    && (forall f | Orphan(s, f) :: Watched(s, f) || f in s.late)
    && (forall f | f in s.late :: Orphan(s, f))
  }

  lemma WatchedBy(s: State, t: nat, f: string)
    requires t in s.threads && Watches(s.threads[t], f)
    ensures Watched(s, f)
  {
  }

  /** A thread other than the one that moved watches what it watched. */
  lemma OthersWatch(s: State, s': State, t: int, f: string)
    requires Watched(s, f)
    requires forall u | u in s.threads && u != t :: u in s'.threads && s'.threads[u] == s.threads[u]
    requires t in s.threads && Watches(s.threads[t], f) ==> t in s'.threads && Watches(s'.threads[t], f)
    ensures Watched(s', f)
  {
    var u :| u in s.threads && Watches(s.threads[u], f);
    assert u in s'.threads && Watches(s'.threads[u], f);
  }

  lemma SessionStep(s: State, a: Action)
    requires Inv(s) && Enabled(s, a) && (a.BeginUpdate? || a.BeginRelease?)
    ensures Inv(Step(s, a))
  {
    var s' := Step(s, a);
    var mid := s.(sessions := SessionsAfter(s, a));
    forall f ensures IsOpen(s', f) <==> IsOpen(mid, f) {
      assert s'.sessions == mid.sessions;
    }
    forall f | Orphan(s', f) ensures Watched(s', f) {
      WatchedBy(s', a.t, f);
    }
    forall f | f in s'.late ensures Orphan(s', f) {
      assert Orphan(s, f);
      if a.BeginUpdate? {
        assert f !in a.toOpen;
      } else {
        ReleaseOpensNothing(s, a, f);
      }
    }
  }

  lemma ReleaseOpensNothing(s: State, a: Action, f: string)
    requires a.BeginRelease?
    ensures IsOpen(s.(sessions := SessionsAfter(s, a)), f) ==> IsOpen(s, f)
  {
    var mid := s.(sessions := SessionsAfter(s, a));
    assert forall sid | sid in mid.sessions :: sid in s.sessions && mid.sessions[sid] == s.sessions[sid];
  }

  /** A move that changes neither the drafts nor who is open, and watches at least as much. */
  lemma QuietStep(s: State, s': State, t: nat)
    requires Inv(s)
    requires s'.sessions == s.sessions && s'.drafts == s.drafts && s'.late == s.late
    requires forall u | u in s.threads && u != t :: u in s'.threads && s'.threads[u] == s.threads[u]
    requires forall f | t in s.threads && Watches(s.threads[t], f) && Orphan(s, f) ::
        t in s'.threads && Watches(s'.threads[t], f)
    ensures Inv(s')
  {
    forall f ensures Orphan(s', f) <==> Orphan(s, f) {
      assert IsOpen(s', f) <==> IsOpen(s, f);
    }
    forall f | Orphan(s', f) && f !in s'.late ensures Watched(s', f) {
      OthersWatch(s, s', t, f);
    }
  }

  /** A move that removes one flow's draft; the mover may stop watching that flow. */
  lemma RemovingStep(s: State, s': State, t: int, g: string)
    requires Inv(s)
    requires s'.sessions == s.sessions && s'.drafts == s.drafts - {g} && s'.late == s.late - {g}
    requires forall u | u in s.threads && u != t :: u in s'.threads && s'.threads[u] == s.threads[u]
    requires forall f | t in s.threads && Watches(s.threads[t], f) && f != g ::
        t in s'.threads && Watches(s'.threads[t], f)
    ensures Inv(s')
  {
    forall f ensures IsOpen(s', f) <==> IsOpen(s, f) {
    }
    forall f | Orphan(s', f) && f !in s'.late ensures Watched(s', f) {
      assert Orphan(s, f);
      OthersWatch(s, s', t, f);
    }
    forall f | f in s'.late ensures Orphan(s', f) {
      assert Orphan(s, f);
    }
  }

  lemma MountStep(s: State, a: Action)
    requires Inv(s) && Enabled(s, a) && a.Mount?
    ensures Inv(Step(s, a))
  {
    var s' := Step(s, a);
    var th := s.threads[a.t];
    forall f ensures IsOpen(s', f) <==> IsOpen(s, f) {
      assert s'.sessions == s.sessions;
    }
    forall f | Orphan(s', f) && f !in s'.late ensures Watched(s', f) {
      if f == th.f {
        WatchedBy(s', a.t, f);
      } else {
        assert Orphan(s, f);
        OthersWatch(s, s', a.t, f);
      }
    }
    forall f | f in s'.late ensures Orphan(s', f) {
      assert f in s.late ==> Orphan(s, f);
    }
  }

  lemma StepKeepsInv(s: State, a: Action)
    requires Inv(s) && Enabled(s, a)
    ensures Inv(Step(s, a))
  {
    hide Inv, IsOpen, ListsExact;
    var s' := Step(s, a);
    match a {
      case BeginUpdate(_, _, _, _, _) => SessionStep(s, a);
      case BeginRelease(_, _, _) => SessionStep(s, a);
      case Mount(_, _) => MountStep(s, a);
      case CloseNext(t) =>
        if s.threads[t].toClose == [] {
          QuietStep(s, s', t);
        } else {
          RemovingStep(s, s', t, s.threads[t].toClose[0]);
        }
      case Clear(t) => RemovingStep(s, s', t, s.threads[t].f);
      case SweepRemove(t) => RemovingStep(s, s', t, s.threads[t].f);
      case Unmount(f) => RemovingStep(s, s', -1, f);
      case _ => QuietStep(s, s', a.t);
    }
  }

  // ---- runs ----

  ghost predicate Run(s: State, actions: seq<Action>, s': State)
    decreases |actions|
  {
    if actions == [] then s == s'
    else Enabled(s, actions[0]) && Run(Step(s, actions[0]), actions[1..], s')
  }

  lemma {:induction false} RunKeepsInv(s: State, actions: seq<Action>, s': State)
    requires Inv(s) && Run(s, actions, s')
    ensures Inv(s')
    decreases |actions|
  {
    if actions != [] {
      StepKeepsInv(s, actions[0]);
      RunKeepsInv(Step(s, actions[0]), actions[1..], s');
    }
  }

  /** No session call is in flight. */
  ghost predicate SessionsQuiet(s: State) {
    forall t | t in s.threads :: IsSave(s.threads[t])
  }

  // ---- drafts and late saves, read off the actions of a run ----

  /** The action unmounts the flow's draft. */
  ghost predicate Removes(s: State, a: Action, f: string)
    requires Enabled(s, a)
  {
    match a
    case CloseNext(t) => s.threads[t].toClose != [] && s.threads[t].toClose[0] == f
    case Clear(t) => s.threads[t].f == f
    case SweepRemove(t) => s.threads[t].f == f
    case Unmount(g) => g == f
    case _ => false
  }

  ghost predicate Mounts(s: State, a: Action, f: string)
    requires Enabled(s, a)
  {
    a.Mount? && s.threads[a.t].f == f
  }

  /** A save registers a handle for a flow that nobody has open any more. */
  ghost predicate MountsLate(s: State, a: Action, f: string)
    requires Enabled(s, a)
  {
    Mounts(s, a, f) && s.threads[a.t].SaveMounting? && !IsOpen(s, f)
  }

  predicate Reopens(a: Action, f: string) {
    a.BeginUpdate? && f in a.toOpen
  }

  lemma DraftStep(s: State, a: Action, f: string)
    requires Enabled(s, a)
    ensures f in Step(s, a).drafts <==> Mounts(s, a, f) || (f in s.drafts && !Removes(s, a, f))
  {
  }

  lemma LateStep(s: State, a: Action, f: string)
    requires Enabled(s, a)
    ensures f in Step(s, a).late <==> MountsLate(s, a, f) || (f in s.late && !Removes(s, a, f) && !Reopens(a, f))
  {
  }

  ghost predicate NeverUndone(s: State, actions: seq<Action>, f: string)
    decreases |actions|
  {
    actions != [] && Enabled(s, actions[0]) ==>
      !Removes(s, actions[0], f) && !Reopens(actions[0], f) && NeverUndone(Step(s, actions[0]), actions[1..], f)
  }

  /** Some save mounts the flow's draft late, and afterwards nothing removes the draft and no editor opens the flow. */
  ghost predicate LateSaveStands(s: State, actions: seq<Action>, f: string)
    decreases |actions|
  {
    actions != [] && Enabled(s, actions[0]) &&
      ((MountsLate(s, actions[0], f) && NeverUndone(Step(s, actions[0]), actions[1..], f))
       || LateSaveStands(Step(s, actions[0]), actions[1..], f))
  }

  lemma {:induction false} LateExactly(s: State, actions: seq<Action>, s': State, f: string)
    requires Run(s, actions, s')
    ensures f in s'.late <==> (f in s.late && NeverUndone(s, actions, f)) || LateSaveStands(s, actions, f)
    decreases |actions|
  {
    hide Step, Enabled, MountsLate, Removes, Reopens;
    if actions != [] {
      LateStep(s, actions[0], f);
      LateExactly(Step(s, actions[0]), actions[1..], s', f);
    }
  }

  /**
   * Under every interleaving, once no session call is in flight the drafts mounted for closed flows are exactly those
   * that a save registered after the last editor had closed the flow, with neither a removal nor an opening since.
   */
  lemma OrphansAreLateSaves(actions: seq<Action>, s: State, f: string)
    requires Run(Idle, actions, s) && SessionsQuiet(s)
    ensures Orphan(s, f) <==> LateSaveStands(Idle, actions, f)
  {
    hide Run, LateSaveStands, NeverUndone;
    RunKeepsInv(Idle, actions, s);
    LateExactly(Idle, actions, s, f);
  }

  /** No save in the run registers a handle for a flow that is closed at that moment. */
  ghost predicate SavesInTime(s: State, actions: seq<Action>, s': State)
    requires Run(s, actions, s')
    decreases |actions|
  {
    actions != [] ==>
      && !(actions[0].Mount? && s.threads[actions[0].t].SaveMounting? && !IsOpen(s, s.threads[actions[0].t].f))
      && SavesInTime(Step(s, actions[0]), actions[1..], s')
  }

  lemma {:induction false} NoLate(s: State, actions: seq<Action>, s': State)
    requires Run(s, actions, s') && SavesInTime(s, actions, s') && s.late == {}
    ensures s'.late == {}
    decreases |actions|
  {
    if actions != [] {
      NoLate(Step(s, actions[0]), actions[1..], s');
    }
  }

  /**
   * Under every interleaving of session calls, and of saves that mount in time, every draft handle
   * that remains when no session call is in flight belongs to a flow that some editor has open.
   */
  lemma DraftsFollowEditors(actions: seq<Action>, s: State, f: string)
    requires Run(Idle, actions, s) && SavesInTime(Idle, actions, s) && SessionsQuiet(s)
    ensures f in s.drafts ==> IsOpen(s, f)
  {
    RunKeepsInv(Idle, actions, s);
    NoLate(Idle, actions, s);
    assert !Orphan(s, f);
  }

  predicate IsSaveAction(a: Action) {
    a.BeginSave? || a.SaveNext?
  }

  ghost predicate NoSaveThreads(s: State) {
    forall t | t in s.threads :: !IsSave(s.threads[t])
  }

  lemma {:induction false} SessionsOnlyInTime(s: State, actions: seq<Action>, s': State)
    requires Run(s, actions, s') && NoSaveThreads(s)
    requires forall i | 0 <= i < |actions| :: !IsSaveAction(actions[i])
    ensures SavesInTime(s, actions, s')
    decreases |actions|
  {
    if actions != [] {
      assert !IsSaveAction(actions[0]);
      assert NoSaveThreads(Step(s, actions[0]));
      SessionsOnlyInTime(Step(s, actions[0]), actions[1..], s');
    }
  }

  /** In particular this holds for session calls alone, whatever their interleaving. */
  lemma SessionCallsAlone(actions: seq<Action>, s: State, f: string)
    requires Run(Idle, actions, s) && SessionsQuiet(s)
    requires forall i | 0 <= i < |actions| :: !IsSaveAction(actions[i])
    ensures f in s.drafts ==> IsOpen(s, f)
  {
    SessionsOnlyInTime(Idle, actions, s);
    DraftsFollowEditors(actions, s, f);
  }

  // ---- an orphan lasts until the next session call ends ----

  /** A session call has yet to look at every draft that a save has mounted late. */
  ghost predicate SeesLate(s: State, t: nat) {
    forall f | f in s.late :: t in s.threads && Watches(s.threads[t], f)
  }

  lemma SeesLateStep(s: State, a: Action, t: nat)
    requires Inv(s) && Enabled(s, a) && SeesLate(s, t) && forall f :: !MountsLate(s, a, f)
    ensures SeesLate(Step(s, a), t)
  {
    hide IsOpen, ListsExact;
    var s' := Step(s, a);
    forall f | f in s'.late ensures t in s'.threads && Watches(s'.threads[t], f) {
      LateStep(s, a, f);
      assert Orphan(s, f);
      assert Watches(s.threads[t], f);
    }
  }

  lemma {:induction false} SeesLateRun(s: State, actions: seq<Action>, s': State, t: nat)
    requires Inv(s) && SeesLate(s, t) && Run(s, actions, s') && SavesInTime(s, actions, s')
    ensures SeesLate(s', t)
    decreases |actions|
  {
    hide Inv, Step, Enabled, SeesLate, IsOpen;
    if actions != [] {
      StepKeepsInv(s, actions[0]);
      SeesLateStep(s, actions[0], t);
      SeesLateRun(Step(s, actions[0]), actions[1..], s', t);
    }
  }

  /**
   * From any reachable state, once a session call that begins there has ended and none is in flight, no draft of a
   * closed flow is left, unless another save has come too late meanwhile.
   */
  lemma NextSessionCallSweeps(before: seq<Action>, s: State, begin: Action, after: seq<Action>, s': State, f: string)
    requires Run(Idle, before, s) && Enabled(s, begin) && (begin.BeginUpdate? || begin.BeginRelease?)
    requires Run(Step(s, begin), after, s') && SavesInTime(Step(s, begin), after, s') && SessionsQuiet(s')
    ensures !Orphan(s', f)
  {
    hide Run, Enabled, SavesInTime, IsOpen;
    RunKeepsInv(Idle, before, s);
    StepKeepsInv(s, begin);
    assert Watches(Step(s, begin).threads[begin.t], f);
    SeesLateRun(Step(s, begin), after, s', begin.t);
    RunKeepsInv(Step(s, begin), after, s');
  }

  // ---- two races, as concrete runs ----

  lemma OneStep(s: State, a: Action, s1: State, rest: seq<Action>, s': State)
    requires Enabled(s, a) && Step(s, a) == s1 && Run(s1, rest, s')
    ensures Run(s, [a] + rest, s')
  {
    hide Step, Enabled;
    assert ([a] + rest)[1..] == rest;
  }

  lemma {:induction false} RunCat(s: State, a: seq<Action>, m: State, b: seq<Action>, s': State)
    requires Run(s, a, m) && Run(m, b, s')
    ensures Run(s, a + b, s')
    decreases |a|
  {
    hide Step, Enabled;
    if a == [] {
      assert a + b == b;
    } else {
      RunCat(Step(s, a[0]), a[1..], m, b, s');
      assert a + b == [a[0]] + (a[1..] + b);
      OneStep(s, a[0], Step(s, a[0]), a[1..] + b, s');
    }
  }

  lemma Single(s: State, a: Action, s': State)
    requires Enabled(s, a) && Step(s, a) == s'
    ensures Run(s, [a], s')
  {
    hide Step, Enabled;
    assert Run(s', [], s');
    OneStep(s, a, s', [], s');
    assert [a] + [] == [a];
  }

  /** A session call with nothing left to open sweeps past the drafts of open flows and returns. */
  lemma Returns(s: State, t: nat) returns (actions: seq<Action>)
    requires t in s.threads && s.threads[t] == Opening([]) && s.drafts == map[]
    ensures Run(s, actions, EndThread(s, t))
  {
    hide Run, IsOpen;
    var s1 := SetThread(s, t, Sweeping([]));
    assert EndThread(s1, t) == EndThread(s, t);
    Single(s, ListDrafts(t, []), s1);
    Single(s1, Finish(t), EndThread(s, t));
    RunCat(s, [ListDrafts(t, [])], s1, [Finish(t)], EndThread(s, t));
    actions := [ListDrafts(t, [])] + [Finish(t)];
  }

  /** A session call removes the one draft it has to close. */
  lemma Closes(s: State, t: nat, f: string) returns (actions: seq<Action>)
    requires t in s.threads && s.threads[t] == Closing([f], [])
    ensures Run(s, actions, SetThread(RemoveDraft(s, f), t, Opening([])))
  {
    hide Run, IsOpen;
    var s1 := SetThread(RemoveDraft(s, f), t, Closing([], []));
    var s2 := SetThread(RemoveDraft(s, f), t, Opening([]));
    assert [f][1..] == [];
    Single(s, CloseNext(t), s1);
    assert SetThread(s1, t, Opening([])) == s2;
    Single(s1, CloseNext(t), s2);
    RunCat(s, [CloseNext(t)], s1, [CloseNext(t)], s2);
    actions := [CloseNext(t)] + [CloseNext(t)];
  }

  lemma OnlyOpener(s: State, sid: string, f: string)
    requires s.sessions == map[sid := {f}]
    ensures forall g :: IsOpen(s, g) <==> g == f
  {
    assert sid in s.sessions && f in s.sessions[sid];
  }

  /** An editor opens a flow that nobody has open. */
  lemma Opens(s: State, t: nat, sid: string, f: string)
    requires f != "" && t !in s.threads && s.late == {} && s.sessions.Keys <= {sid}
    requires forall g :: !IsOpen(s, g)
    ensures Run(s, [BeginUpdate(t, sid, {f}, [], [f])],
                SetThread(s.(sessions := map[sid := {f}]), t, Closing([], [f])))
  {
    hide Run;
    var begin := BeginUpdate(t, sid, {f}, [], [f]);
    var mid := s.(sessions := SessionsAfter(s, begin));
    assert mid.sessions == map[sid := {f}];
    OnlyOpener(mid, sid, f);
    Single(s, begin, SetThread(s.(sessions := map[sid := {f}]), t, Closing([], [f])));
  }

  /** The flow's only editor closes it. */
  lemma Leaves(s: State, t: nat, sid: string, f: string)
    requires t !in s.threads && s.sessions == map[sid := {f}]
    ensures Run(s, [BeginRelease(t, sid, [f])], SetThread(s.(sessions := map[]), t, Closing([f], [])))
  {
    hide Run;
    var release := BeginRelease(t, sid, [f]);
    assert SessionsAfter(s, release) == map[];
    OnlyOpener(s, sid, f);
    Single(s, release, SetThread(s.(sessions := map[]), t, Closing([f], [])));
  }

  /** Opening a flow that the store does not have yet mounts nothing. */
  lemma FindsNothing(s: State, t: nat, f: string) returns (actions: seq<Action>)
    requires t in s.threads && s.threads[t] == Closing([], [f])
    ensures Run(s, actions, SetThread(s, t, Opening([])))
  {
    hide Run, IsOpen;
    var s1 := SetThread(s, t, Opening([f]));
    var s2 := SetThread(s, t, Opening([]));
    assert [f][1..] == [] && SetThread(s1, t, Opening([])) == s2;
    Single(s, CloseNext(t), s1);
    Single(s1, OpenNext(t, false, false), s2);
    RunCat(s, [CloseNext(t)], s1, [OpenNext(t, false, false)], s2);
    actions := [CloseNext(t)] + [OpenNext(t, false, false)];
  }

  lemma SaveStarts(s: State, t: nat, f: string) returns (actions: seq<Action>)
    requires t !in s.threads && IsOpen(s, f)
    ensures Run(s, actions, SetThread(s, t, SaveClearing(f, true)))
  {
    hide Run, IsOpen;
    var s1 := SetThread(s, t, SaveBegun(f));
    var s2 := SetThread(s, t, SaveClearing(f, true));
    assert SetThread(s1, t, SaveClearing(f, true)) == s2;
    SameSessions(s, s1, f);
    Single(s, BeginSave(t, f), s1);
    Single(s1, SaveNext(t, true), s2);
    RunCat(s, [BeginSave(t, f)], s1, [SaveNext(t, true)], s2);
    actions := [BeginSave(t, f)] + [SaveNext(t, true)];
  }

  lemma SameSessions(s: State, s': State, f: string)
    requires s'.sessions == s.sessions
    ensures IsOpen(s', f) <==> IsOpen(s, f)
  {
  }

  lemma SaveMounts(f: string, node: string) returns (actions: seq<Action>)
    ensures Run(State(map[], map[], map[1 := SaveClearing(f, true)], {}), actions,
                State(map[], map[f := {node}], map[], {f}))
  {
    hide Run;
    var s0 := State(map[], map[], map[1 := SaveClearing(f, true)], {});
    var s1 := State(map[], map[], map[1 := SaveMounting(f)], {});
    var s2 := State(map[], map[f := {node}], map[1 := SaveMounting(f)], {f});
    var s3 := State(map[], map[f := {node}], map[], {f});
    assert {} + {node} == {node};
    assert !IsOpen(s1, f);
    Single(s0, Clear(1), s1);
    Single(s1, Mount(1, node), s2);
    Single(s2, MountEnds(1, false), s3);
    RunCat(s0, [Clear(1)], s1, [Mount(1, node)], s2);
    RunCat(s0, [Clear(1)] + [Mount(1, node)], s2, [MountEnds(1, false)], s3);
    actions := [Clear(1)] + [Mount(1, node)] + [MountEnds(1, false)];
  }

  /** An editor opens a flow, whose draft is not mounted yet. */
  lemma EditorOpens(sid: string, f: string) returns (actions: seq<Action>)
    requires f != ""
    ensures Run(Idle, actions, State(map[sid := {f}], map[], map[], {}))
  {
    hide Run, IsOpen, EndThread;
    var s1 := State(map[sid := {f}], map[], map[0 := Closing([], [f])], {});
    var s2 := State(map[sid := {f}], map[], map[0 := Opening([])], {});
    NobodyOpens(Idle);
    Opens(Idle, 0, sid, f);
    var b := FindsNothing(s1, 0, f);
    assert SetThread(s1, 0, Opening([])) == s2;
    var c := Returns(s2, 0);
    Ended(s2, 0, State(map[sid := {f}], map[], map[], {}));
    var a := [BeginUpdate(0, sid, {f}, [], [f])];
    RunCat(Idle, a, s1, b, s2);
    RunCat(Idle, a + b, s2, c, EndThread(s2, 0));
    actions := a + b + c;
  }

  lemma NobodyOpens(s: State)
    requires s.sessions == map[]
    ensures forall g :: !IsOpen(s, g)
  {
  }

  lemma Ended(s: State, t: nat, s': State)
    requires t in s.threads && s' == s.(threads := s.threads - {t})
    ensures EndThread(s, t) == s'
  {
  }

  /** With a save waiting to clear and mount, the only editor of the flow leaves. */
  lemma EditorLeaves(sid: string, f: string, save: map<nat, Thread>) returns (actions: seq<Action>)
    requires save == map[1 := SaveClearing(f, true)]
    ensures Run(State(map[sid := {f}], map[], save, {}), actions, State(map[], map[], save, {}))
  {
    hide Run, IsOpen, EndThread;
    var s0 := State(map[sid := {f}], map[], save, {});
    var s1 := State(map[], map[], save[2 := Closing([f], [])], {});
    var s2 := State(map[], map[], save[2 := Opening([])], {});
    var s3 := State(map[], map[], save, {});
    Leaves(s0, 2, sid, f);
    var b := Closes(s1, 2, f);
    assert SetThread(RemoveDraft(s1, f), 2, Opening([])) == s2;
    var c := Returns(s2, 2);
    Ended(s2, 2, s3);
    var a := [BeginRelease(2, sid, [f])];
    RunCat(s0, a, s1, b, s2);
    RunCat(s0, a + b, s2, c, s3);
    actions := a + b + c;
  }

  /**
   * An editor leaves between a save's check and its mount. All calls then return, no editor is connected, and the
   * draft is still mounted.
   */
  lemma LateSaveOrphans(sid: string, f: string, node: string) returns (actions: seq<Action>, s: State)
    requires f != ""
    ensures Run(Idle, actions, s) && s.threads == map[] && s.sessions == map[] && Orphan(s, f)
  {
    hide Run, IsOpen;
    var s1 := State(map[sid := {f}], map[], map[], {});
    var s2 := SetThread(s1, 1, SaveClearing(f, true));
    var s3 := State(map[], map[], map[1 := SaveClearing(f, true)], {});
    s := State(map[], map[f := {node}], map[], {f});
    var a := EditorOpens(sid, f);
    OnlyOpener(s1, sid, f);
    var b := SaveStarts(s1, 1, f);
    assert s2 == State(map[sid := {f}], map[], map[1 := SaveClearing(f, true)], {});
    var c := EditorLeaves(sid, f, map[1 := SaveClearing(f, true)]);
    var d := SaveMounts(f, node);
    RunCat(Idle, a, s1, b, s2);
    RunCat(Idle, a + b, s2, c, s3);
    RunCat(Idle, a + b + c, s3, d, s);
    actions := a + b + c + d;
    NobodyOpens(s);
  }

  /** A session call gets as far as having cleared the draft of the one flow it opens. */
  lemma Prepares(s: State, t: nat, sid: string, f: string) returns (actions: seq<Action>)
    requires t in s.threads && s.threads[t] == Closing([], [f])
    requires s.drafts == map[] && s.late == {} && s.sessions == map[sid := {f}]
    ensures Run(s, actions, SetThread(s, t, Mounting(f, [])))
  {
    hide Run, IsOpen;
    var s1 := SetThread(s, t, Opening([f]));
    var s2 := SetThread(s, t, Clearing(f, true, []));
    var s3 := SetThread(s, t, Mounting(f, []));
    assert [f][1..] == [];
    OnlyOpener(s1, sid, f);
    Single(s, CloseNext(t), s1);
    assert SetThread(s1, t, Clearing(f, true, [])) == s2;
    Single(s1, OpenNext(t, true, true), s2);
    assert SetThread(RemoveDraft(s2, f), t, Mounting(f, [])) == s3;
    Single(s2, Clear(t), s3);
    RunCat(s, [CloseNext(t)], s1, [OpenNext(t, true, true)], s2);
    RunCat(s, [CloseNext(t)] + [OpenNext(t, true, true)], s2, [Clear(t)], s3);
    actions := [CloseNext(t)] + [OpenNext(t, true, true)] + [Clear(t)];
  }

  /** It registers one handle and is done with the flow. */
  lemma MountsOne(s: State, t: nat, f: string, node: string)
    requires t in s.threads && s.threads[t] == Mounting(f, []) && s.drafts == map[]
    ensures Run(s, [Mount(t, node)] + [MountEnds(t, false)], SetThread(s.(drafts := map[f := {node}]), t, Opening([])))
  {
    hide Run, IsOpen;
    var s1 := s.(drafts := map[f := {node}]);
    assert {} + {node} == {node};
    assert AddHandle(s, f, node) == s1;
    Single(s, Mount(t, node), s1);
    Single(s1, MountEnds(t, false), SetThread(s1, t, Opening([])));
    RunCat(s, [Mount(t, node)], s1, [MountEnds(t, false)], SetThread(s1, t, Opening([])));
  }

  /** A session call mounts the draft of the one flow it opens, sweeps past it and returns. */
  lemma MountsAndReturns(s: State, t: nat, sid: string, f: string, node: string) returns (actions: seq<Action>)
    requires t in s.threads && s.threads[t] == Closing([], [f])
    requires s.drafts == map[] && s.late == {} && s.sessions == map[sid := {f}]
    ensures Run(s, actions, EndThread(s.(drafts := map[f := {node}]), t)) && Mount(t, node) in actions
  {
    hide Run, IsOpen, EndThread;
    var up := s.(drafts := map[f := {node}]);
    var s1 := SetThread(s, t, Mounting(f, []));
    var s2 := SetThread(up, t, Opening([]));
    var a := Prepares(s, t, sid, f);
    MountsOne(s1, t, f, node);
    assert SetThread(s1.(drafts := map[f := {node}]), t, Opening([])) == s2;
    var b := [Mount(t, node)] + [MountEnds(t, false)];
    assert b[0] == Mount(t, node);
    var c := SweepsPast(up, t, sid, f);
    RunCat(s, a, s1, b, s2);
    RunCat(s, a + b, s2, c, EndThread(up, t));
    actions := a + b + c;
  }

  lemma SweepsPast(s: State, t: nat, sid: string, f: string) returns (actions: seq<Action>)
    requires t in s.threads && s.drafts.Keys == {f} && s.sessions == map[sid := {f}]
    ensures Run(SetThread(s, t, Opening([])), actions, EndThread(s, t))
  {
    hide Run, IsOpen;
    var s0 := SetThread(s, t, Opening([]));
    var s1 := SetThread(s, t, Sweeping([f]));
    var s2 := SetThread(s, t, Sweeping([]));
    OnlyOpener(s1, sid, f);
    assert SetThread(s0, t, Sweeping([f])) == s1 && [f][1..] == [] && SetThread(s1, t, Sweeping([])) == s2;
    assert EndThread(s2, t) == EndThread(s, t);
    Single(s0, ListDrafts(t, [f]), s1);
    Single(s1, SweepNext(t), s2);
    Single(s2, Finish(t), EndThread(s, t));
    RunCat(s0, [ListDrafts(t, [f])], s1, [SweepNext(t)], s2);
    RunCat(s0, [ListDrafts(t, [f])] + [SweepNext(t)], s2, [Finish(t)], EndThread(s, t));
    actions := [ListDrafts(t, [f])] + [SweepNext(t)] + [Finish(t)];
  }

  /**
   * One editor leaves a flow; before its call removes the draft, another opens the flow and mounts it. All calls then
   * return, and the flow is open without its draft. `DraftSafety` says when this can happen.
   */
  lemma LateCloseUnmounts(a: string, b: string, f: string, node: string) returns (actions: seq<Action>, s: State)
    requires f != ""
    ensures Run(Idle, actions, s) && s.threads == map[] && IsOpen(s, f) && f !in s.drafts
    ensures Mount(2, node) in actions
  {
    hide Run, IsOpen, EndThread;
    var s0 := State(map[a := {f}], map[], map[], {});
    var s1 := State(map[], map[], map[1 := Closing([f], [])], {});
    var s2 := State(map[b := {f}], map[], map[1 := Closing([f], []), 2 := Closing([], [f])], {});
    var s3 := State(map[b := {f}], map[f := {node}], map[1 := Closing([f], [])], {});
    var s4 := State(map[b := {f}], map[], map[1 := Opening([])], {});
    s := State(map[b := {f}], map[], map[], {});
    var x0 := EditorOpens(a, f);
    Leaves(s0, 1, a, f);
    var x1 := [BeginRelease(1, a, [f])];
    NobodyOpens(s1);
    Opens(s1, 2, b, f);
    var x2 := [BeginUpdate(2, b, {f}, [], [f])];
    assert SetThread(s1.(sessions := map[b := {f}]), 2, Closing([], [f])) == s2;
    var x3 := MountsAndReturns(s2, 2, b, f, node);
    Ended(s2.(drafts := map[f := {node}]), 2, s3);
    var x4 := Closes(s3, 1, f);
    assert SetThread(RemoveDraft(s3, f), 1, Opening([])) == s4;
    var x5 := Returns(s4, 1);
    Ended(s4, 1, s);
    RunCat(Idle, x0, s0, x1, s1);
    RunCat(Idle, x0 + x1, s1, x2, s2);
    RunCat(Idle, x0 + x1 + x2, s2, x3, s3);
    RunCat(Idle, x0 + x1 + x2 + x3, s3, x4, s4);
    RunCat(Idle, x0 + x1 + x2 + x3 + x4, s4, x5, s);
    actions := x0 + x1 + x2 + x3 + x4 + x5;
    OnlyOpener(s, b, f);
  }

  // ---- what one call does when it is not interrupted ----

  /**
   * A session call that comes to a flow removes its draft and then, if the flow was open when the call looked and its
   * draft can be mounted, mounts it; a save does the same. Otherwise the flow is left without a draft.
   */
  lemma CallMounts(s: State, t: nat, f: string, rest: seq<string>, found: bool, mountable: bool, node: string)
    requires t in s.threads && (s.threads[t] == Opening([f] + rest) || (s.threads[t] == SaveBegun(f) && found))
    ensures var look := if s.threads[t].Opening? then OpenNext(t, found, mountable) else SaveNext(t, mountable);
            && Enabled(s, look)
            && (!found ==> Step(s, look) == s.(threads := s.threads[t := Opening(rest)]))
            && (found ==>
                  && Enabled(Step(s, look), Clear(t))
                  && var s1 := Step(Step(s, look), Clear(t));
                     && f !in s1.drafts && s1.drafts == s.drafts - {f} && s1.sessions == s.sessions
                     && (Enabled(s1, Mount(t, node)) <==> IsOpen(s, f) && mountable)
                     && (Enabled(s1, Mount(t, node)) ==>
                           && Step(s1, Mount(t, node)).drafts == s1.drafts[f := {node}]
                           && Enabled(Step(s1, Mount(t, node)), MountEnds(t, false))
                           && Step(Step(s1, Mount(t, node)), MountEnds(t, false)).drafts == s1.drafts[f := {node}]))
  {
    assert ([f] + rest)[1..] == rest;
    assert {} + {node} == {node};
  }

  /** The sweep removes the draft of a flow that is closed when it looks, and spares one that is open. */
  lemma SweepSparesOpen(s: State, t: nat, f: string, ids: seq<string>)
    requires t in s.threads && s.threads[t] == Sweeping([f] + ids)
    ensures Enabled(s, SweepNext(t))
    ensures var s1 := Step(s, SweepNext(t));
            && s1.drafts == s.drafts
            && (Enabled(s1, SweepRemove(t)) <==> !IsOpen(s, f))
            && (IsOpen(s, f) ==> s1.threads[t] == Sweeping(ids))
            && (!IsOpen(s, f) ==> Step(s1, SweepRemove(t)).drafts == s.drafts - {f}
                                  && Step(s1, SweepRemove(t)).threads[t] == Sweeping(ids))
  {
    assert ([f] + ids)[1..] == ids;
  }
}
