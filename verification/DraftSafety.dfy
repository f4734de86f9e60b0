/**
 * When an open flow can lose its draft. A call in flight may still remove the draft of a flow although some editor has
 * opened the flow since; whether one does can be read off the calls in flight.
 */
module DraftSafety {
  import opened Prelude
  import opened DraftProtocol

  /**
   * The call can still reach a removal of the flow's draft. A call that only sweeps cannot: it looks whether the flow
   * is open before it removes anything.
   */
  predicate Threatens(th: Thread, f: string) {
    match th
    case Closing(toClose, toOpen) => f in toClose || f in toOpen
    case Opening(toOpen) => f in toOpen
    case Clearing(g, _, toOpen) => g == f || f in toOpen
    case Mounting(g, toOpen) => g == f || f in toOpen
    case Sweeping(_) => false
    case Sweep(g, _) => g == f
    case SaveBegun(g) => g == f
    case SaveClearing(g, _) => g == f
    case SaveMounting(g) => g == f
  }

  ghost predicate Threatened(s: State, f: string) {
    exists t :: t in s.threads && Threatens(s.threads[t], f)
  }

  /** An action of a call that is already in flight. */
  predicate Internal(a: Action) {
    !a.BeginUpdate? && !a.BeginRelease? && !a.BeginSave? && !a.Unmount?
  }

  /** Through the whole run the flow stays open, and neither a save nor an unload of it begins. */
  ghost predicate Peaceful(s: State, actions: seq<Action>, f: string)
    decreases |actions|
  {
    IsOpen(s, f) &&
    (actions != [] && Enabled(s, actions[0]) ==>
       && !(actions[0].BeginSave? && actions[0].f == f) && actions[0] != Unmount(f)
       && Peaceful(Step(s, actions[0]), actions[1..], f))
  }

  // ---- without a threat the draft stays ----

  lemma BeginsHarmless(s: State, a: Action, f: string)
    requires Enabled(s, a) && (a.BeginUpdate? || a.BeginRelease?) && IsOpen(s, f) && IsOpen(Step(s, a), f)
    ensures f !in a.toClose && (a.BeginUpdate? ==> f !in a.toOpen)
  {
    var mid := s.(sessions := SessionsAfter(s, a));
    assert Step(s, a).sessions == mid.sessions;
    assert IsOpen(mid, f);
  }

  lemma SafeStep(s: State, a: Action, f: string)
    requires Enabled(s, a) && IsOpen(s, f) && IsOpen(Step(s, a), f)
    requires f in s.drafts && !Threatened(s, f)
    requires !(a.BeginSave? && a.f == f) && a != Unmount(f)
    ensures f in Step(s, a).drafts && !Threatened(Step(s, a), f)
  {
    hide IsOpen, ListsExact;
    var s' := Step(s, a);
    if a.BeginUpdate? || a.BeginRelease? {
      BeginsHarmless(s, a, f);
    }
    DraftStep(s, a, f);
    forall t | t in s'.threads ensures !Threatens(s'.threads[t], f) {
      assert t in s.threads ==> !Threatens(s.threads[t], f);
    }
  }

  lemma {:induction false} SafeRun(s: State, actions: seq<Action>, s': State, f: string)
    requires Run(s, actions, s') && Peaceful(s, actions, f)
    requires f in s.drafts && !Threatened(s, f)
    ensures f in s'.drafts && !Threatened(s', f)
    decreases |actions|
  {
    hide Step, Enabled, IsOpen, Threatened;
    if actions != [] {
      SafeStep(s, actions[0], f);
      SafeRun(Step(s, actions[0]), actions[1..], s', f);
    }
  }

  // ---- with a threat it can go ----

  /** The calls in flight alone lead from one state to another. */
  ghost predicate Calm(s: State, actions: seq<Action>, s': State) {
    Run(s, actions, s') && s'.sessions == s.sessions && forall a | a in actions :: Internal(a)
  }

  lemma CalmFirst(s: State, a: Action, s1: State, rest: seq<Action>, s': State)
    requires Enabled(s, a) && Internal(a) && Step(s, a) == s1 && Calm(s1, rest, s')
    ensures Calm(s, [a] + rest, s')
  {
    hide Run, Enabled, IsOpen;
    OneStep(s, a, s1, rest, s');
    forall b | b in [a] + rest ensures Internal(b) {
      assert b == a || b in rest;
    }
  }

  lemma CalmNothing(s: State)
    ensures Calm(s, [], s)
  {
  }

  lemma ClearUnmounts(s: State, t: nat, f: string) returns (actions: seq<Action>, s': State)
    requires t in s.threads && (s.threads[t].Clearing? || s.threads[t].SaveClearing?) && s.threads[t].f == f
    ensures Calm(s, actions, s') && f !in s'.drafts
  {
    hide Calm, IsOpen;
    s' := Step(s, Clear(t));
    CalmNothing(s');
    CalmFirst(s, Clear(t), s', [], s');
    actions := [Clear(t)] + [];
  }

  /** A mount that fails clears what it has mounted. */
  lemma MountUnmounts(s: State, t: nat, f: string) returns (actions: seq<Action>, s': State)
    requires t in s.threads && (s.threads[t].Mounting? || s.threads[t].SaveMounting?) && s.threads[t].f == f
    ensures Calm(s, actions, s') && f !in s'.drafts
  {
    hide Calm, IsOpen;
    var s1 := Step(s, MountEnds(t, true));
    var rest;
    rest, s' := ClearUnmounts(s1, t, f);
    CalmFirst(s, MountEnds(t, true), s1, rest, s');
    actions := [MountEnds(t, true)] + rest;
  }

  lemma {:induction false} OpeningUnmounts(s: State, t: nat, f: string) returns (actions: seq<Action>, s': State)
    requires t in s.threads && s.threads[t].Opening? && f in s.threads[t].toOpen
    ensures Calm(s, actions, s') && f !in s'.drafts
    decreases |s.threads[t].toOpen|
  {
    hide Calm, IsOpen;
    var a := OpenNext(t, s.threads[t].toOpen[0] == f, false);
    var s1 := Step(s, a);
    var rest;
    if s.threads[t].toOpen[0] == f {
      rest, s' := ClearUnmounts(s1, t, f);
    } else {
      rest, s' := OpeningUnmounts(s1, t, f);
    }
    CalmFirst(s, a, s1, rest, s');
    actions := [a] + rest;
  }

  lemma {:induction false} ClosingUnmounts(s: State, t: nat, f: string) returns (actions: seq<Action>, s': State)
    requires t in s.threads && s.threads[t].Closing? && (f in s.threads[t].toClose || f in s.threads[t].toOpen)
    ensures Calm(s, actions, s') && f !in s'.drafts
    decreases |s.threads[t].toClose|
  {
    hide Calm, IsOpen;
    var s1 := Step(s, CloseNext(t));
    var rest;
    if s.threads[t].toClose == [] {
      rest, s' := OpeningUnmounts(s1, t, f);
    } else if s.threads[t].toClose[0] == f {
      CalmNothing(s1);
      rest, s' := [], s1;
    } else {
      rest, s' := ClosingUnmounts(s1, t, f);
    }
    CalmFirst(s, CloseNext(t), s1, rest, s');
    actions := [CloseNext(t)] + rest;
  }

  /** A call that is busy with another flow gets to the ones it has yet to open. */
  lemma BusyUnmounts(s: State, t: nat, f: string) returns (actions: seq<Action>, s': State)
    requires t in s.threads && (s.threads[t].Clearing? || s.threads[t].Mounting?)
    requires s.threads[t].f != f && f in s.threads[t].toOpen
    ensures Calm(s, actions, s') && f !in s'.drafts
    decreases if s.threads[t].Clearing? then 1 else 0
  {
    hide Calm, IsOpen;
    var a := if s.threads[t].Clearing? then Clear(t) else MountEnds(t, false);
    var s1 := Step(s, a);
    var rest;
    if s1.threads[t].Mounting? {
      rest, s' := BusyUnmounts(s1, t, f);
    } else {
      rest, s' := OpeningUnmounts(s1, t, f);
    }
    CalmFirst(s, a, s1, rest, s');
    actions := [a] + rest;
  }

  /** A call that threatens a draft can carry the threat out: nothing new has to begin, and no editor has to move. */
  lemma ThreatUnmounts(s: State, t: nat, f: string) returns (actions: seq<Action>, s': State)
    requires t in s.threads && Threatens(s.threads[t], f)
    ensures Calm(s, actions, s') && f !in s'.drafts
  {
    hide Calm, IsOpen;
    var th := s.threads[t];
    if th.Closing? {
      actions, s' := ClosingUnmounts(s, t, f);
    } else if th.Opening? {
      actions, s' := OpeningUnmounts(s, t, f);
    } else if th.Sweep? {
      s' := Step(s, SweepRemove(t));
      CalmNothing(s');
      CalmFirst(s, SweepRemove(t), s', [], s');
      actions := [SweepRemove(t)] + [];
    } else if th.SaveBegun? {
      var s1 := Step(s, SaveNext(t, false));
      var rest;
      rest, s' := ClearUnmounts(s1, t, f);
      CalmFirst(s, SaveNext(t, false), s1, rest, s');
      actions := [SaveNext(t, false)] + rest;
    } else if th.f != f {
      actions, s' := BusyUnmounts(s, t, f);
    } else if th.Clearing? || th.SaveClearing? {
      actions, s' := ClearUnmounts(s, t, f);
    } else {
      actions, s' := MountUnmounts(s, t, f);
    }
  }

  lemma {:induction false} CalmIsPeaceful(s: State, actions: seq<Action>, s': State, f: string)
    requires Run(s, actions, s') && IsOpen(s, f) && forall a | a in actions :: Internal(a)
    ensures Peaceful(s, actions, f)
    decreases |actions|
  {
    hide Enabled, IsOpen, Step;
    if actions != [] {
      var s1 := Step(s, actions[0]);
      assert Internal(actions[0]);
      InternalKeepsOpen(s, actions[0], f);
      forall a | a in actions[1..] ensures Internal(a) {
        assert a in actions;
      }
      CalmIsPeaceful(s1, actions[1..], s', f);
    }
  }

  lemma InternalKeepsOpen(s: State, a: Action, f: string)
    requires Enabled(s, a) && Internal(a) && IsOpen(s, f)
    ensures IsOpen(Step(s, a), f)
  {
    hide IsOpen;
    SameSessions(s, Step(s, a), f);
  }

  // ---- the exact condition ----

  /**
   * An open flow with a draft can lose it, while it stays open and is neither saved nor unloaded anew, if and only if
   * some call in flight threatens it. The condition is about the calls in flight before the run, not about the run.
   */
  lemma OpenDraftLostExactly(s: State, f: string)
    requires IsOpen(s, f) && f in s.drafts
    ensures Threatened(s, f) <==>
            exists actions, s' :: Run(s, actions, s') && Peaceful(s, actions, f) && f !in s'.drafts
  {
    hide Run, IsOpen, Peaceful, Threatens;
    if Threatened(s, f) {
      var t :| t in s.threads && Threatens(s.threads[t], f);
      var actions, s' := ThreatUnmounts(s, t, f);
      CalmIsPeaceful(s, actions, s', f);
    } else {
      forall actions, s' | Run(s, actions, s') && Peaceful(s, actions, f) ensures f in s'.drafts {
        SafeRun(s, actions, s', f);
      }
    }
  }

  /** In particular, with nothing in flight but sweeps and saves of other flows, the draft of an open flow is safe. */
  lemma AtRestDraftsStay(s: State, actions: seq<Action>, s': State, f: string)
    requires IsOpen(s, f) && f in s.drafts && Run(s, actions, s') && Peaceful(s, actions, f)
    requires forall t | t in s.threads :: s.threads[t].Sweeping? || (IsSave(s.threads[t]) && s.threads[t].f != f)
    ensures f in s'.drafts
  {
    hide Run, IsOpen, Peaceful;
    SafeRun(s, actions, s', f);
  }
}
