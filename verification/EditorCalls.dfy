/**
 * How a call to the editors ends, read off the steps of a run: which steps decide its outcome, and which reply it gets.
 */
module EditorCalls {
  import opened Prelude
  import opened EditorRpc

  // ---- what the steps say ----

  predicate BeginsAt(steps: seq<Step>, b: int, c: nat, key: Key) {
    0 <= b < |steps| && steps[b] == Begin(c, key)
  }

  ghost predicate Began(steps: seq<Step>, c: nat, key: Key) {
    exists b :: BeginsAt(steps, b, c, key)
  }

  /** The step takes a key out of the table or gives it to a new call. */
  ghost predicate Unregisters(steps: seq<Step>, j: int, key: Key)
    requires 0 <= j < |steps|
  {
    match steps[j]
    case Begin(_, k) => k == key
    case Take(_, r) => Key(r.kind, r.id) == key
    case CleanUp(d) => Began(steps[..j], d, key)
    case _ => false
  }

  /** Before step `i`, a key is registered for the call that began with it at step `b`. */
  ghost predicate RegisteredAt(steps: seq<Step>, b: int, i: int, c: nat, key: Key) {
    && 0 <= b < i <= |steps|
    && steps[b] == Begin(c, key)
    && forall j | b < j < i :: !Unregisters(steps, j, key)
  }

  /** After all steps, a key is registered for a call that began with it. */
  ghost predicate Registered(steps: seq<Step>, c: nat, key: Key) {
    exists b :: RegisteredAt(steps, b, |steps|, c, key)
  }

  /** At step `i` a reply takes the channel of the call that began with its kind and id at step `b`. */
  ghost predicate ClaimsAt(steps: seq<Step>, i: int, b: int, c: nat, k: nat, r: Reply) {
    0 <= i < |steps| && steps[i] == Take(k, r) && RegisteredAt(steps, b, i, c, Key(r.kind, r.id))
  }

  /** After step `i` the handler that took a channel there has sent on it. */
  ghost predicate DeliversAfter(steps: seq<Step>, i: int, k: nat) {
    exists j :: i < j < |steps| && 0 <= j && steps[j] == Deliver(k)
  }

  // ---- the state that the steps lead to ----

  predicate Ended(call: Call) {
    call.phase.Closing? || call.phase.Returned?
  }

  ghost predicate CallsTold(steps: seq<Step>, s: Hub) {
    && (forall c, key :: Began(steps, c, key) <==> c in s.calls && s.calls[c].key == key)
    && (forall a, b, c, k, l | BeginsAt(steps, a, c, k) && BeginsAt(steps, b, c, l) :: a == b)
  }

  predicate EndTold(steps: seq<Step>, c: nat, call: Call) {
    && (Receive(c) in steps <==> Ended(call) && call.phase.outcome.Got?)
    && (Expire(c) in steps <==> Ended(call) && call.phase.outcome.TimedOut?)
    && (Send(c, 0) in steps <==> Ended(call) && call.phase.outcome.NoEditor?)
    && (CleanUp(c) in steps <==> call.phase.Returned?)
  }

  ghost predicate EndsTold(steps: seq<Step>, s: Hub) {
    && (forall c | c in s.calls :: EndTold(steps, c, s.calls[c]))
    && (forall x | x in steps && !x.Take? && !x.Deliver? :: x.c in s.calls)
  }

  predicate Files(s: Hub, c: nat, key: Key) {
    key in s.pending && s.pending[key] == c
  }

  ghost predicate TableTold(steps: seq<Step>, s: Hub) {
    forall c, key :: Files(s, c, key) <==> Registered(steps, c, key)
  }

  /** Where the reply that claimed a channel is: with its handler, in the channel, or with the caller. */
  ghost predicate ReplyTold(steps: seq<Step>, s: Hub, i: int, b: int, c: nat, k: nat, r: Reply)
    requires ClaimsAt(steps, i, b, c, k, r)
  {
    && c in s.calls
    && (!DeliversAfter(steps, i, k) ==> k in s.completers && s.completers[k] == Completer(c, r) && Receive(c) !in steps)
    && (DeliversAfter(steps, i, k) && Receive(c) !in steps ==> s.calls[c].buffer == Some(r))
    && (Receive(c) in steps ==> Ended(s.calls[c]) && s.calls[c].phase.outcome == Got(r))
  }

  ghost predicate RepliesTold(steps: seq<Step>, s: Hub) {
    && (forall i, b, c, k, r | ClaimsAt(steps, i, b, c, k, r) :: ReplyTold(steps, s, i, b, c, k, r))
    && (forall k | k in s.completers ::
          exists i, b :: ClaimsAt(steps, i, b, s.completers[k].call, k, s.completers[k].reply)
                         && !DeliversAfter(steps, i, k))
    && (forall c | c in s.calls && (s.calls[c].buffer.Some? || Answered(s.calls[c])) ::
          exists i, b, k, r :: ClaimsAt(steps, i, b, c, k, r) && DeliversAfter(steps, i, k))
  }

  ghost predicate Told(steps: seq<Step>, s: Hub) {
    CallsTold(steps, s) && EndsTold(steps, s) && TableTold(steps, s) && RepliesTold(steps, s)
  }

  // ---- one more step ----

  lemma InMore(steps: seq<Step>, x: Step, y: Step)
    ensures y in steps + [x] <==> y in steps || y == x
  {
  }

  lemma BeganMore(steps: seq<Step>, x: Step, c: nat, key: Key)
    ensures Began(steps + [x], c, key) <==> Began(steps, c, key) || x == Begin(c, key)
  {
    var more := steps + [x];
    if b :| BeginsAt(steps, b, c, key) {
      assert BeginsAt(more, b, c, key);
    }
    if x == Begin(c, key) {
      assert BeginsAt(more, |steps|, c, key);
    }
    if b :| BeginsAt(more, b, c, key) {
      assert b < |steps| ==> BeginsAt(steps, b, c, key);
    }
  }

  lemma CallsTell(steps: seq<Step>, s: Hub, x: Step)
    requires CallsTold(steps, s) && Enabled(s, x)
    ensures CallsTold(steps + [x], Next(s, x))
  {
    hide Began;
    var more := steps + [x];
    forall c, key ensures Began(more, c, key) <==> c in Next(s, x).calls && Next(s, x).calls[c].key == key {
      BeganMore(steps, x, c, key);
    }
    forall a, b, c, k, l | BeginsAt(more, a, c, k) && BeginsAt(more, b, c, l) ensures a == b {
      BegunBefore(steps, x, a, c, k);
      BegunBefore(steps, x, b, c, l);
    }
  }

  lemma BegunBefore(steps: seq<Step>, x: Step, a: int, c: nat, key: Key)
    requires BeginsAt(steps + [x], a, c, key)
    ensures if a < |steps| then BeginsAt(steps, a, c, key) && Began(steps, c, key)
            else a == |steps| && x == Begin(c, key)
  {
    if a < |steps| {
      assert BeginsAt(steps, a, c, key);
    }
  }

  lemma EndsTell(steps: seq<Step>, s: Hub, x: Step)
    requires EndsTold(steps, s) && Enabled(s, x)
    ensures EndsTold(steps + [x], Next(s, x))
  {
    var more, s' := steps + [x], Next(s, x);
    forall c | c in s'.calls ensures EndTold(more, c, s'.calls[c]) {
      InMore(steps, x, Receive(c));
      InMore(steps, x, Expire(c));
      InMore(steps, x, Send(c, 0));
      InMore(steps, x, CleanUp(c));
    }
  }

  lemma RegisteredSame(steps: seq<Step>, x: Step, b: int, i: int, c: nat, key: Key)
    requires i <= |steps|
    ensures RegisteredAt(steps + [x], b, i, c, key) <==> RegisteredAt(steps, b, i, c, key)
  {
    var more := steps + [x];
    forall j | 0 <= j < |steps| ensures Unregisters(more, j, key) <==> Unregisters(steps, j, key) {
      assert more[..j] == steps[..j];
    }
  }

  lemma RegisteredMore(steps: seq<Step>, x: Step, b: int, c: nat, key: Key)
    ensures RegisteredAt(steps + [x], b, |steps| + 1, c, key) <==>
            (b == |steps| && x == Begin(c, key)) ||
            (RegisteredAt(steps, b, |steps|, c, key) && !Unregisters(steps + [x], |steps|, key))
  {
    var more := steps + [x];
    RegisteredSame(steps, x, b, |steps|, c, key);
  }

  lemma LastUnregisters(steps: seq<Step>, x: Step, key: Key)
    ensures Unregisters(steps + [x], |steps|, key) <==>
            match x
            case Begin(_, k) => k == key
            case Take(_, r) => Key(r.kind, r.id) == key
            case CleanUp(d) => Began(steps, d, key)
            case _ => false
  {
    assert (steps + [x])[..|steps|] == steps;
  }

  lemma RegisteredNow(steps: seq<Step>, x: Step, c: nat, key: Key)
    ensures Registered(steps + [x], c, key) <==>
            x == Begin(c, key) || (Registered(steps, c, key) && !Unregisters(steps + [x], |steps|, key))
  {
    hide RegisteredAt, Unregisters;
    var more := steps + [x];
    forall b ensures RegisteredAt(more, b, |more|, c, key) <==>
                     (b == |steps| && x == Begin(c, key)) ||
                     (RegisteredAt(steps, b, |steps|, c, key) && !Unregisters(more, |steps|, key)) {
      RegisteredMore(steps, x, b, c, key);
    }
    if x == Begin(c, key) {
      assert RegisteredAt(more, |steps|, |more|, c, key);
    }
  }

  lemma TableTells(steps: seq<Step>, s: Hub, x: Step)
    requires PendingOk(s) && CallsTold(steps, s) && TableTold(steps, s) && Enabled(s, x)
    ensures TableTold(steps + [x], Next(s, x))
  {
    hide Registered, Unregisters, Began;
    forall c, key ensures Files(Next(s, x), c, key) <==> Registered(steps + [x], c, key) {
      LastUnregisters(steps, x, key);
      RegisteredNow(steps, x, c, key);
      assert Files(s, c, key) <==> Registered(steps, c, key);
    }
  }

  lemma ClaimsSame(steps: seq<Step>, x: Step, i: int, b: int, c: nat, k: nat, r: Reply)
    ensures ClaimsAt(steps + [x], i, b, c, k, r) <==>
            ClaimsAt(steps, i, b, c, k, r) ||
            (i == |steps| && x == Take(k, r) && RegisteredAt(steps, b, |steps|, c, Key(r.kind, r.id)))
  {
    hide RegisteredAt;
    if 0 <= i <= |steps| {
      RegisteredSame(steps, x, b, i, c, Key(r.kind, r.id));
    }
  }

  lemma DeliversMore(steps: seq<Step>, x: Step, i: int, k: nat)
    requires 0 <= i < |steps|
    ensures DeliversAfter(steps + [x], i, k) <==> DeliversAfter(steps, i, k) || x == Deliver(k)
  {
    var more := steps + [x];
    if j :| i < j < |steps| && 0 <= j && steps[j] == Deliver(k) {
      assert more[j] == Deliver(k);
    }
    if x == Deliver(k) {
      assert more[|steps|] == Deliver(k);
    }
    if j :| i < j < |more| && 0 <= j && more[j] == Deliver(k) {
      assert j < |steps| ==> steps[j] == Deliver(k);
    }
  }

  lemma NothingDelivered(steps: seq<Step>, x: Step, k: nat)
    ensures !DeliversAfter(steps + [x], |steps|, k)
  {
  }

  lemma TakenIs(s: Hub, k: nat, r: Reply, c: nat)
    requires Inv(s) && Files(s, c, Key(r.kind, r.id)) && k !in s.completers
    ensures var s' := Next(s, Take(k, r));
            && c in s.calls && s.calls[c].buffer.None? && !Answered(s.calls[c])
            && s'.calls == s.calls && s'.completers == s.completers[k := Completer(c, r)]
  {
    hide NoDup, CompletersOk;
    assert Key(r.kind, r.id) in s.pending;
  }

  /** A new claim goes to a handler; its call has neither a reply in its channel nor an answer. */
  lemma ClaimTold(steps: seq<Step>, s: Hub, k: nat, r: Reply, b: int, c: nat)
    requires Inv(s) && EndsTold(steps, s) && TableTold(steps, s) && k !in s.completers
    requires RegisteredAt(steps, b, |steps|, c, Key(r.kind, r.id))
    ensures ClaimsAt(steps + [Take(k, r)], |steps|, b, c, k, r)
    ensures ReplyTold(steps + [Take(k, r)], Next(s, Take(k, r)), |steps|, b, c, k, r)
  {
    hide RegisteredAt, Inv, Next, DeliversAfter;
    var x := Take(k, r);
    ClaimsSame(steps, x, |steps|, b, c, k, r);
    NothingDelivered(steps, x, k);
    InMore(steps, x, Receive(c));
    assert Registered(steps, c, Key(r.kind, r.id));
    TakenIs(s, k, r, c);
    assert EndTold(steps, c, s.calls[c]);
  }

  /** A reply that had claimed a channel moves on, or stays where it is. */
  lemma ReplyMoves(steps: seq<Step>, s: Hub, x: Step, i: int, b: int, c: nat, k: nat, r: Reply)
    requires Inv(s) && EndsTold(steps, s) && Enabled(s, x)
    requires ClaimsAt(steps, i, b, c, k, r) && ReplyTold(steps, s, i, b, c, k, r)
    ensures ClaimsAt(steps + [x], i, b, c, k, r)
    ensures ReplyTold(steps + [x], Next(s, x), i, b, c, k, r)
  {
    hide RegisteredAt, NoDup, DeliversAfter;
    ClaimsSame(steps, x, i, b, c, k, r);
    DeliversMore(steps, x, i, k);
    InMore(steps, x, Receive(c));
    assert EndTold(steps, c, s.calls[c]);
  }

  lemma ClaimedReplies(steps: seq<Step>, s: Hub, x: Step)
    requires Inv(s) && Told(steps, s) && Enabled(s, x)
    ensures forall i, b, c, k, r | ClaimsAt(steps + [x], i, b, c, k, r) ::
      ReplyTold(steps + [x], Next(s, x), i, b, c, k, r)
  {
    hide RegisteredAt, Inv, Next, ReplyTold, ClaimsAt, EndsTold, TableTold, CallsTold;
    forall i, b, c, k, r | ClaimsAt(steps + [x], i, b, c, k, r)
      ensures ReplyTold(steps + [x], Next(s, x), i, b, c, k, r)
    {
      ClaimsSame(steps, x, i, b, c, k, r);
      if ClaimsAt(steps, i, b, c, k, r) {
        ReplyMoves(steps, s, x, i, b, c, k, r);
      } else {
        ClaimTold(steps, s, k, r, b, c);
      }
    }
  }

  /** Where a handler that holds a channel comes from. */
  lemma HandlerFrom(s: Hub, x: Step, k: nat)
    requires Enabled(s, x) && k in Next(s, x).completers
    ensures var h := Next(s, x).completers[k];
            || (k in s.completers && s.completers[k] == h && x != Deliver(k))
            || (x == Take(k, h.reply) && Files(s, h.call, Key(h.reply.kind, h.reply.id)))
  {
  }

  lemma HandlersClaimed(steps: seq<Step>, s: Hub, x: Step, k: nat)
    requires TableTold(steps, s) && RepliesTold(steps, s) && Enabled(s, x) && k in Next(s, x).completers
    ensures var h := Next(s, x).completers[k];
            exists i, b :: ClaimsAt(steps + [x], i, b, h.call, k, h.reply) && !DeliversAfter(steps + [x], i, k)
  {
    hide RegisteredAt, DeliversAfter, Next, Enabled, ReplyTold;
    var h := Next(s, x).completers[k];
    HandlerFrom(s, x, k);
    if k in s.completers && s.completers[k] == h && x != Deliver(k) {
      var i, b :| ClaimsAt(steps, i, b, h.call, k, h.reply) && !DeliversAfter(steps, i, k);
      ClaimsSame(steps, x, i, b, h.call, k, h.reply);
      DeliversMore(steps, x, i, k);
    } else {
      assert Registered(steps, h.call, Key(h.reply.kind, h.reply.id));
      var b :| RegisteredAt(steps, b, |steps|, h.call, Key(h.reply.kind, h.reply.id));
      ClaimsSame(steps, x, |steps|, b, h.call, k, h.reply);
      NothingDelivered(steps, x, k);
    }
  }

  /** A channel or an answer is filled only by a handler that sends. */
  lemma ChannelFrom(s: Hub, x: Step, c: nat)
    requires Enabled(s, x) && c in Next(s, x).calls
    requires Next(s, x).calls[c].buffer.Some? || Answered(Next(s, x).calls[c])
    ensures || (c in s.calls && (s.calls[c].buffer.Some? || Answered(s.calls[c])))
            || (x.Deliver? && x.k in s.completers && s.completers[x.k].call == c)
  {
  }

  lemma ChannelsClaimed(steps: seq<Step>, s: Hub, x: Step, c: nat)
    requires RepliesTold(steps, s) && Enabled(s, x) && c in Next(s, x).calls
    requires Next(s, x).calls[c].buffer.Some? || Answered(Next(s, x).calls[c])
    ensures exists i, b, k, r :: ClaimsAt(steps + [x], i, b, c, k, r) && DeliversAfter(steps + [x], i, k)
  {
    hide RegisteredAt, DeliversAfter, Next, Enabled, ReplyTold;
    ChannelFrom(s, x, c);
    if c in s.calls && (s.calls[c].buffer.Some? || Answered(s.calls[c])) {
      var i, b, k, r :| ClaimsAt(steps, i, b, c, k, r) && DeliversAfter(steps, i, k);
      ClaimsSame(steps, x, i, b, c, k, r);
      DeliversMore(steps, x, i, k);
    } else {
      var i, b :| ClaimsAt(steps, i, b, c, x.k, s.completers[x.k].reply) && !DeliversAfter(steps, i, x.k);
      ClaimsSame(steps, x, i, b, c, x.k, s.completers[x.k].reply);
      DeliversMore(steps, x, i, x.k);
    }
  }

  lemma StepTells(steps: seq<Step>, s: Hub, x: Step)
    requires Inv(s) && Told(steps, s) && Enabled(s, x)
    ensures Told(steps + [x], Next(s, x))
  {
    hide *;
    Parts(steps, s);
    CallsTell(steps, s, x);
    EndsTell(steps, s, x);
    TableTells(steps, s, x);
    ClaimedReplies(steps, s, x);
    forall k | k in Next(s, x).completers
      ensures var h := Next(s, x).completers[k];
              exists i, b :: ClaimsAt(steps + [x], i, b, h.call, k, h.reply) && !DeliversAfter(steps + [x], i, k) {
      HandlersClaimed(steps, s, x, k);
    }
    forall c | c in Next(s, x).calls && (Next(s, x).calls[c].buffer.Some? || Answered(Next(s, x).calls[c]))
      ensures exists i, b, k, r :: ClaimsAt(steps + [x], i, b, c, k, r) && DeliversAfter(steps + [x], i, k) {
      ChannelsClaimed(steps, s, x, c);
    }
    Whole(steps + [x], Next(s, x));
  }

  lemma Parts(steps: seq<Step>, s: Hub)
    requires Inv(s) && Told(steps, s)
    ensures PendingOk(s) && CallsTold(steps, s) && EndsTold(steps, s) && TableTold(steps, s) && RepliesTold(steps, s)
  {
    hide CallsTold, EndsTold, TableTold, RepliesTold, CallsOk, CompletersOk, NoDup;
  }

  lemma Whole(steps: seq<Step>, s: Hub)
    requires CallsTold(steps, s) && EndsTold(steps, s) && TableTold(steps, s)
    requires forall i, b, c, k, r | ClaimsAt(steps, i, b, c, k, r) :: ReplyTold(steps, s, i, b, c, k, r)
    requires forall k | k in s.completers ::
      exists i, b :: ClaimsAt(steps, i, b, s.completers[k].call, k, s.completers[k].reply)
                     && !DeliversAfter(steps, i, k)
    requires forall c | c in s.calls && (s.calls[c].buffer.Some? || Answered(s.calls[c])) ::
      exists i, b, k, r :: ClaimsAt(steps, i, b, c, k, r) && DeliversAfter(steps, i, k)
    ensures Told(steps, s)
  {
    hide CallsTold, EndsTold, TableTold, ReplyTold, ClaimsAt, DeliversAfter, Answered;
  }

  // ---- whole runs ----

  lemma {:induction false} LastStep(s: Hub, steps: seq<Step>, end: Hub) returns (before: Hub)
    requires steps != [] && Run(s, steps, end)
    ensures var n := |steps| - 1;
            Run(s, steps[..n], before) && Enabled(before, steps[n]) && end == Next(before, steps[n])
    decreases |steps|
  {
    hide Enabled, Next;
    if |steps| == 1 {
      before := s;
      assert steps[..0] == [] && steps[1..] == [];
    } else {
      var n := |steps| - 1;
      before := LastStep(Next(s, steps[0]), steps[1..], end);
      assert steps[1..][..n - 1] == steps[..n][1..] && steps[..n][0] == steps[0];
    }
  }

  lemma NothingTold()
    ensures Told([], EMPTY) && Inv(EMPTY)
  {
  }

  lemma {:induction false} RunTells(steps: seq<Step>, end: Hub)
    requires Run(EMPTY, steps, end)
    ensures Told(steps, end) && Inv(end)
    decreases |steps|
  {
    hide Told, Inv, Enabled, Next;
    NothingTold();
    if steps != [] {
      var n := |steps| - 1;
      var before := LastStep(EMPTY, steps, end);
      RunTells(steps[..n], before);
      StepTells(steps[..n], before, steps[n]);
      StepKeepsInv(before, steps[n]);
      assert steps[..n] + [steps[n]] == steps;
    }
  }

  /**
   * In every run a call has ended with a reply if and only if it received one, as timed out if and only if its timer
   * expired, and for want of an editor if and only if its message reached nobody; and it has returned if and only if
   * its clean-up has run.
   */
  lemma OutcomeExactly(steps: seq<Step>, end: Hub, c: nat)
    requires Run(EMPTY, steps, end) && c in end.calls
    ensures var call := end.calls[c];
            && (Receive(c) in steps <==> Ended(call) && call.phase.outcome.Got?)
            && (Expire(c) in steps <==> Ended(call) && call.phase.outcome.TimedOut?)
            && (Send(c, 0) in steps <==> Ended(call) && call.phase.outcome.NoEditor?)
            && (CleanUp(c) in steps <==> call.phase.Returned?)
  {
    hide Run, CallsTold, TableTold, RepliesTold, Inv;
    RunTells(steps, end);
  }

  /** At most one reply of a run takes the channel of a call. */
  lemma ClaimedOnce(steps: seq<Step>, end: Hub, c: nat, i: int, b: int, k: nat, r: Reply, i': int, b': int, k': nat,
                    r': Reply)
    requires Run(EMPTY, steps, end) && ClaimsAt(steps, i, b, c, k, r) && ClaimsAt(steps, i', b', c, k', r')
    ensures i == i' && k == k' && r == r'
  {
    hide Run, EndsTold, TableTold, RepliesTold, Inv;
    RunTells(steps, end);
    assert BeginsAt(steps, b, c, Key(r.kind, r.id)) && BeginsAt(steps, b', c, Key(r'.kind, r'.id));
    ClaimEnds(steps, b, i, i', c, k, r);
    ClaimEnds(steps, b, i', i, c, k', r');
  }

  /** Once its key is taken, a call is not registered any more. */
  lemma ClaimEnds(steps: seq<Step>, b: int, i: int, i': int, c: nat, k: nat, r: Reply)
    requires ClaimsAt(steps, i, b, c, k, r) && RegisteredAt(steps, b, i', c, Key(r.kind, r.id))
    ensures i' <= i
  {
    assert Unregisters(steps, i, Key(r.kind, r.id));
  }

  /**
   * A call that ends with a reply got the whole reply of the one handler that took its channel, which had the kind and
   * id the call began with; until that handler sends, the reply is with it, and then it is in the channel until the
   * call receives it.
   */
  lemma ReplyIsClaimed(steps: seq<Step>, end: Hub, c: nat)
    requires Run(EMPTY, steps, end) && c in end.calls
    ensures Ended(end.calls[c]) && end.calls[c].phase.outcome.Got? ==>
      exists i, b, k :: ClaimsAt(steps, i, b, c, k, end.calls[c].phase.outcome.reply)
    ensures forall i, b, k, r | ClaimsAt(steps, i, b, c, k, r) ::
      && (Receive(c) in steps <==> Ended(end.calls[c]) && end.calls[c].phase.outcome == Got(r))
      && (!DeliversAfter(steps, i, k) ==> k in end.completers && end.completers[k] == Completer(c, r))
      && (DeliversAfter(steps, i, k) && Receive(c) !in steps ==> end.calls[c].buffer == Some(r))
  {
    hide Run, CallsTold, TableTold, Inv, ClaimsAt, DeliversAfter;
    RunTells(steps, end);
    assert EndTold(steps, c, end.calls[c]);
    if Ended(end.calls[c]) && end.calls[c].phase.outcome.Got? {
      assert Answered(end.calls[c]);
      var i, b, k, r :| ClaimsAt(steps, i, b, c, k, r) && DeliversAfter(steps, i, k);
      assert ReplyTold(steps, end, i, b, c, k, r);
    }
  }

  /** A waiting call whose channel was taken and filled can receive, and then returns with that very reply. */
  lemma FilledIsReceived(steps: seq<Step>, end: Hub, c: nat, i: int, b: int, k: nat, r: Reply)
    requires Run(EMPTY, steps, end) && c in end.calls && end.calls[c].phase.Waiting?
    requires ClaimsAt(steps, i, b, c, k, r) && DeliversAfter(steps, i, k)
    ensures Enabled(end, Receive(c))
    ensures Next(end, Receive(c)).calls[c].phase == Closing(Got(r))
  {
    hide Run, ClaimsAt, DeliversAfter;
    ReplyIsClaimed(steps, end, c);
    OutcomeExactly(steps, end, c);
  }
}
