/**
 * Questions and patches sent to open editors, and the replies that come back over other connections.
 * Every call registers a channel under its request id, sends, and waits for the channel or a timer; every reply takes
 * the registered channel in one critical section and sends on it in a later step. Calls of both kinds, replies from
 * any number of editors, timeouts and clean-ups interleave in any order.
 */
module EditorRpc {
  import opened Prelude

  /** The two kinds of call have separate tables. */
  datatype Kind = Query | Patch

  datatype Reply = Reply(kind: Kind, id: string, body: string)

  datatype Key = Key(kind: Kind, id: string)

  /** How a call ends. The caller sees the reply without its request id. */
  datatype Outcome = NoEditor | TimedOut | Got(reply: Reply)

  /** A call ends in two steps: its outcome is decided, and then the deferred clean-up runs. */
  datatype Phase = Sending | Waiting | Closing(outcome: Outcome) | Returned(outcome: Outcome)

  /** A call and its channel, which holds one reply. */
  datatype Call = Call(key: Key, phase: Phase, buffer: Option<Reply>)

  /** A reply whose handler has taken the channel of `call` out of the table but not yet sent on it. */
  datatype Completer = Completer(call: nat, reply: Reply)

  /**
   * `taken` and `dropped` are history: the calls whose channel was taken, and the sends that found the
   * channel full.
   */
  datatype Hub = Hub(pending: map<Key, nat>, calls: map<nat, Call>, completers: map<nat, Completer>,
                     taken: seq<nat>, dropped: nat)

  datatype Step =
    | Begin(c: nat, key: Key)
    | Send(c: nat, delivered: nat)
    | Take(k: nat, reply: Reply)
    | Deliver(k: nat)
    | Receive(c: nat)
    | Expire(c: nat)
    | CleanUp(c: nat)

  /** The random id of a call is never empty. */
  predicate Enabled(s: Hub, step: Step) {
    match step
    case Begin(c, key) => c !in s.calls && key.id != ""
    case Send(c, _) => c in s.calls && s.calls[c].phase.Sending?
    case Take(k, _) => k !in s.completers
    case Deliver(k) => k in s.completers && s.completers[k].call in s.calls
    case Receive(c) => c in s.calls && s.calls[c].phase.Waiting? && s.calls[c].buffer.Some?
    case Expire(c) => c in s.calls && s.calls[c].phase.Waiting?
    case CleanUp(c) => c in s.calls && s.calls[c].phase.Closing?
  }

  /** The critical section of a reply: a reply without an id, or with one nobody waits for, is ignored. */
  function Claim(pending: map<Key, nat>, reply: Reply): (map<Key, nat>, Option<nat>) {
    var key := Key(reply.kind, reply.id);
    if reply.id == "" || key !in pending then (pending, None) else (pending - {key}, Some(pending[key]))
  }

  function SetCall(s: Hub, c: nat, call: Call): Hub {
    s.(calls := s.calls[c := call])
  }

  function Next(s: Hub, step: Step): Hub
    requires Enabled(s, step)
  {
    match step
    case Begin(c, key) => SetCall(s, c, Call(key, Sending, None)).(pending := s.pending[key := c])
    case Send(c, delivered) =>
      SetCall(s, c, s.calls[c].(phase := if delivered == 0 then Closing(NoEditor) else Waiting))
    case Take(k, reply) => Taken(s, k, reply)
    case Deliver(k) => Delivered(s, k)
    case Receive(c) => SetCall(s, c, s.calls[c].(phase := Closing(Got(s.calls[c].buffer.value)), buffer := None))
    case Expire(c) => SetCall(s, c, s.calls[c].(phase := Closing(TimedOut)))
    case CleanUp(c) => SetCall(s, c, s.calls[c].(phase := Returned(s.calls[c].phase.outcome)))
                       .(pending := s.pending - {s.calls[c].key})
  }

  function Taken(s: Hub, k: nat, reply: Reply): Hub {
    var (pending, claimed) := Claim(s.pending, reply);
    if claimed.None? then s
    else s.(pending := pending, completers := s.completers[k := Completer(claimed.value, reply)],
            taken := s.taken + [claimed.value])
  }

  /** The send does not block: a full channel loses the reply. */
  function Delivered(s: Hub, k: nat): Hub
    requires k in s.completers && s.completers[k].call in s.calls
  {
    var (c, reply) := (s.completers[k].call, s.completers[k].reply);
    var s' := s.(completers := s.completers - {k});
    if s.calls[c].buffer.None? then SetCall(s', c, s.calls[c].(buffer := Some(reply)))
    else s'.(dropped := s.dropped + 1)
  }

  const EMPTY := Hub(map[], map[], map[], [], 0)

  ghost predicate Run(s: Hub, steps: seq<Step>, end: Hub)
    decreases |steps|
  {
    if steps == [] then s == end else Enabled(s, steps[0]) && Run(Next(s, steps[0]), steps[1..], end)
  }

  // ---- the invariant; it asks nothing of the request ids ----

  predicate Fits(call: Call, reply: Reply) {
    call.key == Key(reply.kind, reply.id)
  }

  /** A registered channel can be claimed; it belongs to a call of its key that has not returned, and is not taken. */
  ghost predicate PendingOk(s: Hub) {
    forall key | key in s.pending ::
      && key.id != ""
      && s.pending[key] in s.calls && s.calls[s.pending[key]].key == key
      && !s.calls[s.pending[key]].phase.Returned? && s.pending[key] !in s.taken
  }

  predicate Answered(call: Call) {
    (call.phase.Closing? || call.phase.Returned?) && call.phase.outcome.Got?
  }

  /** A reply in a channel or in an outcome carries the call's kind and id, and there is one of them at most. */
  ghost predicate CallsOk(s: Hub) {
    && (forall c | c in s.calls && s.calls[c].buffer.Some? ::
          c in s.taken && !Answered(s.calls[c]) && Fits(s.calls[c], s.calls[c].buffer.value))
    && (forall c | c in s.calls && Answered(s.calls[c]) ::
        c in s.taken && Fits(s.calls[c], s.calls[c].phase.outcome.reply))
  }

  ghost predicate CompletersOk(s: Hub) {
    && (forall k | k in s.completers ::
          var c := s.completers[k].call;
          c in s.calls && c in s.taken && Fits(s.calls[c], s.completers[k].reply)
          && s.calls[c].buffer.None? && !Answered(s.calls[c]))
    && (forall j, k | j in s.completers && k in s.completers && j != k :: s.completers[j].call != s.completers[k].call)
  }

  ghost predicate Inv(s: Hub) {
    && PendingOk(s) && CallsOk(s) && CompletersOk(s)
    && NoDup(s.taken) && (forall c | c in s.taken :: c in s.calls)
    && s.dropped == 0
  }

  lemma BeginInv(s: Hub, c: nat, key: Key)
    requires Inv(s) && c !in s.calls && key.id != ""
    ensures Inv(Next(s, Begin(c, key)))
  {
    hide NoDup;
  }

  /** A change of phase that decides nothing but a call without a reply. */
  lemma PhaseInv(s: Hub, c: nat, phase: Phase)
    requires Inv(s) && c in s.calls && !Answered(s.calls[c])
    requires phase.Waiting? || phase == Closing(NoEditor) || phase == Closing(TimedOut)
    ensures Inv(SetCall(s, c, s.calls[c].(phase := phase)))
  {
    hide NoDup;
  }

  lemma TakeInv(s: Hub, k: nat, reply: Reply)
    requires Inv(s) && k !in s.completers
    ensures Inv(Taken(s, k, reply))
  {
    var key := Key(reply.kind, reply.id);
    if Claim(s.pending, reply).1.Some? {
      var c := s.pending[key];
      assert c in s.calls && s.calls[c].key == key && c !in s.taken;
      TakenOnce(s, key);
      assert NoDup(s.taken + [c]);
    }
  }

  /** Two keys never share a channel, so taking one leaves no other entry for the call. */
  lemma TakenOnce(s: Hub, key: Key)
    requires PendingOk(s) && key in s.pending
    ensures forall key' | key' in s.pending && key' != key :: s.pending[key'] != s.pending[key]
  {
  }

  lemma DeliverInv(s: Hub, k: nat)
    requires Inv(s) && k in s.completers && s.completers[k].call in s.calls
    ensures Inv(Delivered(s, k))
  {
    hide NoDup;
  }

  lemma ReceiveInv(s: Hub, c: nat)
    requires Inv(s) && Enabled(s, Receive(c))
    ensures Inv(Next(s, Receive(c)))
  {
    hide NoDup;
  }

  lemma CleanUpInv(s: Hub, c: nat)
    requires Inv(s) && Enabled(s, CleanUp(c))
    ensures Inv(Next(s, CleanUp(c)))
  {
    hide NoDup;
  }

  lemma StepKeepsInv(s: Hub, step: Step)
    requires Inv(s) && Enabled(s, step)
    ensures Inv(Next(s, step))
  {
    hide Inv, Taken, Delivered;
    match step
    case Begin(c, key) => BeginInv(s, c, key);
    case Send(c, delivered) => PhaseInv(s, c, if delivered == 0 then Closing(NoEditor) else Waiting);
    case Take(k, reply) => TakeInv(s, k, reply);
    case Deliver(k) => DeliverInv(s, k);
    case Receive(c) => ReceiveInv(s, c);
    case Expire(c) => PhaseInv(s, c, Closing(TimedOut));
    case CleanUp(c) => CleanUpInv(s, c);
  }

  lemma {:induction false} RunKeepsInv(s: Hub, steps: seq<Step>, end: Hub)
    requires Inv(s) && Run(s, steps, end)
    ensures Inv(end)
    decreases |steps|
  {
    hide Inv, Next, Enabled;
    if steps != [] {
      StepKeepsInv(s, steps[0]);
      RunKeepsInv(Next(s, steps[0]), steps[1..], end);
    }
  }

  // ---- main results, over every interleaving; request ids may even repeat ----

  /** A call returns only a reply of its own kind that bears its own id, and at most one reply is accepted for it. */
  lemma OwnReplyOnly(steps: seq<Step>, end: Hub)
    requires Run(EMPTY, steps, end)
    ensures forall c | c in end.calls && end.calls[c].phase.Returned? && end.calls[c].phase.outcome.Got? ::
      Fits(end.calls[c], end.calls[c].phase.outcome.reply) && c in end.taken
    ensures NoDup(end.taken)
  {
    hide Run;
    RunKeepsInv(EMPTY, steps, end);
  }

  /** A reply that took a channel finds it empty, so no send is ever dropped. */
  lemma SendsFindRoom(steps: seq<Step>, end: Hub)
    requires Run(EMPTY, steps, end)
    ensures end.dropped == 0
    ensures forall k | k in end.completers ::
      end.completers[k].call in end.calls && end.calls[end.completers[k].call].buffer.None?
  {
    hide Run;
    RunKeepsInv(EMPTY, steps, end);
  }

  /** No entry outlives its call: whatever is registered belongs to a call of that key that has not returned. */
  lemma NothingLeft(steps: seq<Step>, end: Hub)
    requires Run(EMPTY, steps, end)
    ensures forall key | key in end.pending ::
      var c := end.pending[key];
      c in end.calls && end.calls[c].key == key && !end.calls[c].phase.Returned? && c !in end.taken
    ensures (forall c | c in end.calls :: end.calls[c].phase.Returned?) ==> end.pending == map[]
  {
    hide Run;
    RunKeepsInv(EMPTY, steps, end);
  }

  /** A reply of the kind and id of a registered call claims its channel, whatever it says. */
  lemma RegisteredCanBeClaimed(steps: seq<Step>, end: Hub, key: Key, body: string)
    requires Run(EMPTY, steps, end) && key in end.pending
    ensures Claim(end.pending, Reply(key.kind, key.id, body)) == (end.pending - {key}, Some(end.pending[key]))
  {
    hide Run;
    RunKeepsInv(EMPTY, steps, end);
  }

  // ---- when an answer can still reach its call ----

  predicate Open(call: Call) {
    call.phase.Sending? || call.phase.Waiting?
  }

  /** An open call can still be answered, or its reply is on its way, or its reply is in its channel. */
  ghost predicate Reachable(s: Hub, c: nat)
    requires c in s.calls
  {
    || (s.calls[c].key in s.pending && s.pending[s.calls[c].key] == c)
    || s.calls[c].buffer.Some?
    || (exists k :: k in s.completers && s.completers[k].call == c)
  }

  /** Before its channel is taken, another call begins with the call's key, or cleans that key up. */
  predicate Disturbs(s: Hub, step: Step, c: nat) {
    c in s.calls && c !in s.taken &&
    match step
    case Begin(_, key) => key == s.calls[c].key
    case CleanUp(d) => d != c && d in s.calls && s.calls[d].key == s.calls[c].key
    case _ => false
  }

  ghost predicate EverDisturbed(s: Hub, steps: seq<Step>, c: nat)
    decreases |steps|
  {
    steps != [] && Enabled(s, steps[0]) &&
    (Disturbs(s, steps[0], c) || EverDisturbed(Next(s, steps[0]), steps[1..], c))
  }

  lemma DisturbedIsLost(s: Hub, step: Step, c: nat)
    requires Inv(s) && Enabled(s, step) && Disturbs(s, step, c)
    ensures !Reachable(Next(s, step), c)
  {
    hide NoDup, PendingOk;
    var s' := Next(s, step);
    assert s'.calls[c].key == s.calls[c].key && s'.calls[c].buffer == s.calls[c].buffer;
    assert s'.completers == s.completers;
  }

  lemma UndisturbedIsKept(s: Hub, step: Step, c: nat)
    requires Inv(s) && Enabled(s, step) && c in s.calls && Reachable(s, c) && !Disturbs(s, step, c)
    requires Open(Next(s, step).calls[c])
    ensures Reachable(Next(s, step), c)
  {
    hide NoDup, CallsOk, CompletersOk;
    var s' := Next(s, step);
    if k :| k in s.completers && s.completers[k].call == c {
      if step != Deliver(k) {
        assert k in s'.completers && s'.completers[k].call == c;
      }
    }
    if step.Take? && c in s.pending.Values && Claim(s.pending, step.reply).1 == Some(c) {
      assert s'.completers[step.k].call == c;
    }
  }

  /** One step makes an open call deaf if and only if it disturbs the call. */
  lemma ReachableExactly(s: Hub, step: Step, c: nat)
    requires Inv(s) && Enabled(s, step) && c in s.calls && Reachable(s, c)
    requires Open(Next(s, step).calls[c])
    ensures Reachable(Next(s, step), c) <==> !Disturbs(s, step, c)
  {
    hide Inv, Next, Reachable, Disturbs, Enabled;
    if Disturbs(s, step, c) {
      DisturbedIsLost(s, step, c);
    } else {
      UndisturbedIsKept(s, step, c);
    }
  }

  /** A deaf call stays deaf. */
  lemma DeafStays(s: Hub, step: Step, c: nat)
    requires Inv(s) && Enabled(s, step) && c in s.calls && !Reachable(s, c)
    ensures c in Next(s, step).calls && !Reachable(Next(s, step), c)
  {
    hide NoDup;
  }

  lemma CallsStay(s: Hub, step: Step, c: nat)
    requires Enabled(s, step) && c in s.calls
    ensures c in Next(s, step).calls
    ensures Open(Next(s, step).calls[c]) ==> Open(s.calls[c])
  {
  }

  lemma {:induction false} DeafForGood(s: Hub, steps: seq<Step>, end: Hub, c: nat)
    requires Inv(s) && Run(s, steps, end) && c in s.calls && !Reachable(s, c)
    ensures c in end.calls && !Reachable(end, c)
    decreases |steps|
  {
    hide Inv, Reachable, Next, Enabled;
    if steps != [] {
      StepKeepsInv(s, steps[0]);
      DeafStays(s, steps[0], c);
      DeafForGood(Next(s, steps[0]), steps[1..], end, c);
    }
  }

  lemma {:induction false} StaysOpenBefore(s: Hub, steps: seq<Step>, end: Hub, c: nat)
    requires Run(s, steps, end) && c in s.calls
    ensures c in end.calls && (Open(end.calls[c]) ==> Open(s.calls[c]))
    decreases |steps|
  {
    hide Next, Enabled, Open;
    if steps != [] {
      CallsStay(s, steps[0], c);
      StaysOpenBefore(Next(s, steps[0]), steps[1..], end, c);
    }
  }

  /** A call that has yet to begin, or can be heard, can be heard at the end if and only if nothing disturbs it. */
  lemma {:induction false} HeardFrom(s: Hub, steps: seq<Step>, end: Hub, c: nat)
    requires Inv(s) && Run(s, steps, end) && (c in s.calls ==> Reachable(s, c))
    requires c in end.calls && Open(end.calls[c])
    ensures Reachable(end, c) <==> !EverDisturbed(s, steps, c)
    decreases |steps|
  {
    hide Inv, Reachable, Next, Enabled, Disturbs, Open;
    if steps != [] {
      var s1 := Next(s, steps[0]);
      StepKeepsInv(s, steps[0]);
      if c in s.calls {
        CallsStay(s, steps[0], c);
        StaysOpenBefore(s1, steps[1..], end, c);
        ReachableExactly(s, steps[0], c);
        if Disturbs(s, steps[0], c) {
          DeafForGood(s1, steps[1..], end, c);
        } else {
          HeardFrom(s1, steps[1..], end, c);
        }
      } else {
        NewIsHeard(s, steps[0], c);
        HeardFrom(s1, steps[1..], end, c);
      }
    }
  }

  lemma NewIsHeard(s: Hub, step: Step, c: nat)
    requires Enabled(s, step) && c !in s.calls
    ensures c in Next(s, step).calls ==> Reachable(Next(s, step), c)
    ensures !Disturbs(s, step, c)
  {
  }

  /**
   * In every run, an open call can be answered, has its reply on the way or has it in its channel if and only if
   * between its beginning and the taking of its channel no other call began with its key or cleaned that key up.
   */
  lemma HeardExactly(steps: seq<Step>, end: Hub, c: nat)
    requires Run(EMPTY, steps, end) && c in end.calls && Open(end.calls[c])
    ensures Reachable(end, c) <==> !EverDisturbed(EMPTY, steps, c)
  {
    hide Run, EverDisturbed, Reachable;
    HeardFrom(EMPTY, steps, end, c);
  }

  /** A call that waits while no reply is under way has its reply or is registered, iff it was never disturbed. */
  lemma WaitingCallsAreHeard(steps: seq<Step>, end: Hub, c: nat)
    requires Run(EMPTY, steps, end)
    requires c in end.calls && end.calls[c].phase.Waiting? && end.completers == map[]
    ensures (end.calls[c].buffer.Some? || (end.calls[c].key in end.pending && end.pending[end.calls[c].key] == c))
            <==> !EverDisturbed(EMPTY, steps, c)
  {
    hide Run, EverDisturbed;
    HeardExactly(steps, end, c);
  }

  /** A random id repeats none that a call of the same kind is still using. */
  ghost predicate FreshStep(s: Hub, step: Step) {
    step.Begin? ==> forall c | c in s.calls && s.calls[c].key == step.key :: s.calls[c].phase.Returned?
  }

  ghost predicate FreshRun(s: Hub, steps: seq<Step>)
    decreases |steps|
  {
    steps != [] ==> Enabled(s, steps[0]) && FreshStep(s, steps[0]) && FreshRun(Next(s, steps[0]), steps[1..])
  }

  ghost predicate OneCallPerKey(s: Hub) {
    forall c, d | c in s.calls && d in s.calls && c != d && s.calls[c].key == s.calls[d].key ::
      s.calls[c].phase.Returned? || s.calls[d].phase.Returned?
  }

  lemma FreshStepQuiet(s: Hub, step: Step, c: nat)
    requires OneCallPerKey(s) && Enabled(s, step) && FreshStep(s, step)
    ensures OneCallPerKey(Next(s, step))
    ensures c in s.calls && Open(Next(s, step).calls[c]) ==> !Disturbs(s, step, c)
  {
  }

  /** Ids that differ among the calls under way are enough. */
  lemma {:induction false} FreshIdsSuffice(s: Hub, steps: seq<Step>, end: Hub, c: nat)
    requires OneCallPerKey(s) && Run(s, steps, end) && FreshRun(s, steps)
    requires c in end.calls && Open(end.calls[c])
    ensures !EverDisturbed(s, steps, c)
    decreases |steps|
  {
    hide OneCallPerKey, Next, Enabled, FreshStep, Open;
    if steps != [] {
      FreshStepQuiet(s, steps[0], c);
      if c in s.calls {
        CallsStay(s, steps[0], c);
        StaysOpenBefore(Next(s, steps[0]), steps[1..], end, c);
      }
      FreshIdsSuffice(Next(s, steps[0]), steps[1..], end, c);
    }
  }

  /** With a repeated id the first call's clean-up unregisters the second, which then waits in vain. */
  lemma RepeatedIdIsUnheard(key: Key)
    requires key.id != ""
    ensures var steps := [Begin(0, key), Begin(1, key), Send(1, 1), Send(0, 0), CleanUp(0)];
      exists end :: Run(EMPTY, steps, end)
        && 1 in end.calls && end.calls[1] == Call(key, Waiting, None)
        && end.pending == map[] && end.completers == map[]
  {
    var s1 := Next(EMPTY, Begin(0, key));
    var s2 := Next(s1, Begin(1, key));
    var s3 := Next(s2, Send(1, 1));
    var s4 := Next(s3, Send(0, 0));
    var s5 := Next(s4, CleanUp(0));
    assert Run(s5, [], s5);
    assert Run(s4, [CleanUp(0)], s5);
    assert Run(s3, [Send(0, 0), CleanUp(0)], s5);
    assert Run(s2, [Send(1, 1), Send(0, 0), CleanUp(0)], s5);
    assert Run(s1, [Begin(1, key), Send(1, 1), Send(0, 0), CleanUp(0)], s5);
    var steps := [Begin(0, key), Begin(1, key), Send(1, 1), Send(0, 0), CleanUp(0)];
    assert steps[1..] == [Begin(1, key), Send(1, 1), Send(0, 0), CleanUp(0)];
    assert Run(EMPTY, steps, s5);
  }
}
