/**
 * The rebuild of one track in closed form: when it succeeds, as a condition on the nodes of the DSL and the answers of
 * the network, and which handle each node holds afterwards.
 *
 * Receivers are tried before senders, each in the order of the DSL, and each try gets the next answer of the network.
 */
module MqttMounts {
  import opened Prelude
  import opened FlowDsl
  import opened MqttKeys
  import opened MqttLedger
  import opened MqttTracks

  // ---- who is tried, who gets a client ----

  /** A managed sender that the rebuild does not skip; on the draft track it skips one without its receiver. */
  predicate Tries(track: string, node: Node, active: set<string>) {
    node.MqttOutNode? && node.outCfg.Some? && node.outCfg.value.managed &&
    (track == DRAFT && node.outCfg.value.reuseFrom != "" ==> node.outCfg.value.reuseFrom in active)
  }

  /** A sender that keeps a client of its own. */
  predicate Keeps(node: Node) {
    node.MqttOutNode? && node.outCfg.Some? && node.outCfg.value.managed && node.outCfg.value.reuseFrom == "" &&
    node.outCfg.value.persistent
  }

  function ReceivedBefore(track: string, nodes: seq<Node>, i: nat): nat
    requires i <= |nodes|
  {
    if i == 0 then 0 else ReceivedBefore(track, nodes, i - 1) + if Receives(track, nodes[i - 1]) then 1 else 0
  }

  function TriedBefore(track: string, nodes: seq<Node>, active: set<string>, i: nat): nat
    requires i <= |nodes|
  {
    if i == 0 then 0
    else TriedBefore(track, nodes, active, i - 1) + if Tries(track, nodes[i - 1], active) then 1 else 0
  }

  function KeptBefore(nodes: seq<Node>, i: nat): nat
    requires i <= |nodes|
  {
    if i == 0 then 0 else KeptBefore(nodes, i - 1) + if Keeps(nodes[i - 1]) then 1 else 0
  }

  // ---- when a rebuild succeeds ----

  /** A receiver parses, and if it is to be mounted its client connects and subscribes. */
  predicate ReceiverFits(track: string, nodes: seq<Node>, i: nat, dials: nat -> Dial)
    requires i < |nodes|
  {
    nodes[i].MqttInNode? ==>
      && nodes[i].inCfg.Some?
      && (Receives(track, nodes[i]) ==> dials(ReceivedBefore(track, nodes, i)) == Connects)
  }

  /** At the turn of sender `i`, node `id` holds a receiver's client: it is a receiver and no sender took its place. */
  predicate Lends(track: string, nodes: seq<Node>, i: nat, id: string)
    requires i <= |nodes|
  {
    && id in Receivers(track, nodes)
    && forall a | 0 <= a < i && Sends(track, nodes[a], Receivers(track, nodes)) :: nodes[a].id != id
  }

  /** A sender parses, and if it is tried, the node it borrows from can lend, or its own client connects. */
  predicate SenderFits(track: string, nodes: seq<Node>, i: nat, dials: nat -> Dial)
    requires i < |nodes|
  {
    nodes[i].MqttOutNode? ==>
      && nodes[i].outCfg.Some?
      && var cfg := nodes[i].outCfg.value;
         var active := Receivers(track, nodes);
         var n := ReceivedBefore(track, nodes, |nodes|) + TriedBefore(track, nodes, active, i);
         Tries(track, nodes[i], active) ==>
           if cfg.reuseFrom != "" then Lends(track, nodes, i, cfg.reuseFrom)
           else cfg.persistent ==> dials(n) != Refuses
  }

  /** Whether a DSL can be mounted on a track. */
  predicate Mountable(track: string, dsl: Dsl, dials: nat -> Dial) {
    forall i | 0 <= i < |dsl.nodes| ::
      ReceiverFits(track, dsl.nodes, i, dials) && SenderFits(track, dsl.nodes, i, dials)
  }

  // ---- which handle a node holds ----

  function HandleAt(l: Ledger, track: string, f: string, id: string): Option<Handle> {
    var key := NodeKey(track, f, id);
    if key in l.byNode then Some(l.byNode[key]) else None
  }

  lemma RegisterAt(l: Ledger, h: Handle, id: string)
    requires Named(h.track, h.flowID)
    ensures HandleAt(Register(l, h), h.track, h.flowID, id) ==
            if id == h.nodeID then Some(h) else HandleAt(l, h.track, h.flowID, id)
  {
    hide NodeKey, FlowKey, NulFree;
    if NodeKey(h.track, h.flowID, id) == HandleKey(h) {
      NodeKeyInjective(h.track, h.flowID, id, h.track, h.flowID, h.nodeID);
    }
  }

  /** The last receiver of a node id among the first `i` nodes. */
  function ReceiverOf(track: string, nodes: seq<Node>, i: nat, id: string): (r: Option<nat>)
    requires i <= |nodes|
    ensures r.Some? ==> r.value < i && Receives(track, nodes[r.value])
  {
    if i == 0 then None
    else if Receives(track, nodes[i - 1]) && nodes[i - 1].id == id then Some(i - 1)
    else ReceiverOf(track, nodes, i - 1, id)
  }

  /** The last sender of a node id that gets a handle, among the first `i` nodes. */
  function SenderOf(track: string, nodes: seq<Node>, active: set<string>, i: nat, id: string): (r: Option<nat>)
    requires i <= |nodes|
    ensures r.Some? ==> r.value < i && Sends(track, nodes[r.value], active)
  {
    if i == 0 then None
    else if Sends(track, nodes[i - 1], active) && nodes[i - 1].id == id then Some(i - 1)
    else SenderOf(track, nodes, active, i - 1, id)
  }

  lemma {:induction false} ReceiverOfIs(track: string, nodes: seq<Node>, i: nat, id: string)
    requires i <= |nodes|
    ensures match ReceiverOf(track, nodes, i, id)
            case None => forall a | 0 <= a < i && Receives(track, nodes[a]) :: nodes[a].id != id
            case Some(b) => nodes[b].id == id && forall a | b < a < i && Receives(track, nodes[a]) :: nodes[a].id != id
    decreases i
  {
    if i > 0 {
      ReceiverOfIs(track, nodes, i - 1, id);
    }
  }

  lemma {:induction false} SenderOfIs(track: string, nodes: seq<Node>, active: set<string>, i: nat, id: string)
    requires i <= |nodes|
    ensures match SenderOf(track, nodes, active, i, id)
            case None => forall a | 0 <= a < i && Sends(track, nodes[a], active) :: nodes[a].id != id
            case Some(b) =>
              nodes[b].id == id && forall a | b < a < i && Sends(track, nodes[a], active) :: nodes[a].id != id
    decreases i
  {
    if i > 0 {
      SenderOfIs(track, nodes, active, i - 1, id);
    }
  }

  lemma ReceiversAre(track: string, nodes: seq<Node>, id: string)
    ensures id in Receivers(track, nodes) <==> ReceiverOf(track, nodes, |nodes|, id).Some?
  {
    ReceiverOfIs(track, nodes, |nodes|, id);
    if id in Receivers(track, nodes) {
      var n :| n in nodes && Receives(track, n) && n.id == id;
      var a :| 0 <= a < |nodes| && nodes[a] == n;
    }
  }

  /** The handle of a receiver; `base` is the number of the first client the rebuild connects. */
  function ReceiverHandle(track: string, f: string, nodes: seq<Node>, i: nat, base: nat): Handle
    requires i < |nodes| && Receives(track, nodes[i])
  {
    Handle(track, f, nodes[i].id, In, base + ReceivedBefore(track, nodes, i), nodes[i].inCfg.value.topic, true, "")
  }

  function ReceiverAt(track: string, f: string, nodes: seq<Node>, i: nat, base: nat, id: string): Option<Handle>
    requires i <= |nodes|
  {
    match ReceiverOf(track, nodes, i, id)
    case None => None
    case Some(b) => Some(ReceiverHandle(track, f, nodes, b, base))
  }

  // ---- the first pass ----

  lemma {:induction false} FoldCat(p: Progress, track: string, f: string, a: seq<Act>, b: seq<Act>, dials: nat -> Dial)
    ensures Fold(p, track, f, a + b, dials) == Fold(Fold(p, track, f, a, dials), track, f, b, dials)
    decreases |a|
  {
    hide Step;
    if a == [] {
      assert a + b == b;
    } else if p.ok {
      assert (a + b)[0] == a[0] && (a + b)[1..] == a[1..] + b;
      FoldCat(Step(p, track, f, a[0], dials), track, f, a[1..], b, dials);
    }
  }

  lemma FoldOne(p: Progress, track: string, f: string, out: bool, nodes: seq<Node>, i: nat, dials: nat -> Dial)
    requires 0 < i <= |nodes|
    ensures var q := Fold(p, track, f, Pass(out, nodes)[..i - 1], dials);
            Fold(p, track, f, Pass(out, nodes)[..i], dials) ==
            if q.ok then Step(q, track, f, Act(out, nodes[i - 1]), dials) else q
  {
    hide Step;
    var act := Act(out, nodes[i - 1]);
    assert Pass(out, nodes)[..i] == Pass(out, nodes)[..i - 1] + [act];
    FoldCat(p, track, f, Pass(out, nodes)[..i - 1], [act], dials);
    var q := Fold(p, track, f, Pass(out, nodes)[..i - 1], dials);
    assert Fold(q, track, f, [act], dials) == if q.ok then Step(q, track, f, act, dials) else q by {
      assert [act][1..] == [];
    }
  }

  /** Before any action, nothing is tried and no node holds a handle on the track. */
  ghost predicate Fresh(p: Progress, track: string, f: string) {
    p.ok && p.n == 0 && p.active == {} && forall id :: HandleAt(p.l, track, f, id).None?
  }

  /** The state of a rebuild that has seen the first `i` receivers. */
  ghost predicate Received(q: Progress, track: string, f: string, nodes: seq<Node>, i: nat, base: nat)
    requires i <= |nodes|
  {
    && q.n == ReceivedBefore(track, nodes, i)
    && q.l.dialed == base + ReceivedBefore(track, nodes, i)
    && (forall id :: id in q.active <==> ReceiverOf(track, nodes, i, id).Some?)
    && (forall id :: HandleAt(q.l, track, f, id) == ReceiverAt(track, f, nodes, i, base, id))
  }

  lemma ReceiverStep(q: Progress, track: string, f: string, nodes: seq<Node>, i: nat, base: nat, dials: nat -> Dial)
    requires i < |nodes| && Named(track, f) && q.ok && Received(q, track, f, nodes, i, base)
    ensures var q' := Step(q, track, f, Act(false, nodes[i]), dials);
            && (q'.ok <==> ReceiverFits(track, nodes, i, dials))
            && (q'.ok ==> Received(q', track, f, nodes, i + 1, base))
  {
    hide NodeKey, FlowKey, NulFree, Register, HandleAt;
    var q' := Step(q, track, f, Act(false, nodes[i]), dials);
    if Receives(track, nodes[i]) {
      var h := ReceiverHandle(track, f, nodes, i, base);
      if q'.ok {
        assert q'.l == Register(Dialed(q.l), h);
        RegisterDials(Dialed(q.l), h);
        forall id ensures HandleAt(q'.l, track, f, id) == ReceiverAt(track, f, nodes, i + 1, base, id) {
          RegisterAt(Dialed(q.l), h, id);
          SameAt(q.l, Dialed(q.l), track, f, id);
        }
      }
    } else if q'.ok {
      assert q' == q;
    }
  }

  lemma RegisterDials(l: Ledger, h: Handle)
    ensures Register(l, h).dialed == l.dialed
  {
  }

  lemma SameAt(l: Ledger, l': Ledger, track: string, f: string, id: string)
    requires l'.byNode == l.byNode
    ensures HandleAt(l', track, f, id) == HandleAt(l, track, f, id)
  {
  }

  lemma {:induction false} ReceiverRun(p: Progress, track: string, f: string, nodes: seq<Node>, i: nat,
                                       dials: nat -> Dial)
    requires i <= |nodes| && Named(track, f) && Fresh(p, track, f)
    ensures var q := Fold(p, track, f, Pass(false, nodes)[..i], dials);
            && (q.ok <==> forall a | 0 <= a < i :: ReceiverFits(track, nodes, a, dials))
            && (q.ok ==> Received(q, track, f, nodes, i, p.l.dialed))
    decreases i
  {
    hide Named, HandleAt, Step, Fold, ReceiverFits;
    if i == 0 {
      NothingDone(p, track, f, false, nodes, dials);
    } else {
      ReceiverRun(p, track, f, nodes, i - 1, dials);
      FoldOne(p, track, f, false, nodes, i, dials);
      var q := Fold(p, track, f, Pass(false, nodes)[..i - 1], dials);
      if q.ok {
        ReceiverStep(q, track, f, nodes, i - 1, p.l.dialed, dials);
      }
    }
  }

  lemma NothingDone(p: Progress, track: string, f: string, out: bool, nodes: seq<Node>, dials: nat -> Dial)
    ensures Fold(p, track, f, Pass(out, nodes)[..0], dials) == p
  {
    assert Pass(out, nodes)[..0] == [];
  }

  // ---- the second pass ----

  /** The handle of a sender: a client of its own, or that of the receiver it borrows from. */
  function SenderHandle(track: string, f: string, nodes: seq<Node>, i: nat, base: nat): Handle
    requires i < |nodes| && Sends(track, nodes[i], Receivers(track, nodes))
  {
    var cfg := nodes[i].outCfg.value;
    if cfg.reuseFrom == "" then
      var c := base + ReceivedBefore(track, nodes, |nodes|) + KeptBefore(nodes, i);
      Handle(track, f, nodes[i].id, OutPersistent, c, "", true, "")
    else
      match ReceiverOf(track, nodes, |nodes|, cfg.reuseFrom)
      case None => Handle(track, f, nodes[i].id, OutReuse, base, "", false, cfg.reuseFrom)
      case Some(b) =>
        Handle(track, f, nodes[i].id, OutReuse, base + ReceivedBefore(track, nodes, b), "", false, cfg.reuseFrom)
  }

  function FinalAt(track: string, f: string, nodes: seq<Node>, i: nat, base: nat, id: string): Option<Handle>
    requires i <= |nodes|
  {
    match SenderOf(track, nodes, Receivers(track, nodes), i, id)
    case Some(a) => Some(SenderHandle(track, f, nodes, a, base))
    case None => ReceiverAt(track, f, nodes, |nodes|, base, id)
  }

  /** The state of a rebuild that has seen all receivers and the first `i` senders. */
  ghost predicate Sent(q: Progress, track: string, f: string, nodes: seq<Node>, i: nat, base: nat)
    requires i <= |nodes|
  {
    && q.n == ReceivedBefore(track, nodes, |nodes|) + TriedBefore(track, nodes, Receivers(track, nodes), i)
    && q.l.dialed == base + ReceivedBefore(track, nodes, |nodes|) + KeptBefore(nodes, i)
    && q.active == Receivers(track, nodes)
    && (forall id :: HandleAt(q.l, track, f, id) == FinalAt(track, f, nodes, i, base, id))
  }

  /** A node can lend exactly when it holds a receiver's handle. */
  lemma LendsIs(q: Progress, track: string, f: string, nodes: seq<Node>, i: nat, base: nat, id: string)
    requires i <= |nodes| && Sent(q, track, f, nodes, i, base)
    ensures var h := HandleAt(q.l, track, f, id);
            && (Lends(track, nodes, i, id) <==> h.Some? && h.value.kind == In)
            && (Lends(track, nodes, i, id) ==> h == ReceiverAt(track, f, nodes, |nodes|, base, id))
  {
    hide HandleAt, Receivers, ReceivedBefore, TriedBefore, KeptBefore, ReceiverOf, SenderOf;
    ReceiversAre(track, nodes, id);
    SenderOfIs(track, nodes, Receivers(track, nodes), i, id);
  }

  lemma SenderStep(q: Progress, track: string, f: string, nodes: seq<Node>, i: nat, base: nat, dials: nat -> Dial)
    requires i < |nodes| && Named(track, f) && q.ok && Sent(q, track, f, nodes, i, base)
    ensures var q' := Step(q, track, f, Act(true, nodes[i]), dials);
            && (q'.ok <==> SenderFits(track, nodes, i, dials))
            && (q'.ok ==> Sent(q', track, f, nodes, i + 1, base))
  {
    hide NulFree, FlowKey, Register, Receivers, Lends, ReceiverOf, ReceiverAt;
    var q' := Step(q, track, f, Act(true, nodes[i]), dials);
    var active := Receivers(track, nodes);
    if Tries(track, nodes[i], active) {
      var cfg := nodes[i].outCfg.value;
      if cfg.reuseFrom != "" {
        hide NodeKey;
        LendsIs(q, track, f, nodes, i, base, cfg.reuseFrom);
        if q'.ok {
          SenderBorrows(q, q', track, f, nodes, i, base);
        }
      } else if cfg.persistent && q'.ok {
        hide NodeKey, HandleAt;
        var h := SenderHandle(track, f, nodes, i, base);
        assert q'.l == Register(Dialed(q.l), h);
        RegisterDials(Dialed(q.l), h);
        forall id ensures HandleAt(q'.l, track, f, id) == FinalAt(track, f, nodes, i + 1, base, id) {
          RegisterAt(Dialed(q.l), h, id);
          SameAt(q.l, Dialed(q.l), track, f, id);
        }
      }
    } else if q'.ok {
      assert q' == q;
    }
  }

  lemma SenderBorrows(q: Progress, q': Progress, track: string, f: string, nodes: seq<Node>, i: nat, base: nat)
    requires i < |nodes| && Named(track, f) && Sent(q, track, f, nodes, i, base)
    requires Tries(track, nodes[i], Receivers(track, nodes)) && nodes[i].outCfg.value.reuseFrom != ""
    requires Lends(track, nodes, i, nodes[i].outCfg.value.reuseFrom)
    requires var from := HandleAt(q.l, track, f, nodes[i].outCfg.value.reuseFrom);
             && from.Some?
             && q' == Progress(Register(q.l, Handle(track, f, nodes[i].id, OutReuse, from.value.client, "", false,
                                                    nodes[i].outCfg.value.reuseFrom)),
                               q.n + 1, q.active, true)
    ensures Sent(q', track, f, nodes, i + 1, base)
  {
    hide NodeKey, FlowKey, NulFree, Register, HandleAt, Receivers, Lends;
    var r := nodes[i].outCfg.value.reuseFrom;
    LendsIs(q, track, f, nodes, i, base, r);
    var h := SenderHandle(track, f, nodes, i, base);
    assert q'.l == Register(q.l, h);
    RegisterDials(q.l, h);
    forall id ensures HandleAt(q'.l, track, f, id) == FinalAt(track, f, nodes, i + 1, base, id) {
      RegisterAt(q.l, h, id);
    }
  }

  lemma {:induction false} SenderRun(p: Progress, track: string, f: string, nodes: seq<Node>, i: nat, base: nat,
                                     dials: nat -> Dial)
    requires i <= |nodes| && Named(track, f) && p.ok && Sent(p, track, f, nodes, 0, base)
    ensures var q := Fold(p, track, f, Pass(true, nodes)[..i], dials);
            && (q.ok <==> forall a | 0 <= a < i :: SenderFits(track, nodes, a, dials))
            && (q.ok ==> Sent(q, track, f, nodes, i, base))
    decreases i
  {
    hide Named, Sent, Step, Fold, SenderFits;
    if i == 0 {
      NothingDone(p, track, f, true, nodes, dials);
    } else {
      SenderRun(p, track, f, nodes, i - 1, base, dials);
      FoldOne(p, track, f, true, nodes, i, dials);
      var q := Fold(p, track, f, Pass(true, nodes)[..i - 1], dials);
      if q.ok {
        SenderStep(q, track, f, nodes, i - 1, base, dials);
      }
    }
  }

  // ---- a whole rebuild ----

  lemma PassesMeet(q: Progress, track: string, f: string, nodes: seq<Node>, base: nat)
    requires Received(q, track, f, nodes, |nodes|, base)
    ensures Sent(q, track, f, nodes, 0, base)
  {
    hide HandleAt, ReceiverAt, Receivers, ReceiverOf;
    forall id ensures id in q.active <==> id in Receivers(track, nodes) {
      ReceiversAre(track, nodes, id);
    }
  }

  lemma PassWhole(out: bool, nodes: seq<Node>)
    ensures Pass(out, nodes)[..|nodes|] == Pass(out, nodes)
    ensures Acts(nodes) == Pass(false, nodes) + Pass(true, nodes)
  {
  }

  lemma BothPasses(p: Progress, track: string, f: string, nodes: seq<Node>, dials: nat -> Dial)
    requires Named(track, f) && Fresh(p, track, f)
    ensures var q := Fold(p, track, f, Acts(nodes), dials);
            && (q.ok <==> forall i | 0 <= i < |nodes| ::
                            ReceiverFits(track, nodes, i, dials) && SenderFits(track, nodes, i, dials))
            && (q.ok ==> Sent(q, track, f, nodes, |nodes|, p.l.dialed))
  {
    hide Named, Fresh, Received, Sent, Step, Fold, ReceiverFits, SenderFits;
    PassWhole(false, nodes);
    PassWhole(true, nodes);
    FoldCat(p, track, f, Pass(false, nodes), Pass(true, nodes), dials);
    ReceiverRun(p, track, f, nodes, |nodes|, dials);
    var q := Fold(p, track, f, Pass(false, nodes), dials);
    if q.ok {
      PassesMeet(q, track, f, nodes, p.l.dialed);
      SenderRun(q, track, f, nodes, |nodes|, p.l.dialed, dials);
    } else {
      FailedStays(q, track, f, Pass(true, nodes), dials);
    }
  }

  lemma FailedStays(q: Progress, track: string, f: string, acts: seq<Act>, dials: nat -> Dial)
    requires !q.ok
    ensures Fold(q, track, f, acts, dials) == q
  {
  }

  lemma RemovedIsFresh(l: Ledger, track: string, f: string)
    requires Core(l) && Named(track, f)
    ensures Fresh(Progress(RemoveTrack(l, track, f), 0, {}, true), track, f)
    ensures RemoveTrack(l, track, f).dialed == l.dialed
  {
    hide Core, NodeKey, NulFree, Leaked, StopAll;
    RemoveTrackEffect(l, track, f);
    EmptyTrackHasNoKey(RemoveTrack(l, track, f), track, f);
    var l0 := l.(byFlow := l.byFlow - {FlowKey(track, f)});
    assert Accounted(l0) by {
      CoreAccounts(l);
      SameBooks(l, l0);
    }
    StopAllKeeps(l0, KeysOf(l, FlowKey(track, f)));
  }

  lemma CoreAccounts(l: Ledger)
    requires Core(l)
    ensures Accounted(l)
  {
  }

  /**
   * A rebuild succeeds if and only if every receiver and sender parses, the network accepts every receiver and every
   * sender that keeps a client, and every sender that borrows names a node that then holds a receiver's client. What
   * the ledger held before does not matter.
   */
  lemma SyncSucceedsExactly(l: Ledger, track: string, f: string, dsl: Dsl, dials: nat -> Dial)
    requires Core(l) && Named(track, f)
    ensures SyncTrack(l, track, f, dsl, dials).1 <==> Mountable(track, dsl, dials)
  {
    hide Core, Named, Fresh, Sent, Fold, RemoveTrack, Acts, ReceiverFits, SenderFits;
    RemovedIsFresh(l, track, f);
    BothPasses(Progress(RemoveTrack(l, track, f), 0, {}, true), track, f, dsl.nodes, dials);
  }

  // ---- the handles after a rebuild ----

  /** Receiver `i` has the last word on its node: no later receiver and no sender registers the same id. */
  ghost predicate FinalReceiver(track: string, nodes: seq<Node>, i: int) {
    && 0 <= i < |nodes| && Receives(track, nodes[i])
    && (forall a | i < a < |nodes| && Receives(track, nodes[a]) :: nodes[a].id != nodes[i].id)
    && (forall a | 0 <= a < |nodes| && Sends(track, nodes[a], Receivers(track, nodes)) :: nodes[a].id != nodes[i].id)
  }

  ghost predicate FinalSender(track: string, nodes: seq<Node>, i: int) {
    && 0 <= i < |nodes| && Sends(track, nodes[i], Receivers(track, nodes))
    && (forall a | i < a < |nodes| && Sends(track, nodes[a], Receivers(track, nodes)) :: nodes[a].id != nodes[i].id)
  }

  ghost predicate LastReceiver(track: string, nodes: seq<Node>, b: int, id: string) {
    && 0 <= b < |nodes| && Receives(track, nodes[b]) && nodes[b].id == id
    && (forall a | b < a < |nodes| && Receives(track, nodes[a]) :: nodes[a].id != id)
  }

  lemma SentAfterSync(l: Ledger, track: string, f: string, dsl: Dsl, dials: nat -> Dial)
    requires Core(l) && Named(track, f) && SyncTrack(l, track, f, dsl, dials).1
    ensures var l' := SyncTrack(l, track, f, dsl, dials).0;
            && l'.dialed == l.dialed + ReceivedBefore(track, dsl.nodes, |dsl.nodes|)
                            + KeptBefore(dsl.nodes, |dsl.nodes|)
            && forall id :: HandleAt(l', track, f, id) ==
                            FinalAt(track, f, dsl.nodes, |dsl.nodes|, l.dialed, id)
  {
    hide Core, Named, Fresh, Fold, RemoveTrack, Acts, ReceiverFits, SenderFits, HandleAt;
    RemovedIsFresh(l, track, f);
    BothPasses(Progress(RemoveTrack(l, track, f), 0, {}, true), track, f, dsl.nodes, dials);
  }

  /**
   * After a successful rebuild a receiver's node holds the client connected for it, subscribed to its topic; a sender's
   * node holds a client of its own, or the very client of the receiver it borrows from, which it does not own. Clients
   * are connected in order: receivers first, then senders that keep one.
   */
  lemma RebuiltHandles(l: Ledger, track: string, f: string, dsl: Dsl, dials: nat -> Dial, i: int)
    requires Core(l) && Named(track, f) && SyncTrack(l, track, f, dsl, dials).1
    ensures var l' := SyncTrack(l, track, f, dsl, dials).0;
            var nodes := dsl.nodes;
            && (FinalReceiver(track, nodes, i) ==>
                  HandleAt(l', track, f, nodes[i].id) ==
                  Some(Handle(track, f, nodes[i].id, In, l.dialed + ReceivedBefore(track, nodes, i),
                              nodes[i].inCfg.value.topic, true, "")))
            && (FinalSender(track, nodes, i) && nodes[i].outCfg.value.reuseFrom == "" ==>
                  HandleAt(l', track, f, nodes[i].id) ==
                  Some(Handle(track, f, nodes[i].id, OutPersistent,
                              l.dialed + ReceivedBefore(track, nodes, |nodes|) + KeptBefore(nodes, i), "", true, "")))
            && (FinalSender(track, nodes, i) && nodes[i].outCfg.value.reuseFrom != "" ==>
                  forall b | LastReceiver(track, nodes, b, nodes[i].outCfg.value.reuseFrom) ::
                    HandleAt(l', track, f, nodes[i].id) ==
                    Some(Handle(track, f, nodes[i].id, OutReuse, l.dialed + ReceivedBefore(track, nodes, b), "", false,
                                nodes[i].outCfg.value.reuseFrom)))
  {
    hide Core, Named, HandleAt, SyncTrack, ReceivedBefore, KeptBefore, ReceiverOf, SenderOf, Receivers;
    SentAfterSync(l, track, f, dsl, dials);
    var nodes, active := dsl.nodes, Receivers(track, dsl.nodes);
    if 0 <= i < |nodes| {
      SenderOfIs(track, nodes, active, |nodes|, nodes[i].id);
      ReceiverOfIs(track, nodes, |nodes|, nodes[i].id);
      if FinalSender(track, nodes, i) {
        ReceiverOfIs(track, nodes, |nodes|, nodes[i].outCfg.value.reuseFrom);
      }
    }
  }

  /**
   * In particular a DSL goes up when it parses, no two nodes share an id, each borrowing sender names a receiver that
   * the track mounts, and the broker accepts every client.
   */
  lemma ProperDslMounts(track: string, dsl: Dsl, dials: nat -> Dial)
    requires forall n | n in dsl.nodes ::
      (n.MqttInNode? ==> n.inCfg.Some?) && (n.MqttOutNode? ==> n.outCfg.Some?)
    requires forall i, j | 0 <= i < j < |dsl.nodes| :: dsl.nodes[i].id != dsl.nodes[j].id
    requires forall n | n in dsl.nodes && n.MqttOutNode? && n.outCfg.value.reuseFrom != "" ::
      exists r :: r in dsl.nodes && Receives(track, r) && r.id == n.outCfg.value.reuseFrom
    requires forall n :: dials(n) == Connects
    ensures Mountable(track, dsl, dials)
  {
    hide ReceivedBefore, TriedBefore;
    forall i | 0 <= i < |dsl.nodes|
      ensures ReceiverFits(track, dsl.nodes, i, dials) && SenderFits(track, dsl.nodes, i, dials)
    {
      var node := dsl.nodes[i];
      assert node in dsl.nodes;
      if node.MqttOutNode? && node.outCfg.value.reuseFrom != "" {
        var r :| r in dsl.nodes && Receives(track, r) && r.id == node.outCfg.value.reuseFrom;
        var b :| 0 <= b < |dsl.nodes| && dsl.nodes[b] == r;
      }
    }
  }

  /** A sender that borrows from a receiver later in the same DSL works: receivers are mounted first. */
  lemma ReceiversComeFirst(f: string, a: string, b: string, topic: string, dials: nat -> Dial)
    requires a != b && a != "" && dials(0) == Connects
    ensures Mountable(PUBLISHED, Dsl(f, "", [MqttOutNode(a, Some(OutConfig(true, b, false))),
                                             MqttInNode(b, Some(InConfig(topic, false)))]), dials)
  {
    var nodes := [MqttOutNode(a, Some(OutConfig(true, b, false))), MqttInNode(b, Some(InConfig(topic, false)))];
    assert nodes[1] in nodes && Receives(PUBLISHED, nodes[1]);
    assert ReceivedBefore(PUBLISHED, nodes, 1) == 0;
    assert Lends(PUBLISHED, nodes, 0, b);
  }

  // ---- the handles of a DSL, wherever they come from ----

  /** The published track of a flow holds the handles that a rebuild of a DSL files, clients numbered from `base`. */
  ghost predicate FiledFrom(l: Ledger, f: string, dsl: Dsl, base: nat) {
    forall id :: HandleAt(l, PUBLISHED, f, id) == FinalAt(PUBLISHED, f, dsl.nodes, |dsl.nodes|, base, id)
  }

  ghost predicate FiledAs(l: Ledger, f: string, dsl: Dsl) {
    exists base :: FiledFrom(l, f, dsl, base)
  }

  lemma RebuiltIsFiled(l: Ledger, f: string, dsl: Dsl, dials: nat -> Dial)
    requires Core(l) && NulFree(f) && f != "" && SyncTrack(l, PUBLISHED, f, dsl, dials).1
    ensures FiledAs(SyncTrack(l, PUBLISHED, f, dsl, dials).0, f, dsl)
  {
    hide Core, NulFree, SyncTrack, HandleAt;
    SentAfterSync(l, PUBLISHED, f, dsl, dials);
    assert FiledFrom(SyncTrack(l, PUBLISHED, f, dsl, dials).0, f, dsl, l.dialed);
  }

  /** Whatever happens on another track leaves the handles of this one alone. */
  lemma OtherTrackAt(l: Ledger, l': Ledger, track: string, f: string, t: string, g: string, id: string)
    requires Core(l) && Core(l') && OffTrack(l'.byNode, track, f) == OffTrack(l.byNode, track, f)
    requires IsTrack(t) && NulFree(g) && (t != track || g != f)
    ensures HandleAt(l', t, g, id) == HandleAt(l, t, g, id)
  {
    hide NodeKey, Accounted, NulFree;
    var key := NodeKey(t, g, id);
    if key in l.byNode {
      assert Filed(l, key);
      NodeKeyInjective(t, g, id, l.byNode[key].track, l.byNode[key].flowID, l.byNode[key].nodeID);
      assert key in OffTrack(l.byNode, track, f);
    }
    if key in l'.byNode {
      assert Filed(l', key);
      NodeKeyInjective(t, g, id, l'.byNode[key].track, l'.byNode[key].flowID, l'.byNode[key].nodeID);
      assert key in OffTrack(l'.byNode, track, f);
    }
  }

  lemma StaysFiled(l: Ledger, l': Ledger, track: string, f: string, g: string, dsl: Dsl)
    requires Core(l) && Core(l') && OffTrack(l'.byNode, track, f) == OffTrack(l.byNode, track, f)
    requires NulFree(g) && (track != PUBLISHED || g != f) && FiledAs(l, g, dsl)
    ensures FiledAs(l', g, dsl)
  {
    hide Core, HandleAt, FinalAt, NulFree, OffTrack;
    var base :| FiledFrom(l, g, dsl, base);
    forall id ensures HandleAt(l', PUBLISHED, g, id) == HandleAt(l, PUBLISHED, g, id) {
      OtherTrackAt(l, l', track, f, PUBLISHED, g, id);
    }
    assert FiledFrom(l', g, dsl, base);
  }

  /** Sender `i` borrows from receiver `b`, and no later node replaces either. */
  ghost predicate Borrows(nodes: seq<Node>, i: int, b: int) {
    && FinalSender(PUBLISHED, nodes, i) && FinalReceiver(PUBLISHED, nodes, b)
    && nodes[i].outCfg.value.reuseFrom != "" && nodes[b].id == nodes[i].outCfg.value.reuseFrom
  }

  /**
   * Each receiver of a DSL that no later node replaces is subscribed to its topic with a client of its own, which is
   * connected; each sender that borrows from such a receiver holds that very client.
   */
  ghost predicate Subscribed(l: Ledger, f: string, dsl: Dsl) {
    && (forall i | FinalReceiver(PUBLISHED, dsl.nodes, i) ::
          var h := HandleAt(l, PUBLISHED, f, dsl.nodes[i].id);
          && h.Some? && h.value.kind == In && h.value.owned && h.value.topic == dsl.nodes[i].inCfg.value.topic
          && h.value.client in l.connected)
    && (forall i, b | Borrows(dsl.nodes, i, b) ::
          var h, lender := HandleAt(l, PUBLISHED, f, dsl.nodes[i].id), HandleAt(l, PUBLISHED, f, dsl.nodes[b].id);
          h.Some? && lender.Some? && !h.value.owned && h.value.client == lender.value.client)
  }

  lemma FinalReceiverAt(l: Ledger, f: string, dsl: Dsl, base: nat, i: int)
    requires FiledFrom(l, f, dsl, base) && FinalReceiver(PUBLISHED, dsl.nodes, i)
    ensures HandleAt(l, PUBLISHED, f, dsl.nodes[i].id) == Some(ReceiverHandle(PUBLISHED, f, dsl.nodes, i, base))
  {
    hide HandleAt, ReceivedBefore, Receivers;
    var nodes := dsl.nodes;
    SenderOfIs(PUBLISHED, nodes, Receivers(PUBLISHED, nodes), |nodes|, nodes[i].id);
    ReceiverOfIs(PUBLISHED, nodes, |nodes|, nodes[i].id);
  }

  lemma FinalSenderAt(l: Ledger, f: string, dsl: Dsl, base: nat, i: int)
    requires FiledFrom(l, f, dsl, base) && FinalSender(PUBLISHED, dsl.nodes, i)
    ensures HandleAt(l, PUBLISHED, f, dsl.nodes[i].id) == Some(SenderHandle(PUBLISHED, f, dsl.nodes, i, base))
  {
    hide HandleAt, ReceivedBefore, Receivers, SenderHandle;
    var nodes := dsl.nodes;
    SenderOfIs(PUBLISHED, nodes, Receivers(PUBLISHED, nodes), |nodes|, nodes[i].id);
  }

  lemma FiledIsSubscribed(l: Ledger, f: string, dsl: Dsl)
    requires Core(l) && FiledAs(l, f, dsl)
    ensures Subscribed(l, f, dsl)
  {
    hide HandleAt, FiledFrom, FinalReceiver, Borrows, SenderHandle, ReceiverHandle, Receivers, Receives, Sends;
    hide ReceivedBefore, Core;
    var base :| FiledFrom(l, f, dsl, base);
    forall i | FinalReceiver(PUBLISHED, dsl.nodes, i)
      ensures 0 <= i < |dsl.nodes| && dsl.nodes[i].MqttInNode? && dsl.nodes[i].inCfg.Some?
      ensures var h := HandleAt(l, PUBLISHED, f, dsl.nodes[i].id);
              && h.Some? && h.value.kind == In && h.value.owned && h.value.topic == dsl.nodes[i].inCfg.value.topic
              && h.value.client in l.connected
    {
      FinalIn(dsl.nodes, i);
      ReceiverSubscribed(l, f, dsl, base, i);
    }
    forall i, b | Borrows(dsl.nodes, i, b)
      ensures 0 <= i < |dsl.nodes| && 0 <= b < |dsl.nodes|
      ensures var h, lender := HandleAt(l, PUBLISHED, f, dsl.nodes[i].id), HandleAt(l, PUBLISHED, f, dsl.nodes[b].id);
              h.Some? && lender.Some? && !h.value.owned && h.value.client == lender.value.client
    {
      BorrowsIn(dsl.nodes, i, b);
      SenderBorrowed(l, f, dsl, base, i, b);
    }
  }

  lemma BorrowsIn(nodes: seq<Node>, i: int, b: int)
    requires Borrows(nodes, i, b)
    ensures 0 <= i < |nodes| && 0 <= b < |nodes|
  {
  }

  lemma ReceiverSubscribed(l: Ledger, f: string, dsl: Dsl, base: nat, i: int)
    requires Core(l) && FiledFrom(l, f, dsl, base) && FinalReceiver(PUBLISHED, dsl.nodes, i)
    ensures var h := HandleAt(l, PUBLISHED, f, dsl.nodes[i].id);
            && h.Some? && h.value.kind == In && h.value.owned && h.value.topic == dsl.nodes[i].inCfg.value.topic
            && h.value.client in l.connected
  {
    hide ReceivedBefore, NodeKey, Filed, FiledFrom;
    FinalReceiverAt(l, f, dsl, base, i);
    assert Owns(l, NodeKey(PUBLISHED, f, dsl.nodes[i].id));
  }

  lemma SenderBorrowed(l: Ledger, f: string, dsl: Dsl, base: nat, i: int, b: int)
    requires FiledFrom(l, f, dsl, base) && Borrows(dsl.nodes, i, b)
    ensures var h, lender := HandleAt(l, PUBLISHED, f, dsl.nodes[i].id), HandleAt(l, PUBLISHED, f, dsl.nodes[b].id);
            h.Some? && lender.Some? && !h.value.owned && h.value.client == lender.value.client
  {
    hide HandleAt, ReceivedBefore, FiledFrom, Receivers;
    FinalReceiverAt(l, f, dsl, base, b);
    FinalSenderAt(l, f, dsl, base, i);
    ReceiverOfIs(PUBLISHED, dsl.nodes, |dsl.nodes|, dsl.nodes[b].id);
  }

  lemma FinalIn(nodes: seq<Node>, i: int)
    ensures FinalReceiver(PUBLISHED, nodes, i) ==>
      0 <= i < |nodes| && nodes[i].MqttInNode? && nodes[i].inCfg.Some?
    ensures FinalSender(PUBLISHED, nodes, i) ==> 0 <= i < |nodes| && nodes[i].MqttOutNode? && nodes[i].outCfg.Some?
  {
  }

  // ---- the publisher pool ----

  lemma OnTrackAt(l: Ledger, track: string, f: string, n: string)
    requires Core(l) && Named(track, f)
    ensures n in TrackNodes(l.byNode, track, f) <==> HandleAt(l, track, f, n).Some?
  {
    hide NodeKey, Accounted, NulFree;
    var key := NodeKey(track, f, n);
    if key in l.byNode {
      assert Filed(l, key);
      var h := l.byNode[key];
      NodeKeyInjective(track, f, n, h.track, h.flowID, h.nodeID);
    }
    if n in TrackNodes(l.byNode, track, f) {
      var k :| k in l.byNode && OnTrack(l.byNode[k], track, f) && l.byNode[k].nodeID == n;
      assert Filed(l, k);
    }
  }

  /** The publisher pool finds the client of a node that holds one, on the published track first, and no other. */
  lemma PublisherFinds(l: Ledger, f: string, n: string)
    requires Core(l) && NulFree(f) && f != "" && n != ""
    ensures var published, draft := HandleAt(l, PUBLISHED, f, n), HandleAt(l, DRAFT, f, n);
            && (n in TrackNodes(l.byNode, PUBLISHED, f) ==>
                  published.Some? && Publisher(l, f, n) == Some(published.value.client))
            && (n !in TrackNodes(l.byNode, PUBLISHED, f) && n in TrackNodes(l.byNode, DRAFT, f) ==>
                  draft.Some? && Publisher(l, f, n) == Some(draft.value.client))
            && (n !in TrackNodes(l.byNode, PUBLISHED, f) && n !in TrackNodes(l.byNode, DRAFT, f) ==>
                  Publisher(l, f, n) == None)
  {
    hide NodeKey, Core, NulFree, TrackNodes;
    OnTrackAt(l, PUBLISHED, f, n);
    OnTrackAt(l, DRAFT, f, n);
  }

  /**
   * Once a flow's published track has been rebuilt, asking the pool for a sender that borrows gives the very client
   * that its receiver subscribes with, and for a receiver or a sender with a client of its own, that client.
   */
  lemma PublisherAfterRebuild(l: Ledger, f: string, dsl: Dsl, dials: nat -> Dial, i: int, b: int)
    requires Core(l) && NulFree(f) && f != "" && SyncTrack(l, PUBLISHED, f, dsl, dials).1
    requires 0 <= i < |dsl.nodes| && dsl.nodes[i].id != ""
    ensures var p := Publisher(SyncTrack(l, PUBLISHED, f, dsl, dials).0, f, dsl.nodes[i].id);
            var nodes := dsl.nodes;
            && (FinalReceiver(PUBLISHED, nodes, i) ==> p == Some(l.dialed + ReceivedBefore(PUBLISHED, nodes, i)))
            && (FinalSender(PUBLISHED, nodes, i) && nodes[i].outCfg.value.reuseFrom == "" ==>
                  p == Some(l.dialed + ReceivedBefore(PUBLISHED, nodes, |nodes|) + KeptBefore(nodes, i)))
            && (FinalSender(PUBLISHED, nodes, i) && nodes[i].outCfg.value.reuseFrom != ""
                && LastReceiver(PUBLISHED, nodes, b, nodes[i].outCfg.value.reuseFrom) ==>
                  p == Some(l.dialed + ReceivedBefore(PUBLISHED, nodes, b)))
  {
    hide Core, NulFree, SyncTrack, ReceivedBefore, KeptBefore, FinalReceiver, FinalSender, NodeKey;
    RebuiltHandles(l, PUBLISHED, f, dsl, dials, i);
    FinalIn(dsl.nodes, i);
  }
}
