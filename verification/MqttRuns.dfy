/** The MQTT ledger over whole runs: conservation of clients and live reuse. */
module MqttRuns {
  import opened Prelude
  import opened FlowDsl
  import opened MqttKeys
  import opened MqttLedger
  import opened MqttTracks
  import opened MqttMounts
  import opened Restart

  /** The receiver whose client a reusing sender borrows. */
  ghost predicate BorrowsLive(l: Ledger, h: Handle) {
    var key := NodeKey(h.track, h.flowID, h.reuseOf);
    && key in l.byNode
    && l.byNode[key].kind == In
    && l.byNode[key].owned
    && l.byNode[key].client == h.client
    && OnTrack(l.byNode[key], h.track, h.flowID)
  }

  ghost predicate Reuse(l: Ledger) {
    forall key | key in l.byNode ::
      && (l.byNode[key].owned <==> l.byNode[key].kind != OutReuse)
      && (l.byNode[key].kind == OutReuse ==> BorrowsLive(l, l.byNode[key]))
  }

  ghost predicate Inv(l: Ledger) {
    Core(l) && Leaked(l) == {} && Reuse(l)
  }

  /** A handle filed over no owner keeps every borrowed client where it was. */
  lemma RegisterReuse(l: Ledger, l1: Ledger, h: Handle)
    requires Reuse(l) && !Owns(l, HandleKey(h)) && l1.byNode == l.byNode
    requires (h.owned <==> h.kind != OutReuse) && (h.kind == OutReuse ==> BorrowsLive(l, h))
    ensures Reuse(Register(l1, h))
  {
    hide NodeKey;
    var l' := Register(l1, h);
    forall key | key in l'.byNode && l'.byNode[key].kind == OutReuse ensures BorrowsLive(l', l'.byNode[key]) {
      assert BorrowsLive(l, l'.byNode[key]);
    }
  }

  lemma StepReuse(p: Progress, track: string, f: string, act: Act, dials: nat -> Dial, held: set<string>)
    requires Core(p.l) && Reuse(p.l) && Named(track, f) && p.ok && HeldIs(p.l, track, f, held)
    requires RegOf(act, track, p.active).Some? ==> RegOf(act, track, p.active).value.id !in held
    ensures Reuse(Step(p, track, f, act, dials).l)
  {
    hide NodeKey, Core, BorrowsLive, Named;
    var p' := Step(p, track, f, act, dials);
    if RegOf(act, track, p.active).Some? {
      var id := RegOf(act, track, p.active).value.id;
      assert !Owns(p.l, NodeKey(track, f, id));
      if act.out && act.node.outCfg.value.reuseFrom != "" {
        var cfg := act.node.outCfg.value;
        var key := NodeKey(track, f, cfg.reuseFrom);
        if key in p.l.byNode && p.l.byNode[key].kind == In {
          var h := Handle(track, f, id, OutReuse, p.l.byNode[key].client, "", false, cfg.reuseFrom);
          assert BorrowsLive(p.l, h) by {
            KeyTrack(p.l, track, f, cfg.reuseFrom, id);
          }
          RegisterReuse(p.l, p.l, h);
        }
      } else if act.out {
        RegisterReuse(p.l, Dialed(p.l), Handle(track, f, id, OutPersistent, p.l.dialed, "", true, ""));
      } else {
        RegisterReuse(p.l, Dialed(p.l), Handle(track, f, id, In, p.l.dialed, act.node.inCfg.value.topic, true, ""));
        assert HungUp(Dialed(p.l), p.l.dialed).byNode == p.l.byNode;
        SameHandles(p.l, HungUp(Dialed(p.l), p.l.dialed));
      }
    } else {
      assert p'.l == p.l;
    }
  }

  lemma SameHandles(l: Ledger, l': Ledger)
    requires Reuse(l) && l'.byNode == l.byNode
    ensures Reuse(l')
  {
    forall key | key in l'.byNode && l'.byNode[key].kind == OutReuse ensures BorrowsLive(l', l'.byNode[key]) {
      assert BorrowsLive(l, l.byNode[key]);
    }
  }

  lemma KeyTrack(l: Ledger, track: string, f: string, id: string, n: string)
    requires Core(l) && Reuse(l) && Named(track, f) && NodeKey(track, f, id) in l.byNode
    ensures OnTrack(l.byNode[NodeKey(track, f, id)], track, f)
    ensures var h := l.byNode[NodeKey(track, f, id)]; h.kind == In ==>
        BorrowsLive(l, Handle(track, f, n, OutReuse, h.client, "", false, id))
  {
    hide NodeKey, Accounted;
    var key := NodeKey(track, f, id);
    assert Filed(l, key);
    var h := l.byNode[key];
    NodeKeyInjective(track, f, id, h.track, h.flowID, h.nodeID);
  }

  lemma {:induction false} FoldReuse(p: Progress, track: string, f: string, acts: seq<Act>, dials: nat -> Dial,
                                     held: set<string>)
    requires Core(p.l) && Reuse(p.l) && Named(track, f) && p.ok && HeldIs(p.l, track, f, held)
    requires !Spills(held, Regs(acts, track, p.active))
    ensures Reuse(Fold(p, track, f, acts, dials).l)
    decreases |acts|
  {
    hide Core, Reuse, NodeKey, Step, HeldIs, RegOf, ActiveAfter, Named;
    if acts != [] {
      var p1 := Step(p, track, f, acts[0], dials);
      var rest := Regs(acts[1..], track, ActiveAfter(acts[0], track, p.active));
      var regs := Regs(acts, track, p.active);
      StepEffect(p, track, f, acts[0], dials, {});
      match RegOf(acts[0], track, p.active) {
        case None =>
          assert regs == rest;
          StepReuse(p, track, f, acts[0], dials, held);
          if p1.ok {
            StepHeld(p, track, f, acts[0], dials, held);
            FoldReuse(p1, track, f, acts[1..], dials, held);
          }
        case Some(r) =>
          assert regs[0] == r && regs[1..] == rest;
          StepReuse(p, track, f, acts[0], dials, held);
          if p1.ok {
            StepHeld(p, track, f, acts[0], dials, held);
            FoldReuse(p1, track, f, acts[1..], dials, if r.owned then held + {r.id} else held);
          }
      }
    }
  }

  /** Dropping a track drops borrowers together with the receivers they borrow from. */
  lemma RemoveTrackInv(l: Ledger, track: string, f: string)
    requires Core(l) && Reuse(l) && IsTrack(track) && f != ""
    ensures Reuse(RemoveTrack(l, track, f))
  {
    hide Core, NodeKey, RemoveTrack, Leaked;
    RemoveTrackEffect(l, track, f);
    var l' := RemoveTrack(l, track, f);
    forall key | key in l'.byNode && l'.byNode[key].kind == OutReuse ensures BorrowsLive(l', l'.byNode[key]) {
      assert BorrowsLive(l, l.byNode[key]);
    }
  }

  /** Rebuilding a track on which no node id repeats that of an owner keeps the whole invariant, failing or not. */
  lemma SyncTrackInv(l: Ledger, track: string, f: string, dsl: Dsl, dials: nat -> Dial)
    requires Inv(l) && Named(track, f) && !RepeatsOwner(TrackRegs(track, dsl))
    ensures Inv(SyncTrack(l, track, f, dsl, dials).0)
  {
    hide Core, Leaked, Reuse, Fold, Regs, RemoveTrack, Acts, RepeatsOwner, Spills, HeldIs;
    var l0 := RemoveTrack(l, track, f);
    RemoveTrackEffect(l, track, f);
    RemoveTrackInv(l, track, f);
    EmptyTrackHolds(l0, track, f);
    SpillsIs({}, TrackRegs(track, dsl));
    var p := Progress(l0, 0, {}, true);
    FoldReuse(p, track, f, Acts(dsl.nodes), dials, {});
    SyncTrackEffect(l, track, f, dsl, dials);
    var p' := Fold(p, track, f, Acts(dsl.nodes), dials);
    FoldCore(p, track, f, Acts(dsl.nodes), dials);
    RemoveTrackInv(p'.l, track, f);
  }

  lemma FoldCore(p: Progress, track: string, f: string, acts: seq<Act>, dials: nat -> Dial)
    requires Core(p.l) && Named(track, f) && p.ok
    ensures Core(Fold(p, track, f, acts, dials).l)
  {
    FoldEffect(p, track, f, acts, dials, {});
  }

  // ---- runs ----

  datatype Op =
    | Publish(f: string, published: Option<Dsl>, dials: nat -> Dial)
    | Draft(f: string, open: bool, published: Option<Dsl>, draft: Option<Dsl>, dials: nat -> Dial)
    | Unload(f: string)

  function Apply(l: Ledger, op: Op): Ledger {
    match op
    case Publish(f, published, dials) => SyncFlow(l, f, published, dials).0
    case Draft(f, open, published, draft, dials) => SyncDraft(l, f, open, published, draft, dials).0
    case Unload(f) => RemoveTrack(RemoveTrack(l, PUBLISHED, f), DRAFT, f)
  }

  function Run(l: Ledger, ops: seq<Op>): Ledger
    decreases |ops|
  {
    if ops == [] then l else Run(Apply(l, ops[0]), ops[1..])
  }

  /** Flow ids are non-empty and free of NUL, which is what keeps keys apart. */
  predicate ProperIds(op: Op) {
    NulFree(op.f) && op.f != ""
  }

  /** In the DSL that the operation mounts, if any, no managed node repeats the id of an earlier owner of a client. */
  ghost predicate NoOwnerRepeats(op: Op) {
    match op
    case Publish(_, Some(dsl), _) => !RepeatsOwner(TrackRegs(PUBLISHED, dsl))
    case Draft(_, true, None, Some(dsl), _) => !RepeatsOwner(TrackRegs(DRAFT, dsl))
    case _ => true
  }

  lemma ApplyKeepsCore(l: Ledger, op: Op)
    requires Core(l) && ProperIds(op)
    ensures Core(Apply(l, op))
  {
    hide Core, Leaked, RemoveTrack, SyncTrack, NulFree;
    RemoveTrackEffect(l, DRAFT, op.f);
    RemoveTrackEffect(l, PUBLISHED, op.f);
    RemoveTrackEffect(RemoveTrack(l, DRAFT, op.f), PUBLISHED, op.f);
    RemoveTrackEffect(RemoveTrack(l, PUBLISHED, op.f), DRAFT, op.f);
    if op.Publish? && op.published.Some? {
      SyncTrackEffect(RemoveTrack(l, DRAFT, op.f), PUBLISHED, op.f, op.published.value, op.dials);
    }
    if op.Draft? && op.draft.Some? {
      SyncTrackEffect(l, DRAFT, op.f, op.draft.value, op.dials);
    }
  }

  lemma ApplyKeepsInv(l: Ledger, op: Op)
    requires Inv(l) && ProperIds(op) && NoOwnerRepeats(op)
    ensures Inv(Apply(l, op))
  {
    hide Core, Leaked, Reuse, RemoveTrack, SyncTrack, NulFree, RepeatsOwner;
    var l1, l2 := RemoveTrack(l, DRAFT, op.f), RemoveTrack(l, PUBLISHED, op.f);
    RemoveTrackEffect(l, DRAFT, op.f);
    RemoveTrackInv(l, DRAFT, op.f);
    RemoveTrackEffect(l, PUBLISHED, op.f);
    RemoveTrackInv(l, PUBLISHED, op.f);
    RemoveTrackEffect(l1, PUBLISHED, op.f);
    RemoveTrackInv(l1, PUBLISHED, op.f);
    RemoveTrackEffect(l2, DRAFT, op.f);
    RemoveTrackInv(l2, DRAFT, op.f);
    if op.Publish? && op.published.Some? {
      SyncTrackInv(l1, PUBLISHED, op.f, op.published.value, op.dials);
    }
    if op.Draft? && op.draft.Some? && op.open && op.published.None? {
      SyncTrackInv(l, DRAFT, op.f, op.draft.value, op.dials);
    }
  }

  /**
   * Over every run, whatever node ids and failures occur, each client ever connected is either still
   * connected or has been disconnected exactly once, and no two handles own the same client.
   */
  lemma {:induction false} ClientsConserved(l: Ledger, ops: seq<Op>)
    requires Core(l)
    requires forall i | 0 <= i < |ops| :: ProperIds(ops[i])
    ensures Core(Run(l, ops))
    decreases |ops|
  {
    hide Core, Apply;
    if ops != [] {
      ApplyKeepsCore(l, ops[0]);
      ClientsConserved(Apply(l, ops[0]), ops[1..]);
    }
  }

  /**
   * Over every run in which no mounted node repeats the id of an owner, the connected clients are exactly those that
   * handles own, and every reusing sender borrows a live receiver of its own track and flow.
   */
  lemma {:induction false} LedgerBalanced(l: Ledger, ops: seq<Op>)
    requires Inv(l)
    requires forall i | 0 <= i < |ops| :: ProperIds(ops[i]) && NoOwnerRepeats(ops[i])
    ensures Inv(Run(l, ops))
    ensures Run(l, ops).connected == Clients(Run(l, ops).byNode)
    decreases |ops|
  {
    hide Inv, Apply, ProperIds, NoOwnerRepeats;
    if ops == [] {
      NoStrays(l);
    } else {
      ApplyKeepsInv(l, ops[0]);
      LedgerBalanced(Apply(l, ops[0]), ops[1..]);
    }
  }

  lemma NoStrays(l: Ledger)
    requires Inv(l)
    ensures l.connected == Clients(l.byNode)
  {
    hide Reuse, Filed;
    forall c | c in l.connected ensures c in Clients(l.byNode) {
      assert c !in Leaked(l);
    }
    forall c | c in Clients(l.byNode) ensures c in l.connected {
      var key :| key in l.byNode && l.byNode[key].owned && l.byNode[key].client == c;
      assert Owns(l, key);
    }
  }

  lemma StartsBalanced()
    ensures Inv(NoClients)
  {
  }

  // ---- the publisher pool, whatever the node ids ----

  /** Every handle's client is connected, and handles that share a client are on one track of one flow. */
  ghost predicate Wired(l: Ledger) {
    && (forall key | key in l.byNode :: l.byNode[key].client in l.connected)
    && (forall j, k | j in l.byNode && k in l.byNode && l.byNode[j].client == l.byNode[k].client ::
          OnTrack(l.byNode[j], l.byNode[k].track, l.byNode[k].flowID))
  }

  lemma ConnectedIs(l: Ledger)
    requires Core(l)
    ensures l.connected == Clients(l.byNode) + Leaked(l)
  {
    hide Filed;
    forall c | c in Clients(l.byNode) ensures c in l.connected {
      var key :| key in l.byNode && l.byNode[key].owned && l.byNode[key].client == c;
      assert Owns(l, key);
    }
  }

  /** Dropping a track disconnects only clients whose every user goes with it. */
  lemma RemoveTrackWired(l: Ledger, track: string, f: string)
    requires Core(l) && Wired(l) && IsTrack(track) && f != ""
    ensures Wired(RemoveTrack(l, track, f))
  {
    hide Core, Leaked, RemoveTrack;
    var l' := RemoveTrack(l, track, f);
    RemoveTrackEffect(l, track, f);
    ConnectedIs(l);
    ConnectedIs(l');
    forall key | key in l'.byNode ensures l'.byNode[key].client in l'.connected {
      var c := l.byNode[key].client;
      if c in Clients(l.byNode) {
        var k :| k in l.byNode && l.byNode[k].owned && l.byNode[k].client == c;
        assert OnTrack(l.byNode[k], l.byNode[key].track, l.byNode[key].flowID);
        assert k in l'.byNode && l'.byNode[k] == l.byNode[k];
      } else {
        assert c in Leaked(l);
      }
    }
  }

  lemma RegisterWired(l: Ledger, l1: Ledger, h: Handle)
    requires Wired(l) && l1.byNode == l.byNode && l.connected <= l1.connected && h.client in l1.connected
    requires forall key | key in l.byNode && l.byNode[key].client == h.client ::
      OnTrack(l.byNode[key], h.track, h.flowID)
    ensures Wired(Register(l1, h))
  {
    hide NodeKey;
  }

  lemma StepWired(p: Progress, track: string, f: string, act: Act, dials: nat -> Dial)
    requires Core(p.l) && Wired(p.l) && Named(track, f) && p.ok
    ensures Wired(Step(p, track, f, act, dials).l)
  {
    hide NodeKey, Core, Named;
    var p' := Step(p, track, f, act, dials);
    var dialed := Dialed(p.l);
    DialedCore(p.l);
    if p'.l.byNode != p.l.byNode {
      var n := act.node.id;
      if act.out && act.node.outCfg.value.reuseFrom != "" {
        var cfg := act.node.outCfg.value;
        var key := NodeKey(track, f, cfg.reuseFrom);
        KeyOnTrack(p.l, track, f, cfg.reuseFrom);
        RegisterWired(p.l, p.l, Handle(track, f, n, OutReuse, p.l.byNode[key].client, "", false, cfg.reuseFrom));
      } else if act.out {
        RegisterWired(p.l, dialed, Handle(track, f, n, OutPersistent, p.l.dialed, "", true, ""));
      } else {
        RegisterWired(p.l, dialed, Handle(track, f, n, In, p.l.dialed, act.node.inCfg.value.topic, true, ""));
      }
    } else {
      assert p.l.dialed !in p.l.connected;
    }
  }

  lemma KeyOnTrack(l: Ledger, track: string, f: string, id: string)
    requires Core(l) && Named(track, f) && NodeKey(track, f, id) in l.byNode
    ensures OnTrack(l.byNode[NodeKey(track, f, id)], track, f)
  {
    hide NodeKey, Accounted;
    var key := NodeKey(track, f, id);
    assert Filed(l, key);
    var h := l.byNode[key];
    NodeKeyInjective(track, f, id, h.track, h.flowID, h.nodeID);
  }

  lemma {:induction false} FoldWired(p: Progress, track: string, f: string, acts: seq<Act>, dials: nat -> Dial)
    requires Core(p.l) && Wired(p.l) && Named(track, f)
    ensures Wired(Fold(p, track, f, acts, dials).l)
    decreases |acts|
  {
    hide Core, Wired, Step, Named;
    if acts != [] && p.ok {
      StepEffect(p, track, f, acts[0], dials, {});
      StepWired(p, track, f, acts[0], dials);
      FoldWired(Step(p, track, f, acts[0], dials), track, f, acts[1..], dials);
    }
  }

  lemma SyncTrackWired(l: Ledger, track: string, f: string, dsl: Dsl, dials: nat -> Dial)
    requires Core(l) && Wired(l) && Named(track, f)
    ensures Wired(SyncTrack(l, track, f, dsl, dials).0)
  {
    hide Core, Wired, Leaked, Fold, RemoveTrack, Acts, NulFree;
    RemoveTrackEffect(l, track, f);
    RemoveTrackWired(l, track, f);
    var p := Progress(RemoveTrack(l, track, f), 0, {}, true);
    FoldWired(p, track, f, Acts(dsl.nodes), dials);
    FoldCore(p, track, f, Acts(dsl.nodes), dials);
    RemoveTrackWired(Fold(p, track, f, Acts(dsl.nodes), dials).l, track, f);
  }

  lemma ApplyKeepsWired(l: Ledger, op: Op)
    requires Core(l) && Wired(l) && ProperIds(op)
    ensures Wired(Apply(l, op))
  {
    hide Core, Leaked, Wired, RemoveTrack, SyncTrack, NulFree;
    var l1, l2 := RemoveTrack(l, DRAFT, op.f), RemoveTrack(l, PUBLISHED, op.f);
    RemoveTrackEffect(l, DRAFT, op.f);
    RemoveTrackWired(l, DRAFT, op.f);
    RemoveTrackEffect(l, PUBLISHED, op.f);
    RemoveTrackWired(l, PUBLISHED, op.f);
    RemoveTrackWired(l1, PUBLISHED, op.f);
    RemoveTrackWired(l2, DRAFT, op.f);
    if op.Publish? && op.published.Some? {
      SyncTrackWired(l1, PUBLISHED, op.f, op.published.value, op.dials);
    }
    if op.Draft? && op.draft.Some? {
      SyncTrackWired(l, DRAFT, op.f, op.draft.value, op.dials);
    }
  }

  lemma {:induction false} WiredOverRuns(l: Ledger, ops: seq<Op>)
    requires Core(l) && Wired(l)
    requires forall i | 0 <= i < |ops| :: ProperIds(ops[i])
    ensures Core(Run(l, ops)) && Wired(Run(l, ops))
    decreases |ops|
  {
    hide Core, Wired, Apply, ProperIds;
    if ops != [] {
      ApplyKeepsCore(l, ops[0]);
      ApplyKeepsWired(l, ops[0]);
      WiredOverRuns(Apply(l, ops[0]), ops[1..]);
    }
  }

  /** In every run, whatever the node ids and failures, the publisher pool only hands out connected clients. */
  lemma PublisherLive(ops: seq<Op>, f: string, n: string)
    requires forall i | 0 <= i < |ops| :: ProperIds(ops[i])
    ensures var l := Run(NoClients, ops);
            Publisher(l, f, n).Some? ==> Publisher(l, f, n).value in l.connected
  {
    hide Run, NodeKey, Core, ProperIds;
    StartsBalanced();
    WiredOverRuns(NoClients, ops);
  }

  /** Two receivers with one id: the first one's client stays connected and nothing can reach it. */
  lemma RepeatedIdLeaks(f: string, id: string, topic: string, dials: nat -> Dial)
    requires NulFree(f) && f != "" && forall n :: dials(n) == Connects
    ensures var node := MqttInNode(id, Some(InConfig(topic, true)));
            var (l, ok) := SyncFlow(NoClients, f, Some(Dsl(f, "", [node, node])), dials);
            ok && Leaked(l) != {} && Leaked(RemoveTrack(l, PUBLISHED, f)) == Leaked(l)
  {
    hide Leaked, RemoveTrack, SyncTrack, Core, TrackRegs, RepeatsOwner;
    var node := MqttInNode(id, Some(InConfig(topic, true)));
    var dsl := Dsl(f, "", [node, node]);
    StartsBalanced();
    RemoveTrackEffect(NoClients, DRAFT, f);
    var l0 := RemoveTrack(NoClients, DRAFT, f);
    SyncTrackEffect(l0, PUBLISHED, f, dsl, dials);
    TwiceRegistered(l0, f, node, dsl, dials);
    RemoveTrackEffect(SyncTrack(l0, PUBLISHED, f, dsl, dials).0, PUBLISHED, f);
  }

  lemma TwiceRegistered(l: Ledger, f: string, node: Node, dsl: Dsl, dials: nat -> Dial)
    requires dsl.nodes == [node, node] && node.MqttInNode? && node.inCfg.Some? && forall n :: dials(n) == Connects
    ensures SyncTrack(l, PUBLISHED, f, dsl, dials).1 && RepeatsOwner(TrackRegs(PUBLISHED, dsl))
  {
    hide RemoveTrack, Fold, Regs;
    assert Acts(dsl.nodes) == [Act(false, node), Act(false, node), Act(true, node), Act(true, node)];
    TwoReceivers(Progress(RemoveTrack(l, PUBLISHED, f), 0, {}, true), f, node, dials);
    TwoRegs(node, node.id);
    var regs := TrackRegs(PUBLISHED, dsl);
    assert regs[0].id == regs[1].id && regs[0].owned;
  }

  lemma TwoRegs(node: Node, id: string)
    requires node.MqttInNode? && node.inCfg.Some? && node.id == id
    ensures Regs([Act(false, node), Act(false, node), Act(true, node), Act(true, node)], PUBLISHED, {})
        == [Reg(id, true), Reg(id, true)]
  {
    var acts := [Act(false, node), Act(false, node), Act(true, node), Act(true, node)];
    assert acts[1..] == [Act(false, node), Act(true, node), Act(true, node)];
    assert acts[1..][1..] == [Act(true, node), Act(true, node)];
    assert acts[1..][1..][1..] == [Act(true, node)];
    assert acts[1..][1..][1..][1..] == [];
    var active := {node.id};
    assert Regs([Act(true, node)], PUBLISHED, active) == [];
    assert Regs([Act(true, node), Act(true, node)], PUBLISHED, active) == [];
    assert active + {node.id} == active;
    assert Regs(acts[1..], PUBLISHED, active) == [Reg(id, true)];
    assert {} + {node.id} == active;
  }

  lemma TwoReceivers(p: Progress, f: string, node: Node, dials: nat -> Dial)
    requires p.ok && node.MqttInNode? && node.inCfg.Some? && forall n :: dials(n) == Connects
    ensures Fold(p, PUBLISHED, f, [Act(false, node), Act(false, node), Act(true, node), Act(true, node)], dials).ok
  {
    var acts := [Act(false, node), Act(false, node), Act(true, node), Act(true, node)];
    assert acts[1..] == [Act(false, node), Act(true, node), Act(true, node)];
    assert acts[1..][1..] == [Act(true, node), Act(true, node)];
    assert acts[1..][1..][1..] == [Act(true, node)];
    var p1 := Step(p, PUBLISHED, f, acts[0], dials);
    var p2 := Step(p1, PUBLISHED, f, acts[1], dials);
    assert Fold(p2, PUBLISHED, f, [Act(true, node)], dials) == p2;
    assert Fold(p2, PUBLISHED, f, [Act(true, node), Act(true, node)], dials) == p2;
  }

  // ---- the published track ----

  /**
   * The published track of every flow mounts the nodes of the DSL in `up`, each with the handle a rebuild gives it, and
   * of every other flow nothing.
   */
  ghost predicate Shows(l: Ledger, up: map<string, Dsl>) {
    && (forall f :: TrackNodes(l.byNode, PUBLISHED, f) == if f in up then Wanted(PUBLISHED, up[f]) else {})
    && (forall f | f in up :: NulFree(f) && FiledAs(l, f, up[f]))
  }

  /** Whatever happens on another track of some flow leaves the handles of these flows alone. */
  lemma StayFiled(l: Ledger, l': Ledger, track: string, f: string, up: map<string, Dsl>)
    requires Core(l) && Core(l') && OffTrack(l'.byNode, track, f) == OffTrack(l.byNode, track, f)
    requires forall g | g in up :: NulFree(g) && FiledAs(l, g, up[g]) && (track != PUBLISHED || g != f)
    ensures forall g | g in up :: FiledAs(l', g, up[g])
  {
    hide Core, NulFree, FiledAs, OffTrack;
    forall g | g in up ensures FiledAs(l', g, up[g]) {
      StaysFiled(l, l', track, f, g, up[g]);
    }
  }

  lemma RemovalKeepsFiled(l: Ledger, track: string, f: string, up: map<string, Dsl>)
    requires Core(l) && IsTrack(track) && f != ""
    requires forall g | g in up :: NulFree(g) && FiledAs(l, g, up[g]) && (track != PUBLISHED || g != f)
    ensures forall g | g in up :: FiledAs(RemoveTrack(l, track, f), g, up[g])
  {
    hide Core, NulFree, FiledAs, RemoveTrack, Leaked, OffTrack;
    RemoveTrackEffect(l, track, f);
    OffTrackTwice(l.byNode, track, f);
    StayFiled(l, RemoveTrack(l, track, f), track, f, up);
  }

  lemma RebuildKeepsFiled(l: Ledger, track: string, f: string, dsl: Dsl, dials: nat -> Dial, up: map<string, Dsl>)
    requires Core(l) && IsTrack(track) && NulFree(f) && f != ""
    requires forall g | g in up :: NulFree(g) && FiledAs(l, g, up[g]) && (track != PUBLISHED || g != f)
    ensures forall g | g in up :: FiledAs(SyncTrack(l, track, f, dsl, dials).0, g, up[g])
  {
    hide Core, NulFree, FiledAs, SyncTrack, Leaked, OffTrack, RepeatsOwner, TrackRegs;
    SyncTrackEffect(l, track, f, dsl, dials);
    StayFiled(l, SyncTrack(l, track, f, dsl, dials).0, track, f, up);
  }

  /** The DSLs whose last rebuild succeeded, after one more rebuild. */
  function UpWith(up: map<string, Dsl>, f: string, published: Option<Dsl>, ok: bool): map<string, Dsl> {
    if published.Some? && ok then up[f := published.value] else up - {f}
  }

  lemma SyncFlowShows(l: Ledger, up: map<string, Dsl>, f: string, published: Option<Dsl>, dials: nat -> Dial)
    requires Core(l) && NulFree(f) && f != "" && Shows(l, up)
    ensures var (l', ok) := SyncFlow(l, f, published, dials);
            && Core(l') && Shows(l', UpWith(up, f, published, ok))
            && ok == (published.Some? ==> Mountable(PUBLISHED, published.value, dials))
  {
    hide Core, Leaked, RemoveTrack, SyncTrack, NulFree, TrackNodes, Wanted, FiledAs, Mountable;
    var l1 := RemoveTrack(l, DRAFT, f);
    RemoveTrackEffect(l, DRAFT, f);
    RemoveTrackMounts(l, DRAFT, f);
    RemovalKeepsFiled(l, DRAFT, f, up);
    if published.None? {
      RemoveTrackEffect(l1, PUBLISHED, f);
      RemoveTrackMounts(l1, PUBLISHED, f);
      RemovalKeepsFiled(l1, PUBLISHED, f, up - {f});
    } else {
      SyncTrackEffect(l1, PUBLISHED, f, published.value, dials);
      SyncTrackMounts(l1, PUBLISHED, f, published.value, dials);
      SyncSucceedsExactly(l1, PUBLISHED, f, published.value, dials);
      RebuildKeepsFiled(l1, PUBLISHED, f, published.value, dials, up - {f});
      if SyncTrack(l1, PUBLISHED, f, published.value, dials).1 {
        RebuiltIsFiled(l1, f, published.value, dials);
      }
    }
  }

  lemma SyncDraftShows(l: Ledger, up: map<string, Dsl>, f: string, open: bool, published: Option<Dsl>,
                       draft: Option<Dsl>, dials: nat -> Dial)
    requires Core(l) && NulFree(f) && f != "" && Shows(l, up)
    ensures var l' := SyncDraft(l, f, open, published, draft, dials).0; Core(l') && Shows(l', up)
  {
    hide Core, Leaked, RemoveTrack, SyncTrack, NulFree, TrackNodes, Wanted, FiledAs, Mountable;
    RemoveTrackEffect(l, DRAFT, f);
    RemoveTrackMounts(l, DRAFT, f);
    RemovalKeepsFiled(l, DRAFT, f, up);
    if draft.Some? {
      RebuildKeepsFiled(l, DRAFT, f, draft.value, dials, up);
      SyncTrackEffect(l, DRAFT, f, draft.value, dials);
      SyncTrackMounts(l, DRAFT, f, draft.value, dials);
    }
  }

  // ---- the draft track ----

  /** Rebuilding the published track leaves the flow without draft nodes, and other flows' drafts alone. */
  lemma SyncFlowDrafts(l: Ledger, f: string, published: Option<Dsl>, dials: nat -> Dial)
    requires Core(l) && NulFree(f) && f != ""
    ensures var l' := SyncFlow(l, f, published, dials).0;
            && Core(l') && TrackNodes(l'.byNode, DRAFT, f) == {}
            && forall g | g != f :: TrackNodes(l'.byNode, DRAFT, g) == TrackNodes(l.byNode, DRAFT, g)
  {
    hide Core, Leaked, RemoveTrack, SyncTrack, NulFree, TrackNodes, Wanted;
    var l1 := RemoveTrack(l, DRAFT, f);
    RemoveTrackEffect(l, DRAFT, f);
    RemoveTrackMounts(l, DRAFT, f);
    if published.None? {
      RemoveTrackEffect(l1, PUBLISHED, f);
      RemoveTrackMounts(l1, PUBLISHED, f);
    } else {
      SyncTrackEffect(l1, PUBLISHED, f, published.value, dials);
      SyncTrackMounts(l1, PUBLISHED, f, published.value, dials);
    }
  }

  /** Rebuilding a draft mounts nothing for a published flow, and leaves other flows' drafts alone. */
  lemma SyncDraftDrafts(l: Ledger, f: string, open: bool, published: Option<Dsl>, draft: Option<Dsl>,
                        dials: nat -> Dial)
    requires Core(l) && NulFree(f) && f != ""
    ensures var l' := SyncDraft(l, f, open, published, draft, dials).0;
            && Core(l') && (published.Some? ==> TrackNodes(l'.byNode, DRAFT, f) == {})
            && forall g | g != f :: TrackNodes(l'.byNode, DRAFT, g) == TrackNodes(l.byNode, DRAFT, g)
  {
    hide Core, Leaked, RemoveTrack, SyncTrack, NulFree, TrackNodes, Wanted;
    RemoveTrackEffect(l, DRAFT, f);
    RemoveTrackMounts(l, DRAFT, f);
    if draft.Some? {
      SyncTrackEffect(l, DRAFT, f, draft.value, dials);
      SyncTrackMounts(l, DRAFT, f, draft.value, dials);
    }
  }

  lemma UnloadDrafts(l: Ledger, f: string)
    requires Core(l) && f != ""
    ensures var l' := RemoveTrack(RemoveTrack(l, PUBLISHED, f), DRAFT, f);
            && TrackNodes(l'.byNode, DRAFT, f) == {}
            && forall g | g != f :: TrackNodes(l'.byNode, DRAFT, g) == TrackNodes(l.byNode, DRAFT, g)
  {
    hide Core, Leaked, RemoveTrack, TrackNodes;
    var l1 := RemoveTrack(l, PUBLISHED, f);
    RemoveTrackEffect(l, PUBLISHED, f);
    RemoveTrackMounts(l, PUBLISHED, f);
    RemoveTrackMounts(l1, DRAFT, f);
  }

  lemma UnloadShows(l: Ledger, up: map<string, Dsl>, f: string)
    requires Core(l) && f != "" && Shows(l, up)
    ensures var l' := RemoveTrack(RemoveTrack(l, PUBLISHED, f), DRAFT, f); Core(l') && Shows(l', up - {f})
  {
    hide Core, Leaked, RemoveTrack, TrackNodes, Wanted, FiledAs, NulFree;
    var l1 := RemoveTrack(l, PUBLISHED, f);
    RemoveTrackEffect(l, PUBLISHED, f);
    RemoveTrackMounts(l, PUBLISHED, f);
    RemoveTrackEffect(l1, DRAFT, f);
    RemoveTrackMounts(l1, DRAFT, f);
    RemovalKeepsFiled(l, PUBLISHED, f, up - {f});
    RemovalKeepsFiled(l1, DRAFT, f, up - {f});
  }

  /** Rebuild the published track of every listed flow that has a published DSL. */
  function StartAll(l: Ledger, list: seq<Listed>, dials: string -> nat -> Dial): Ledger
    decreases |list|
  {
    if list == [] then l
    else if list[0].published.None? then StartAll(l, list[1..], dials)
    else StartAll(SyncFlow(l, list[0].id, list[0].published, dials(list[0].id)).0, list[1..], dials)
  }

  /** The flows whose rebuild succeeds at start-up. */
  function StartedUp(up: map<string, Dsl>, list: seq<Listed>, dials: string -> nat -> Dial): map<string, Dsl>
    decreases |list|
  {
    if list == [] then up
    else if list[0].published.None? then StartedUp(up, list[1..], dials)
    else
      var (f, dsl) := (list[0].id, list[0].published.value);
      StartedUp(UpWith(up, f, Some(dsl), Mountable(PUBLISHED, dsl, dials(f))), list[1..], dials)
  }

  lemma {:induction false} StartAllShows(l: Ledger, up: map<string, Dsl>, list: seq<Listed>,
                                         dials: string -> nat -> Dial)
    requires Core(l) && Shows(l, up)
    requires forall i | 0 <= i < |list| && list[i].published.Some? :: NulFree(list[i].id) && list[i].id != ""
    ensures Core(StartAll(l, list, dials)) && Shows(StartAll(l, list, dials), StartedUp(up, list, dials))
    decreases |list|
  {
    hide Core, Shows, SyncFlow, NulFree, UpWith, Mountable;
    if list != [] {
      if list[0].published.Some? {
        var f := list[0].id;
        SyncFlowShows(l, up, f, list[0].published, dials(f));
        var (l1, ok) := SyncFlow(l, f, list[0].published, dials(f));
        StartAllShows(l1, UpWith(up, f, list[0].published, ok), list[1..], dials);
      } else {
        StartAllShows(l, up, list[1..], dials);
      }
    }
  }

  /** A restart from nothing mounts no draft. */
  lemma {:induction false} StartAllDrafts(l: Ledger, list: seq<Listed>, dials: string -> nat -> Dial)
    requires Core(l) && forall g :: TrackNodes(l.byNode, DRAFT, g) == {}
    requires forall i | 0 <= i < |list| && list[i].published.Some? :: NulFree(list[i].id) && list[i].id != ""
    ensures forall g :: TrackNodes(StartAll(l, list, dials).byNode, DRAFT, g) == {}
    decreases |list|
  {
    hide Core, SyncFlow, NulFree, TrackNodes;
    if list != [] {
      if list[0].published.Some? {
        var f := list[0].id;
        SyncFlowDrafts(l, f, list[0].published, dials(f));
        StartAllDrafts(SyncFlow(l, f, list[0].published, dials(f)).0, list[1..], dials);
      } else {
        StartAllDrafts(l, list[1..], dials);
      }
    }
  }

  lemma {:induction false} StartAllCore(l: Ledger, list: seq<Listed>, dials: string -> nat -> Dial)
    requires Core(l)
    requires forall i | 0 <= i < |list| && list[i].published.Some? :: NulFree(list[i].id) && list[i].id != ""
    ensures Core(StartAll(l, list, dials))
    decreases |list|
  {
    hide Core, SyncFlow, NulFree;
    if list != [] {
      if list[0].published.Some? {
        var op := Publish(list[0].id, list[0].published, dials(list[0].id));
        ApplyKeepsCore(l, op);
        StartAllCore(Apply(l, op), list[1..], dials);
      } else {
        StartAllCore(l, list[1..], dials);
      }
    }
  }

  lemma {:induction false} StartedFromList(up: map<string, Dsl>, list: seq<Listed>, dials: string -> nat -> Dial,
                                           f: string)
    requires f in StartedUp(up, list, dials)
    ensures var dsl := StartedUp(up, list, dials)[f]; (f in up && dsl == up[f]) || Listed(f, Some(dsl)) in list
    decreases |list|
  {
    hide Mountable;
    if list != [] {
      if list[0].published.None? {
        StartedFromList(up, list[1..], dials, f);
      } else {
        var g, dsl := list[0].id, list[0].published.value;
        assert list[0] == Listed(g, Some(dsl));
        StartedFromList(UpWith(up, g, Some(dsl), Mountable(PUBLISHED, dsl, dials(g))), list[1..], dials, f);
      }
    }
  }
}
