/** What a rebuild mounts: the nodes of a track that hold a client afterwards. */
module MqttTracks {
  import opened Prelude
  import opened FlowDsl
  import opened MqttKeys
  import opened MqttLedger

  /** The nodes that hold a handle on one track of a flow. */
  ghost function TrackNodes(m: map<string, Handle>, track: string, f: string): set<string> {
    set key | key in m && OnTrack(m[key], track, f) :: m[key].nodeID
  }

  ghost function RegIds(regs: seq<Reg>): set<string> {
    set r | r in regs :: r.id
  }

  /** The nodes a rebuild is to mount. */
  ghost function Wanted(track: string, dsl: Dsl): set<string> {
    RegIds(TrackRegs(track, dsl))
  }

  // ---- the wanted nodes, in closed form ----

  /** A receiver that parses; on the draft track, only one that is to connect and respond. */
  predicate Receives(track: string, node: Node) {
    node.MqttInNode? && node.inCfg.Some? && (track == DRAFT ==> node.inCfg.value.connectAndRespond)
  }

  /** A managed sender that borrows a receiver, on the draft track one that is mounted, or keeps a client of its own. */
  predicate Sends(track: string, node: Node, active: set<string>) {
    node.MqttOutNode? && node.outCfg.Some? && node.outCfg.value.managed &&
    if node.outCfg.value.reuseFrom != "" then track == DRAFT ==> node.outCfg.value.reuseFrom in active
    else node.outCfg.value.persistent
  }

  /** The nodes with a receiver to mount. */
  function Receivers(track: string, nodes: seq<Node>): set<string> {
    set n | n in nodes && Receives(track, n) :: n.id
  }

  function Senders(track: string, nodes: seq<Node>, active: set<string>): set<string> {
    set n | n in nodes && Sends(track, n, active) :: n.id
  }

  function Pass(out: bool, nodes: seq<Node>): seq<Act> {
    seq(|nodes|, i requires 0 <= i < |nodes| => Act(out, nodes[i]))
  }

  lemma PassFirst(out: bool, nodes: seq<Node>)
    requires nodes != []
    ensures Pass(out, nodes)[0] == Act(out, nodes[0]) && Pass(out, nodes)[1..] == Pass(out, nodes[1..])
  {
  }

  lemma ReceiversFirst(track: string, nodes: seq<Node>)
    requires nodes != []
    ensures Receivers(track, nodes) ==
            (if Receives(track, nodes[0]) then {nodes[0].id} else {}) + Receivers(track, nodes[1..])
  {
    forall n | n in nodes ensures n == nodes[0] || n in nodes[1..] {
    }
  }

  lemma SendersFirst(track: string, nodes: seq<Node>, active: set<string>)
    requires nodes != []
    ensures Senders(track, nodes, active) ==
            (if Sends(track, nodes[0], active) then {nodes[0].id} else {}) + Senders(track, nodes[1..], active)
  {
    forall n | n in nodes ensures n == nodes[0] || n in nodes[1..] {
    }
  }

  /** The first pass registers the receivers, and leaves them active for whatever actions follow. */
  lemma {:induction false} ReceiverPass(track: string, nodes: seq<Node>, rest: seq<Act>, active: set<string>)
    ensures RegIds(Regs(Pass(false, nodes) + rest, track, active)) ==
            Receivers(track, nodes) + RegIds(Regs(rest, track, active + Receivers(track, nodes)))
    decreases |nodes|
  {
    hide RegIds, Receivers;
    if nodes == [] {
      NobodyReceives(track, rest, active);
    } else {
      var acts := Pass(false, nodes) + rest;
      PassFirst(false, nodes);
      assert acts[0] == Act(false, nodes[0]) && acts[1..] == Pass(false, nodes[1..]) + rest;
      var mine: seq<Reg> := match RegOf(acts[0], track, active) case None => [] case Some(r) => [r];
      var active1 := ActiveAfter(acts[0], track, active);
      ReceiverPass(track, nodes[1..], rest, active1);
      RegIdsCat(mine, Regs(acts[1..], track, active1));
      ReceiversFirst(track, nodes);
      OneReg(mine);
      assert active1 + Receivers(track, nodes[1..]) == active + Receivers(track, nodes);
    }
  }

  lemma NobodyReceives(track: string, rest: seq<Act>, active: set<string>)
    ensures Receivers(track, []) == {} && active + {} == active && Pass(false, []) + rest == rest
  {
  }

  lemma OneReg(regs: seq<Reg>)
    requires |regs| <= 1
    ensures RegIds(regs) == if regs == [] then {} else {regs[0].id}
  {
  }

  /** The second pass registers the senders. */
  lemma {:induction false} SenderPass(track: string, nodes: seq<Node>, active: set<string>)
    ensures RegIds(Regs(Pass(true, nodes), track, active)) == Senders(track, nodes, active)
    decreases |nodes|
  {
    hide RegIds, Senders;
    if nodes == [] {
      NobodySends(track, active);
    } else {
      var acts := Pass(true, nodes);
      PassFirst(true, nodes);
      var mine: seq<Reg> := match RegOf(acts[0], track, active) case None => [] case Some(r) => [r];
      SenderPass(track, nodes[1..], active);
      RegIdsCat(mine, Regs(acts[1..], track, active));
      SendersFirst(track, nodes, active);
      OneReg(mine);
    }
  }

  lemma NobodySends(track: string, active: set<string>)
    ensures Senders(track, [], active) == {} && RegIds([]) == {}
  {
  }

  /** The wanted nodes are the receivers, and the senders that borrow a receiver or keep a client. */
  lemma WantedIs(track: string, dsl: Dsl)
    ensures Wanted(track, dsl) ==
            Receivers(track, dsl.nodes) + Senders(track, dsl.nodes, Receivers(track, dsl.nodes))
  {
    hide RegIds, Receivers, Senders, Regs;
    var active := Receivers(track, dsl.nodes);
    assert Acts(dsl.nodes) == Pass(false, dsl.nodes) + Pass(true, dsl.nodes);
    ReceiverPass(track, dsl.nodes, Pass(true, dsl.nodes), {});
    SenderPass(track, dsl.nodes, active);
    assert {} + active == active;
  }

  // ---- what a rebuild mounts ----

  lemma RegisterNodes(l: Ledger, h: Handle)
    requires Core(l) && Named(h.track, h.flowID)
    ensures TrackNodes(Register(l, h).byNode, h.track, h.flowID) == TrackNodes(l.byNode, h.track, h.flowID) + {h.nodeID}
  {
    hide Accounted, NulFree, NodeKey, FlowKey;
    var m, m' := l.byNode, Register(l, h).byNode;
    var key0 := HandleKey(h);
    if key0 in m {
      assert Filed(l, key0);
      var o := m[key0];
      NodeKeyInjective(h.track, h.flowID, h.nodeID, o.track, o.flowID, o.nodeID);
    }
    assert key0 in m' && m'[key0] == h;
    forall n | n in TrackNodes(m, h.track, h.flowID) ensures n in TrackNodes(m', h.track, h.flowID) {
      var key :| key in m && OnTrack(m[key], h.track, h.flowID) && m[key].nodeID == n;
      assert key in m';
    }
  }

  lemma StepNodes(p: Progress, track: string, f: string, act: Act, dials: nat -> Dial)
    requires Core(p.l) && Named(track, f) && p.ok && Step(p, track, f, act, dials).ok
    ensures TrackNodes(Step(p, track, f, act, dials).l.byNode, track, f) ==
            TrackNodes(p.l.byNode, track, f)
            + (match RegOf(act, track, p.active) case None => {} case Some(r) => {r.id})
  {
    hide Core, Named, NodeKey, TrackNodes, Register;
    DialedCore(p.l);
    match (act.out, act.node) {
      case (false, MqttInNode(id, Some(cfg))) =>
        RegisterNodes(Dialed(p.l), Handle(track, f, id, In, p.l.dialed, cfg.topic, true, ""));
      case (true, MqttOutNode(id, Some(cfg))) =>
        var key := NodeKey(track, f, cfg.reuseFrom);
        if cfg.reuseFrom == "" {
          RegisterNodes(Dialed(p.l), Handle(track, f, id, OutPersistent, p.l.dialed, "", true, ""));
        } else if key in p.l.byNode {
          RegisterNodes(p.l, Handle(track, f, id, OutReuse, p.l.byNode[key].client, "", false, cfg.reuseFrom));
        }
      case _ =>
    }
  }

  lemma {:induction false} FoldNodes(p: Progress, track: string, f: string, acts: seq<Act>, dials: nat -> Dial)
    requires Core(p.l) && Named(track, f) && p.ok && Fold(p, track, f, acts, dials).ok
    ensures TrackNodes(Fold(p, track, f, acts, dials).l.byNode, track, f) ==
            TrackNodes(p.l.byNode, track, f) + RegIds(Regs(acts, track, p.active))
    decreases |acts|
  {
    hide Core, Named, TrackNodes, Step, RegOf, ActiveAfter;
    if acts != [] {
      var p1 := Step(p, track, f, acts[0], dials);
      assert p1.ok;
      StepEffect(p, track, f, acts[0], dials, {});
      StepNodes(p, track, f, acts[0], dials);
      FoldNodes(p1, track, f, acts[1..], dials);
      var mine := match RegOf(acts[0], track, p.active) case None => [] case Some(r) => [r];
      RegIdsCat(mine, Regs(acts[1..], track, p1.active));
    }
  }

  lemma RegIdsCat(a: seq<Reg>, b: seq<Reg>)
    ensures RegIds(a + b) == RegIds(a) + RegIds(b)
  {
    forall id ensures id in RegIds(a + b) <==> id in RegIds(a) || id in RegIds(b) {
      if id in RegIds(a) {
        var r :| r in a && r.id == id;
        assert r in a + b;
      }
      if id in RegIds(b) {
        var r :| r in b && r.id == id;
        assert r in a + b;
      }
    }
  }

  lemma OffTrackEmpty(m: map<string, Handle>, track: string, f: string)
    ensures TrackNodes(OffTrack(m, track, f), track, f) == {}
  {
  }

  /** A track of another flow, or another track, has the same nodes when the rest of the ledger is the same. */
  lemma OtherTracksSame(m: map<string, Handle>, m': map<string, Handle>, track: string, f: string, t: string, g: string)
    requires OffTrack(m', track, f) == OffTrack(m, track, f) && (t != track || g != f)
    ensures TrackNodes(m', t, g) == TrackNodes(m, t, g)
  {
    forall n ensures n in TrackNodes(m', t, g) <==> n in TrackNodes(m, t, g) {
      if n in TrackNodes(m, t, g) {
        var key :| key in m && OnTrack(m[key], t, g) && m[key].nodeID == n;
        assert key in OffTrack(m, track, f) && key in OffTrack(m', track, f);
      }
      if n in TrackNodes(m', t, g) {
        var key :| key in m' && OnTrack(m'[key], t, g) && m'[key].nodeID == n;
        assert key in OffTrack(m', track, f) && key in OffTrack(m, track, f);
      }
    }
  }

  /**
   * A successful rebuild mounts exactly the wanted nodes of its track, a failed one none, and no other track's nodes
   * change.
   */
  lemma SyncTrackMounts(l: Ledger, track: string, f: string, dsl: Dsl, dials: nat -> Dial)
    requires Core(l) && Named(track, f)
    ensures var (l', ok) := SyncTrack(l, track, f, dsl, dials);
            && TrackNodes(l'.byNode, track, f) == (if ok then Wanted(track, dsl) else {})
            && forall t, g | t != track || g != f :: TrackNodes(l'.byNode, t, g) == TrackNodes(l.byNode, t, g)
  {
    hide Core, TrackNodes, Leaked, Fold, Regs, RemoveTrack, Acts, OffTrack, RepeatsOwner, RegIds;
    var (l', ok) := SyncTrack(l, track, f, dsl, dials);
    var l0 := RemoveTrack(l, track, f);
    RemoveTrackEffect(l, track, f);
    OffTrackEmpty(l.byNode, track, f);
    SyncTrackEffect(l, track, f, dsl, dials);
    if ok {
      FoldNodes(Progress(l0, 0, {}, true), track, f, Acts(dsl.nodes), dials);
    }
    forall t, g | t != track || g != f ensures TrackNodes(l'.byNode, t, g) == TrackNodes(l.byNode, t, g) {
      OtherTracksSame(l.byNode, l'.byNode, track, f, t, g);
    }
  }

  lemma RemoveTrackMounts(l: Ledger, track: string, f: string)
    requires Core(l) && IsTrack(track) && f != ""
    ensures var l' := RemoveTrack(l, track, f);
            && TrackNodes(l'.byNode, track, f) == {}
            && forall t, g | t != track || g != f :: TrackNodes(l'.byNode, t, g) == TrackNodes(l.byNode, t, g)
  {
    hide Core, TrackNodes, Leaked, RemoveTrack, OffTrack;
    var l' := RemoveTrack(l, track, f);
    RemoveTrackEffect(l, track, f);
    OffTrackEmpty(l.byNode, track, f);
    OffTrackTwice(l.byNode, track, f);
    forall t, g | t != track || g != f ensures TrackNodes(l'.byNode, t, g) == TrackNodes(l.byNode, t, g) {
      OtherTracksSame(l.byNode, l'.byNode, track, f, t, g);
    }
  }

  lemma EmptyTrackHasNoKey(l: Ledger, track: string, f: string)
    requires Core(l) && Named(track, f)
    requires forall key | key in l.byNode :: !OnTrack(l.byNode[key], track, f)
    ensures forall id :: NodeKey(track, f, id) !in l.byNode
  {
    hide NodeKey, Accounted;
    forall id ensures NodeKey(track, f, id) !in l.byNode {
      var key := NodeKey(track, f, id);
      if key in l.byNode {
        assert Filed(l, key);
        var h := l.byNode[key];
        NodeKeyInjective(track, f, id, h.track, h.flowID, h.nodeID);
      }
    }
  }
}
