/**
 * Why the concurrent draft protocol speaks about the real ledger: its table of drafts is a view of the ledger, and
 * each ledger step a draft call is made of is one of the protocol's actions on that view.
 */
module DraftBridge {
  import opened Prelude
  import opened FlowDsl
  import opened MqttKeys
  import opened MqttLedger
  import opened MqttTracks
  import P = DraftProtocol

  ghost function DraftFlows(m: map<string, Handle>): set<string> {
    set key | key in m && m[key].track == DRAFT :: m[key].flowID
  }

  /** The flows with a draft handle, and the nodes that hold one. */
  ghost function Drafts(m: map<string, Handle>): map<string, set<string>> {
    map f | f in DraftFlows(m) :: TrackNodes(m, DRAFT, f)
  }

  /** The protocol's state, seen from the ledger. */
  ghost function View(s: P.State, l: Ledger): P.State {
    s.(drafts := Drafts(l.byNode))
  }

  /** Removing the draft track is the protocol's removal. */
  lemma RemoveDraftView(s: P.State, l: Ledger, f: string)
    requires Core(l) && f != ""
    ensures P.RemoveDraft(View(s, l), f) == View(s.(late := s.late - {f}), RemoveTrack(l, DRAFT, f))
  {
    hide Core, RemoveTrack;
    RemoveTrackEffect(l, DRAFT, f);
    var m, m' := l.byNode, OffTrack(l.byNode, DRAFT, f);
    forall g ensures g in DraftFlows(m') <==> g in DraftFlows(m) && g != f {
      if g in DraftFlows(m) && g != f {
        var key :| key in m && m[key].track == DRAFT && m[key].flowID == g;
        assert key in m' && m'[key] == m[key];
      }
    }
    forall g | g in DraftFlows(m') ensures TrackNodes(m', DRAFT, g) == TrackNodes(m, DRAFT, g) {
      forall n ensures n in TrackNodes(m', DRAFT, g) <==> n in TrackNodes(m, DRAFT, g) {
        if n in TrackNodes(m, DRAFT, g) {
          var key :| key in m && OnTrack(m[key], DRAFT, g) && m[key].nodeID == n;
          assert key in m' && m'[key] == m[key];
        }
      }
    }
    assert Drafts(m') == Drafts(m) - {f};
  }

  /** Removing the published track leaves every draft alone. */
  lemma RemovePublishedView(l: Ledger, f: string)
    requires Core(l) && f != ""
    ensures Drafts(RemoveTrack(l, PUBLISHED, f).byNode) == Drafts(l.byNode)
  {
    hide Core, RemoveTrack;
    RemoveTrackEffect(l, PUBLISHED, f);
    SameDrafts(l.byNode, OffTrack(l.byNode, PUBLISHED, f));
  }

  /** Only draft handles matter to the view. */
  lemma SameDrafts(m: map<string, Handle>, m': map<string, Handle>)
    requires forall key | key in m && m[key].track == DRAFT :: key in m' && m'[key] == m[key]
    requires forall key | key in m' && m'[key].track == DRAFT :: key in m && m[key] == m'[key]
    ensures Drafts(m') == Drafts(m)
  {
    forall g ensures g in DraftFlows(m') <==> g in DraftFlows(m) {
      if g in DraftFlows(m) {
        var key :| key in m && m[key].track == DRAFT && m[key].flowID == g;
        assert key in m' && m'[key] == m[key];
      }
      if g in DraftFlows(m') {
        var key :| key in m' && m'[key].track == DRAFT && m'[key].flowID == g;
        assert key in m && m[key] == m'[key];
      }
    }
    forall g ensures TrackNodes(m', DRAFT, g) == TrackNodes(m, DRAFT, g) {
      forall n ensures n in TrackNodes(m', DRAFT, g) <==> n in TrackNodes(m, DRAFT, g) {
        if n in TrackNodes(m, DRAFT, g) {
          var key :| key in m && OnTrack(m[key], DRAFT, g) && m[key].nodeID == n;
          assert key in m' && m'[key] == m[key];
        }
        if n in TrackNodes(m', DRAFT, g) {
          var key :| key in m' && OnTrack(m'[key], DRAFT, g) && m'[key].nodeID == n;
          assert key in m && m[key] == m'[key];
        }
      }
    }
  }

  /** A handle filed under its own key replaces at most a handle of the same node of the same track. */
  predicate FiledSafely(m: map<string, Handle>, h: Handle) {
    HandleKey(h) in m ==>
      var o := m[HandleKey(h)]; o.track == h.track && o.flowID == h.flowID && o.nodeID == h.nodeID
  }

  lemma CoreFilesSafely(l: Ledger, h: Handle)
    requires Core(l) && Named(h.track, h.flowID)
    ensures FiledSafely(l.byNode, h)
  {
    hide Accounted, NodeKey, FlowKey;
    if HandleKey(h) in l.byNode {
      assert Filed(l, HandleKey(h));
      var o := l.byNode[HandleKey(h)];
      NodeKeyInjective(h.track, h.flowID, h.nodeID, o.track, o.flowID, o.nodeID);
    }
  }

  lemma FileNodes(m: map<string, Handle>, key: string, h: Handle, g: string)
    requires h.track == DRAFT
    requires key in m ==> m[key].track == DRAFT && m[key].flowID == h.flowID && m[key].nodeID == h.nodeID
    ensures TrackNodes(m[key := h], DRAFT, g) == TrackNodes(m, DRAFT, g) + if g == h.flowID then {h.nodeID} else {}
    ensures g in DraftFlows(m[key := h]) <==> g in DraftFlows(m) || g == h.flowID
  {
    var m' := m[key := h];
    assert key in m' && m'[key] == h;
    forall n
      ensures n in TrackNodes(m', DRAFT, g) <==> n in TrackNodes(m, DRAFT, g) || (g == h.flowID && n == h.nodeID)
    {
      if n in TrackNodes(m, DRAFT, g) {
        var k :| k in m && OnTrack(m[k], DRAFT, g) && m[k].nodeID == n;
        assert k in m';
      }
    }
    if g in DraftFlows(m) {
      var k :| k in m && m[k].track == DRAFT && m[k].flowID == g;
      assert k in m' && m'[k].track == DRAFT && m'[k].flowID == g;
    }
  }

  lemma NoFlowNoNodes(m: map<string, Handle>, f: string)
    requires f !in DraftFlows(m)
    ensures TrackNodes(m, DRAFT, f) == {}
  {
  }

  /** Registering a draft handle is the protocol's mount of one node. */
  lemma RegisterView(s: P.State, l: Ledger, h: Handle)
    requires Core(l) && Named(h.track, h.flowID) && h.track == DRAFT
    ensures P.AddHandle(View(s, l), h.flowID, h.nodeID) == View(s, Register(l, h))
  {
    hide Core, Named, HandleKey, TrackNodes, DraftFlows;
    CoreFilesSafely(l, h);
    var m, key := l.byNode, HandleKey(h);
    forall g
      ensures TrackNodes(m[key := h], DRAFT, g) == TrackNodes(m, DRAFT, g) + if g == h.flowID then {h.nodeID} else {}
      ensures g in DraftFlows(m[key := h]) <==> g in DraftFlows(m) || g == h.flowID
    {
      FileNodes(m, key, h, g);
    }
    if h.flowID !in DraftFlows(m) {
      NoFlowNoNodes(m, h.flowID);
    }
    assert Register(l, h).byNode == m[key := h];
    forall g | g in Drafts(m[key := h]) && g != h.flowID
      ensures g in Drafts(m) && Drafts(m[key := h])[g] == Drafts(m)[g]
    {
      assert TrackNodes(m[key := h], DRAFT, g) == TrackNodes(m, DRAFT, g);
    }
    var was := if h.flowID in DraftFlows(m) then TrackNodes(m, DRAFT, h.flowID) else {};
    assert Drafts(m[key := h]) == Drafts(m)[h.flowID := was + {h.nodeID}];
  }

  lemma RegisterPublishedView(l: Ledger, h: Handle)
    requires Core(l) && Named(h.track, h.flowID) && h.track != DRAFT
    ensures Drafts(Register(l, h).byNode) == Drafts(l.byNode)
  {
    hide Core, Named, HandleKey;
    CoreFilesSafely(l, h);
    SameDrafts(l.byNode, Register(l, h).byNode);
  }

  /** An action of a rebuild that files a draft handle mounts one node; any other leaves all drafts as they are. */
  lemma StepView(s: P.State, p: Progress, track: string, f: string, act: Act, dials: nat -> Dial)
    requires Core(p.l) && Named(track, f)
    ensures var l' := Step(p, track, f, act, dials).l;
      View(s, l') == if track == DRAFT && l'.byNode != p.l.byNode then P.AddHandle(View(s, p.l), f, act.node.id)
                     else View(s, p.l)
  {
    hide Core, Named, NodeKey, Drafts, Register;
    var p' := Step(p, track, f, act, dials);
    if p'.l.byNode != p.l.byNode {
      var n := act.node.id;
      var dialed := Dialed(p.l);
      DialedCore(p.l);
      if act.out && act.node.outCfg.value.reuseFrom != "" {
        var cfg := act.node.outCfg.value;
        var h := Handle(track, f, n, OutReuse, p.l.byNode[NodeKey(track, f, cfg.reuseFrom)].client, "", false,
                        cfg.reuseFrom);
        RegisteredView(s, p.l, h);
      } else if act.out {
        RegisteredView(s, dialed, Handle(track, f, n, OutPersistent, p.l.dialed, "", true, ""));
      } else {
        RegisteredView(s, dialed, Handle(track, f, n, In, p.l.dialed, act.node.inCfg.value.topic, true, ""));
      }
    }
  }

  lemma RegisteredView(s: P.State, l: Ledger, h: Handle)
    requires Core(l) && Named(h.track, h.flowID)
    ensures View(s, Register(l, h)) ==
            if h.track == DRAFT then P.AddHandle(View(s, l), h.flowID, h.nodeID) else View(s, l)
  {
    hide Core, Named, Drafts, Register;
    if h.track == DRAFT {
      RegisterView(s, l, h);
    } else {
      RegisterPublishedView(l, h);
    }
  }

  // ---- the protocol over the real ledger ----

  /** The calls and sessions of the protocol beside the ledger itself. */
  datatype Real = Real(p: P.State, l: Ledger)

  /**
   * One step of a draft call that is not a mount; one action of a call's rebuild of a draft track; one action of a
   * rebuild of a published track; and the removal of a published track. Steps of all calls interleave freely.
   */
  datatype Move =
    | Call(a: P.Action)
    | MountDraft(t: nat, pr: Progress, act: Act, dials: nat -> Dial)
    | MountPublished(f: string, pr: Progress, act: Act, dials: nat -> Dial)
    | RemovePublished(f: string)

  ghost predicate Possible(r: Real, m: Move) {
    match m
    case Call(a) => P.Enabled(r.p, a) && !a.Mount?
    case MountDraft(t, pr, _, _) =>
      t in r.p.threads && (r.p.threads[t].Mounting? || r.p.threads[t].SaveMounting?)
      && Named(DRAFT, r.p.threads[t].f) && pr.l == r.l && pr.ok
    case MountPublished(f, pr, _, _) => Named(PUBLISHED, f) && pr.l == r.l && pr.ok
    case RemovePublished(f) => f != ""
  }

  /** The flow whose draft track the step removes from the ledger. */
  function Removed(p: P.State, a: P.Action): Option<string> {
    match a
    case CloseNext(t) =>
      if t in p.threads && p.threads[t].Closing? && p.threads[t].toClose != [] then Some(p.threads[t].toClose[0])
      else None
    case Clear(t) =>
      if t in p.threads && (p.threads[t].Clearing? || p.threads[t].SaveClearing?) then Some(p.threads[t].f) else None
    case SweepRemove(t) => if t in p.threads && p.threads[t].Sweep? then Some(p.threads[t].f) else None
    case Unmount(f) => Some(f)
    case _ => None
  }

  ghost function Moved(r: Real, m: Move): Real
    requires Possible(r, m)
  {
    match m
    case Call(a) =>
      Real(P.Step(r.p, a), match Removed(r.p, a) case None => r.l case Some(f) => RemoveTrack(r.l, DRAFT, f))
    case MountDraft(t, pr, act, dials) =>
      var l := Step(pr, DRAFT, r.p.threads[t].f, act, dials).l;
      Real(if l.byNode == r.l.byNode then r.p else P.Step(r.p, P.Mount(t, act.node.id)), l)
    case MountPublished(f, pr, act, dials) => Real(r.p, Step(pr, PUBLISHED, f, act, dials).l)
    case RemovePublished(f) => Real(r.p, RemoveTrack(r.l, PUBLISHED, f))
  }

  ghost predicate RealRun(r: Real, moves: seq<Move>, r': Real)
    decreases |moves|
  {
    if moves == [] then r == r' else Possible(r, moves[0]) && RealRun(Moved(r, moves[0]), moves[1..], r')
  }

  /** The protocol's table of drafts is what the ledger holds. */
  ghost predicate Coupled(r: Real) {
    Core(r.l) && View(r.p, r.l) == r.p
  }

  lemma NoDraftUnnamed(l: Ledger)
    requires Core(l)
    ensures "" !in Drafts(l.byNode)
  {
    hide Accounted, NodeKey, FlowKey;
    forall key | key in l.byNode ensures l.byNode[key].flowID != "" {
      assert Filed(l, key);
    }
  }

  lemma CallStepDrafts(s: P.State, a: P.Action)
    requires P.Enabled(s, a) && !a.Mount?
    ensures P.Step(s, a).drafts == match Removed(s, a) case None => s.drafts case Some(f) => s.drafts - {f}
  {
    hide P.IsOpen, P.ListsExact;
  }

  lemma CallCoupled(r: Real, a: P.Action)
    requires Coupled(r) && P.Enabled(r.p, a) && !a.Mount?
    ensures Coupled(Moved(r, Call(a)))
  {
    hide Core, RemoveTrack, Drafts, P.Enabled, P.Step, Leaked;
    CallStepDrafts(r.p, a);
    if Removed(r.p, a).Some? {
      var f := Removed(r.p, a).value;
      if f == "" {
        NoDraftUnnamed(r.l);
        assert r.p.drafts - {f} == r.p.drafts;
        RemoveNobody(r.l);
      } else {
        RemoveTrackEffect(r.l, DRAFT, f);
        RemoveDraftView(r.p, r.l, f);
      }
    }
  }

  lemma RemoveNobody(l: Ledger)
    ensures RemoveTrack(l, DRAFT, "") == l
  {
  }

  lemma MoveCoupled(r: Real, m: Move)
    requires Coupled(r) && Possible(r, m)
    ensures Coupled(Moved(r, m))
    ensures Moved(r, m).p == r.p
            || (exists a :: P.Enabled(r.p, a) && Moved(r, m).p == P.Step(r.p, a))
  {
    hide Core, RemoveTrack, Drafts, P.IsOpen, Leaked, Named, NulFree;
    match m {
      case Call(a) => CallCoupled(r, a);
      case MountDraft(t, pr, act, dials) =>
        var f := r.p.threads[t].f;
        StepEffect(pr, DRAFT, f, act, dials, {});
        StepView(r.p, pr, DRAFT, f, act, dials);
        assert P.Enabled(r.p, P.Mount(t, act.node.id));
      case MountPublished(f, pr, act, dials) =>
        StepEffect(pr, PUBLISHED, f, act, dials, {});
        StepView(r.p, pr, PUBLISHED, f, act, dials);
      case RemovePublished(f) =>
        RemoveTrackEffect(r.l, PUBLISHED, f);
        RemovePublishedView(r.l, f);
    }
  }

  /** Every run over the real ledger is a run of the protocol. */
  lemma {:induction false} Projects(r: Real, moves: seq<Move>, r': Real) returns (actions: seq<P.Action>)
    requires Coupled(r) && RealRun(r, moves, r')
    ensures Coupled(r') && P.Run(r.p, actions, r'.p)
    decreases |moves|
  {
    hide Coupled, Possible, Moved, P.Enabled, P.Step;
    if moves == [] {
      actions := [];
    } else {
      var r1 := Moved(r, moves[0]);
      MoveCoupled(r, moves[0]);
      var rest := Projects(r1, moves[1..], r');
      if r1.p == r.p {
        actions := rest;
      } else {
        var a :| P.Enabled(r.p, a) && r1.p == P.Step(r.p, a);
        P.OneStep(r.p, a, r1.p, rest, r'.p);
        actions := [a] + rest;
      }
    }
  }

  const START := Real(P.Idle, NoClients)

  /** A save's rebuild files a draft handle for a flow that nobody has open any more. */
  ghost predicate MountsLate(r: Real, m: Move, f: string)
    requires Possible(r, m)
  {
    && m.MountDraft? && r.p.threads[m.t].SaveMounting? && r.p.threads[m.t].f == f && !P.IsOpen(r.p, f)
    && Moved(r, m).l.byNode != r.l.byNode
  }

  /** The step removes the flow's draft track, or an editor opens the flow. */
  predicate Undoes(r: Real, m: Move, f: string) {
    m.Call? && (Removed(r.p, m.a) == Some(f) || P.Reopens(m.a, f))
  }

  ghost predicate NeverUndone(r: Real, moves: seq<Move>, f: string)
    decreases |moves|
  {
    moves != [] && Possible(r, moves[0]) ==> !Undoes(r, moves[0], f) && NeverUndone(Moved(r, moves[0]), moves[1..], f)
  }

  /** Some move of a save mounts the flow's draft late, and no later move removes it or opens the flow. */
  ghost predicate LateMoveStands(r: Real, moves: seq<Move>, f: string)
    decreases |moves|
  {
    moves != [] && Possible(r, moves[0]) &&
      ((MountsLate(r, moves[0], f) && NeverUndone(Moved(r, moves[0]), moves[1..], f))
       || LateMoveStands(Moved(r, moves[0]), moves[1..], f))
  }

  lemma LateMove(r: Real, m: Move, f: string)
    requires Possible(r, m)
    ensures f in Moved(r, m).p.late <==> MountsLate(r, m, f) || (f in r.p.late && !Undoes(r, m, f))
  {
    hide P.IsOpen, P.ListsExact, RemoveTrack, Step, Named;
    if m.Call? {
      P.LateStep(r.p, m.a, f);
      RemovedIs(r.p, m.a, f);
    }
  }

  lemma RemovedIs(s: P.State, a: P.Action, f: string)
    requires P.Enabled(s, a) && !a.Mount?
    ensures Removed(s, a) == Some(f) <==> P.Removes(s, a, f)
    ensures !P.MountsLate(s, a, f)
  {
    hide P.IsOpen, P.ListsExact;
  }

  lemma {:induction false} LateMovesExactly(r: Real, moves: seq<Move>, r': Real, f: string)
    requires RealRun(r, moves, r')
    ensures f in r'.p.late <==> (f in r.p.late && NeverUndone(r, moves, f)) || LateMoveStands(r, moves, f)
    decreases |moves|
  {
    hide Possible, Moved, MountsLate, Undoes;
    if moves != [] {
      LateMove(r, moves[0], f);
      LateMovesExactly(Moved(r, moves[0]), moves[1..], r', f);
    }
  }

  /**
   * Under every interleaving of session calls, saves and published rebuilds over the real ledger, once no session call
   * is in flight a draft handle of a closed flow is left exactly where some move of a save mounted it late and no
   * later move has removed it or opened the flow.
   */
  lemma LedgerDraftsFollowEditors(moves: seq<Move>, r: Real, f: string)
    requires RealRun(START, moves, r) && P.SessionsQuiet(r.p)
    ensures (exists key :: key in r.l.byNode && OnTrack(r.l.byNode[key], DRAFT, f) && !P.IsOpen(r.p, f))
            <==> LateMoveStands(START, moves, f)
  {
    hide RealRun, P.Run, LateMoveStands, NeverUndone, P.IsOpen, Core;
    StartCoupled();
    var actions := Projects(START, moves, r);
    P.RunKeepsInv(P.Idle, actions, r.p);
    LateMovesExactly(START, moves, r, f);
    HandleIsDraft(r, f);
  }

  lemma HandleIsDraft(r: Real, f: string)
    requires Coupled(r)
    ensures f in r.p.drafts <==> exists key :: key in r.l.byNode && OnTrack(r.l.byNode[key], DRAFT, f)
  {
    hide Core, TrackNodes;
    assert r.p.drafts == Drafts(r.l.byNode);
    if key :| key in r.l.byNode && OnTrack(r.l.byNode[key], DRAFT, f) {
      assert f in DraftFlows(r.l.byNode);
    }
  }

  lemma StartCoupled()
    ensures Coupled(START)
  {
    assert Drafts(NoClients.byNode) == map[];
  }
}
