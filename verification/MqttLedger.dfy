/**
 * Values of the MQTT client ledger: which client each node of a flow holds, which clients are
 * connected, and which have been disconnected.
 *
 * `connected`, `dialed` and `closed` are the broker's side of the story: clients are numbered in the
 * order they are connected, and `closed` records every disconnect.
 */
module MqttLedger {
  import opened Prelude
  import opened FlowDsl
  import opened MqttKeys

  datatype Kind = In | OutPersistent | OutReuse

  datatype Handle = Handle(track: string, flowID: string, nodeID: string, kind: Kind, client: nat,
                           topic: string, owned: bool, reuseOf: string)

  datatype Ledger = Ledger(byNode: map<string, Handle>, byFlow: map<string, seq<string>>,
                           connected: set<nat>, dialed: nat, closed: seq<nat>)

  /** What the network answers when a client connects and subscribes. */
  datatype Dial = Connects | Refuses | SubscribeFails

  const NoClients := Ledger(map[], map[], {}, 0, [])

  // ---- operations ----

  function HandleKey(h: Handle): string {
    NodeKey(h.track, h.flowID, h.nodeID)
  }

  function HandleFlow(h: Handle): string {
    FlowKey(h.track, h.flowID)
  }

  function Register(l: Ledger, h: Handle): Ledger {
    var fk := HandleFlow(h);
    l.(byNode := l.byNode[HandleKey(h) := h],
       byFlow := l.byFlow[fk := (if fk in l.byFlow then l.byFlow[fk] else []) + [HandleKey(h)]])
  }

  /** Connect the next client. */
  function Dialed(l: Ledger): Ledger {
    l.(connected := l.connected + {l.dialed}, dialed := l.dialed + 1)
  }

  function HungUp(l: Ledger, c: nat): Ledger {
    l.(connected := l.connected - {c}, closed := l.closed + [c])
  }

  function AddIn(l: Ledger, track: string, f: string, n: string, cfg: InConfig, dial: Dial): (Ledger, bool) {
    match dial
    case Refuses => (l, false)
    case SubscribeFails => (HungUp(Dialed(l), l.dialed), false)
    case Connects => (Register(Dialed(l), Handle(track, f, n, In, l.dialed, cfg.topic, true, "")), true)
  }

  function AddOut(l: Ledger, track: string, f: string, n: string, cfg: OutConfig, dial: Dial): (Ledger, bool) {
    if cfg.reuseFrom != "" then
      var key := NodeKey(track, f, cfg.reuseFrom);
      if key !in l.byNode || l.byNode[key].kind != In then (l, false)
      else (Register(l, Handle(track, f, n, OutReuse, l.byNode[key].client, "", false, cfg.reuseFrom)), true)
    else if !cfg.persistent then (l, true)
    else if dial == Refuses then (l, false)
    else (Register(Dialed(l), Handle(track, f, n, OutPersistent, l.dialed, "", true, "")), true)
  }

  /** Stop one handle, disconnecting the client if the handle owns it. */
  function Stop(l: Ledger, key: string): Ledger {
    if key !in l.byNode then l
    else
      var h := l.byNode[key];
      (if h.owned then HungUp(l, h.client) else l).(byNode := l.byNode - {key})
  }

  function StopAll(l: Ledger, keys: seq<string>): Ledger
    decreases |keys|
  {
    if keys == [] then l else StopAll(Stop(l, keys[0]), keys[1..])
  }

  function KeysOf(l: Ledger, fk: string): seq<string> {
    if fk in l.byFlow then l.byFlow[fk] else []
  }

  function RemoveTrack(l: Ledger, track: string, f: string): Ledger {
    if f == "" then l
    else
      var fk := FlowKey(track, f);
      StopAll(l.(byFlow := l.byFlow - {fk}), KeysOf(l, fk))
  }

  /** Receivers are added before senders, each pass in the order of the DSL. */
  datatype Act = Act(out: bool, node: Node)

  function Acts(nodes: seq<Node>): seq<Act> {
    seq(|nodes|, i requires 0 <= i < |nodes| => Act(false, nodes[i])) +
    seq(|nodes|, i requires 0 <= i < |nodes| => Act(true, nodes[i]))
  }

  datatype Progress = Progress(l: Ledger, n: nat, active: set<string>, ok: bool)

  function Step(p: Progress, track: string, f: string, act: Act, dials: nat -> Dial): Progress {
    match (act.out, act.node)
    case (false, MqttInNode(id, None)) => p.(ok := false)
    case (false, MqttInNode(id, Some(cfg))) =>
      if track == DRAFT && !cfg.connectAndRespond then p
      else
        var (l, ok) := AddIn(p.l, track, f, id, cfg, dials(p.n));
        Progress(l, p.n + 1, if ok then p.active + {id} else p.active, ok)
    case (true, MqttOutNode(id, None)) => p.(ok := false)
    case (true, MqttOutNode(id, Some(cfg))) =>
      if !cfg.managed || (track == DRAFT && cfg.reuseFrom != "" && cfg.reuseFrom !in p.active) then p
      else
        var (l, ok) := AddOut(p.l, track, f, id, cfg, dials(p.n));
        Progress(l, p.n + 1, p.active, ok)
    case _ => p
  }

  /** Carry out actions until one fails. */
  function Fold(p: Progress, track: string, f: string, acts: seq<Act>, dials: nat -> Dial): Progress
    decreases |acts|
  {
    if acts == [] || !p.ok then p else Fold(Step(p, track, f, acts[0], dials), track, f, acts[1..], dials)
  }

  /** Rebuild one track of a flow; a failure leaves the track empty. */
  function SyncTrack(l: Ledger, track: string, f: string, dsl: Dsl, dials: nat -> Dial): (Ledger, bool) {
    var p := Fold(Progress(RemoveTrack(l, track, f), 0, {}, true), track, f, Acts(dsl.nodes), dials);
    (if p.ok then p.l else RemoveTrack(p.l, track, f), p.ok)
  }

  function SyncFlow(l: Ledger, f: string, published: Option<Dsl>, dials: nat -> Dial): (Ledger, bool) {
    var l1 := RemoveTrack(l, DRAFT, f);
    match published
    case None => (RemoveTrack(l1, PUBLISHED, f), true)
    case Some(dsl) => SyncTrack(l1, PUBLISHED, f, dsl, dials)
  }

  /** `open` says whether some editor has the flow open. */
  function SyncDraft(l: Ledger, f: string, open: bool, published: Option<Dsl>, draft: Option<Dsl>,
      dials: nat -> Dial): (Ledger, bool) {
    if !open || published.Some? || draft.None? then (RemoveTrack(l, DRAFT, f), true)
    else SyncTrack(l, DRAFT, f, draft.value, dials)
  }

  /** The published track is asked first. */
  function Publisher(l: Ledger, f: string, n: string): Option<nat> {
    if f == "" || n == "" then None
    else if NodeKey(PUBLISHED, f, n) in l.byNode then Some(l.byNode[NodeKey(PUBLISHED, f, n)].client)
    else if NodeKey(DRAFT, f, n) in l.byNode then Some(l.byNode[NodeKey(DRAFT, f, n)].client)
    else None
  }

  // ---- what always holds ----

  predicate OnTrack(h: Handle, track: string, f: string) {
    h.track == track && h.flowID == f
  }

  predicate Named(track: string, f: string) {
    IsTrack(track) && NulFree(f) && f != ""
  }

  ghost predicate Filed(l: Ledger, key: string)
    requires key in l.byNode
  {
    var h := l.byNode[key];
    && key == HandleKey(h)
    && Named(h.track, h.flowID)
    && key in KeysOf(l, HandleFlow(h))
  }

  predicate Owns(l: Ledger, key: string) {
    key in l.byNode && l.byNode[key].owned
  }

  /** Owned clients are connected and have one owner; every client opened is connected or closed, once. */
  ghost predicate Accounted(l: Ledger) {
    && (forall key | Owns(l, key) :: l.byNode[key].client in l.connected)
    && (forall j, k | Owns(l, j) && Owns(l, k) && l.byNode[j].client == l.byNode[k].client :: j == k)
    && NoDup(l.closed)
    && (forall c: nat :: c < l.dialed <==> c in l.connected || c in l.closed)
    && (forall c: nat | c in l.connected :: c !in l.closed)
  }

  ghost predicate Core(l: Ledger) {
    && (forall key | key in l.byNode :: Filed(l, key))
    && (forall fk, key | fk in l.byFlow && key in l.byFlow[fk] :: key in l.byNode && HandleFlow(l.byNode[key]) == fk)
    && Accounted(l)
  }

  /** The clients that handles own. */
  ghost function Clients(m: map<string, Handle>): set<nat> {
    set key | key in m && m[key].owned :: m[key].client
  }

  /** Clients that are connected although no handle owns them any more. */
  ghost function Leaked(l: Ledger): set<nat> {
    l.connected - Clients(l.byNode)
  }

  ghost function OffTrack(m: map<string, Handle>, track: string, f: string): map<string, Handle> {
    map key | key in m && !OnTrack(m[key], track, f) :: m[key]
  }

  lemma StopKeeps(l: Ledger, key: string)
    requires Accounted(l)
    ensures Accounted(Stop(l, key)) && Leaked(Stop(l, key)) == Leaked(l)
    ensures Stop(l, key).byNode == l.byNode - {key}
    ensures Stop(l, key).byFlow == l.byFlow && Stop(l, key).dialed == l.dialed
  {
    var l' := Stop(l, key);
    if Owns(l, key) {
      var c := l.byNode[key].client;
      assert l'.closed == l.closed + [c];
      assert forall k | Owns(l', k) :: Owns(l, k);
      forall x ensures x in Clients(l'.byNode) <==> x in Clients(l.byNode) && x != c {
        if x in Clients(l'.byNode) {
          var k :| k in l'.byNode && l'.byNode[k].owned && l'.byNode[k].client == x;
          assert Owns(l, k);
        }
        if x in Clients(l.byNode) && x != c {
          var k :| k in l.byNode && l.byNode[k].owned && l.byNode[k].client == x;
          assert k in l'.byNode && l'.byNode[k] == l.byNode[k];
        }
      }
      forall x: nat ensures x < l'.dialed <==> x in l'.connected || x in l'.closed {
        assert x in l'.closed <==> x in l.closed || x == c;
      }
      assert Owns(l, key) && c in l.connected;
    } else if key in l.byNode {
      assert Clients(l'.byNode) == Clients(l.byNode) by {
        forall x | x in Clients(l.byNode) ensures x in Clients(l'.byNode) {
          var k :| k in l.byNode && l.byNode[k].owned && l.byNode[k].client == x;
          assert k in l'.byNode && l'.byNode[k] == l.byNode[k];
        }
      }
      assert forall k | Owns(l', k) :: Owns(l, k);
    }
  }

  lemma {:induction false} StopAllKeeps(l: Ledger, keys: seq<string>)
    requires Accounted(l)
    ensures Accounted(StopAll(l, keys)) && Leaked(StopAll(l, keys)) == Leaked(l)
    ensures StopAll(l, keys).byNode == l.byNode - Elements(keys)
    ensures StopAll(l, keys).byFlow == l.byFlow && StopAll(l, keys).dialed == l.dialed
    decreases |keys|
  {
    hide Accounted, Leaked, Stop;
    if keys == [] {
      assert l.byNode - Elements(keys) == l.byNode;
    } else {
      StopKeeps(l, keys[0]);
      StopAllKeeps(Stop(l, keys[0]), keys[1..]);
      assert l.byNode - {keys[0]} - Elements(keys[1..]) == l.byNode - Elements(keys);
    }
  }

  /** Removing a track drops exactly its handles, disconnects what they own and leaks nothing new. */
  lemma RemoveTrackEffect(l: Ledger, track: string, f: string)
    requires Core(l) && IsTrack(track) && f != ""
    ensures var l' := RemoveTrack(l, track, f);
            && Core(l')
            && l'.byNode == OffTrack(l.byNode, track, f)
            && Leaked(l') == Leaked(l)
  {
    hide Accounted, Leaked, StopAll, NodeKey, FlowKey, NulFree;
    var fk := FlowKey(track, f);
    var l0 := l.(byFlow := l.byFlow - {fk});
    assert Accounted(l0) && Leaked(l0) == Leaked(l) by {
      SameBooks(l, l0);
    }
    StopAllKeeps(l0, KeysOf(l, fk));
    var l' := RemoveTrack(l, track, f);
    forall key ensures key in Elements(KeysOf(l, fk)) <==> key in l.byNode && OnTrack(l.byNode[key], track, f) {
      if key in l.byNode {
        assert Filed(l, key);
        if HandleFlow(l.byNode[key]) == fk {
          FlowKeyInjective(l.byNode[key].track, l.byNode[key].flowID, track, f);
        }
      }
    }
    assert l'.byNode == OffTrack(l.byNode, track, f);
    forall key | key in l'.byNode ensures Filed(l', key) {
      assert Filed(l, key);
      var h := l.byNode[key];
      if HandleFlow(h) == fk {
        FlowKeyInjective(h.track, h.flowID, track, f);
      }
    }
    forall gk, key | gk in l'.byFlow && key in l'.byFlow[gk]
      ensures key in l'.byNode && HandleFlow(l'.byNode[key]) == gk {
      assert key in l.byNode && HandleFlow(l.byNode[key]) == gk;
    }
  }

  lemma SameBooks(l: Ledger, l0: Ledger)
    requires Accounted(l) && l0 == l.(byFlow := l0.byFlow)
    ensures Accounted(l0) && Leaked(l0) == Leaked(l)
  {
    assert forall key :: Owns(l0, key) <==> Owns(l, key);
  }

  // ---- registering a handle ----

  /** The client a registration would leave without an owner. */
  ghost function Spilled(l: Ledger, key: string): set<nat> {
    if Owns(l, key) then {l.byNode[key].client} else {}
  }

  lemma RegisterKeys(l: Ledger, h: Handle, fk: string, key: string)
    ensures key in KeysOf(Register(l, h), fk) <==> key in KeysOf(l, fk) || (fk == HandleFlow(h) && key == HandleKey(h))
  {
  }

  lemma RegisterFiles(l: Ledger, h: Handle)
    requires Core(l) && Named(h.track, h.flowID)
    ensures var l' := Register(l, h);
            && (forall key | key in l'.byNode :: Filed(l', key))
            && (forall fk, key | fk in l'.byFlow && key in l'.byFlow[fk] ::
                key in l'.byNode && HandleFlow(l'.byNode[key]) == fk)
  {
    hide Accounted, NulFree, NodeKey, FlowKey;
    var l' := Register(l, h);
    var key0 := HandleKey(h);
    if key0 in l.byNode {
      assert Filed(l, key0);
      var o := l.byNode[key0];
      NodeKeyInjective(h.track, h.flowID, h.nodeID, o.track, o.flowID, o.nodeID);
    }
    forall key | key in l'.byNode ensures Filed(l', key) {
      RegisterKeys(l, h, HandleFlow(l'.byNode[key]), key);
      if key != key0 {
        assert Filed(l, key);
      }
    }
    forall fk, key | fk in l'.byFlow && key in l'.byFlow[fk]
      ensures key in l'.byNode && HandleFlow(l'.byNode[key]) == fk {
      RegisterKeys(l, h, fk, key);
      if key in KeysOf(l, fk) {
        assert key in l.byNode && HandleFlow(l.byNode[key]) == fk;
      }
    }
  }

  lemma RegisterOffTrack(l: Ledger, h: Handle)
    requires Core(l) && Named(h.track, h.flowID)
    ensures OffTrack(Register(l, h).byNode, h.track, h.flowID) == OffTrack(l.byNode, h.track, h.flowID)
  {
    hide Accounted, NulFree, NodeKey, FlowKey;
    var key0 := HandleKey(h);
    if key0 in l.byNode {
      assert Filed(l, key0);
      var o := l.byNode[key0];
      NodeKeyInjective(h.track, h.flowID, h.nodeID, o.track, o.flowID, o.nodeID);
    }
  }

  lemma SpillClients(m: map<string, Handle>, key: string, h: Handle)
    requires forall j, k | j in m && k in m && m[j].owned && m[k].owned && m[j].client == m[k].client :: j == k
    requires h.owned ==> forall k | k in m && m[k].owned :: m[k].client != h.client
    ensures Clients(m[key := h]) == Clients(m) - (if key in m && m[key].owned then {m[key].client} else {})
        + (if h.owned then {h.client} else {})
  {
    var m' := m[key := h];
    forall c ensures c in Clients(m') <==>
      (c in Clients(m) && !(key in m && m[key].owned && m[key].client == c)) || (h.owned && c == h.client)
    {
      if c in Clients(m') {
        var k :| k in m' && m'[k].owned && m'[k].client == c;
        if k != key {
          assert k in m && m[k] == m'[k];
        }
      }
      if c in Clients(m) && !(key in m && m[key].owned && m[key].client == c) {
        var k :| k in m && m[k].owned && m[k].client == c;
        assert k in m' && m'[k] == m[k];
      }
      if h.owned && c == h.client {
        assert key in m' && m'[key].owned && m'[key].client == c;
      }
    }
  }

  lemma RegisterAccounts(l: Ledger, l1: Ledger, h: Handle)
    requires Accounted(l) && l.dialed !in l.connected && l.dialed !in l.closed && Accounted(Dialed(l))
    requires l1 == if h.owned then Dialed(l) else l
    requires h.owned ==> h.client == l.dialed
    ensures Accounted(Register(l1, h))
  {
    hide HandleKey;
    var l' := Register(l1, h);
    assert forall k | Owns(l', k) && k != HandleKey(h) :: Owns(l, k) && l.byNode[k] == l'.byNode[k];
  }

  lemma RegisterLeaks(l: Ledger, l1: Ledger, h: Handle)
    requires Accounted(l) && l.dialed !in l.connected
    requires l1 == if h.owned then Dialed(l) else l
    requires h.owned ==> h.client == l.dialed
    ensures Leaked(Register(l1, h)) == Leaked(l) + Spilled(l, HandleKey(h))
  {
    hide HandleKey;
    var key := HandleKey(h);
    forall k | k in l.byNode && l.byNode[k].owned ensures l.byNode[k].client in l.connected {
      assert Owns(l, k);
    }
    forall j, k | j in l.byNode && k in l.byNode && l.byNode[j].owned && l.byNode[k].owned
                  && l.byNode[j].client == l.byNode[k].client ensures j == k {
      assert Owns(l, j) && Owns(l, k);
    }
    SpillClients(l.byNode, key, h);
  }

  /** Registering over an owned handle leaks its client; any other registration leaks nothing. */
  lemma AddEffect(l: Ledger, l1: Ledger, h: Handle)
    requires Core(l) && Named(h.track, h.flowID)
    requires l1 == if h.owned then Dialed(l) else l
    requires h.owned ==> h.client == l.dialed
    ensures Core(Register(l1, h))
    ensures Leaked(Register(l1, h)) == Leaked(l) + Spilled(l, HandleKey(h))
    ensures OffTrack(Register(l1, h).byNode, h.track, h.flowID) == OffTrack(l.byNode, h.track, h.flowID)
  {
    hide Accounted, Filed, Named, Leaked, Spilled, OffTrack, HandleKey, HandleFlow;
    DialedCore(l);
    RegisterFiles(l1, h);
    RegisterOffTrack(l1, h);
    RegisterAccounts(l, l1, h);
    RegisterLeaks(l, l1, h);
  }

  lemma DialedCore(l: Ledger)
    requires Core(l)
    ensures Core(Dialed(l)) && l.dialed !in l.connected && l.dialed !in l.closed
  {
    var l' := Dialed(l);
    assert l.dialed < l.dialed <==> l.dialed in l.connected || l.dialed in l.closed;
    forall key | key in l'.byNode ensures Filed(l', key) {
      assert Filed(l, key);
    }
    assert forall key :: Owns(l', key) <==> Owns(l, key);
    forall c: nat ensures c < l'.dialed <==> c in l'.connected || c in l'.closed {
      assert c < l.dialed <==> c in l.connected || c in l.closed;
    }
  }

  lemma DialedHungUp(l: Ledger)
    requires Core(l)
    ensures Core(HungUp(Dialed(l), l.dialed)) && Leaked(HungUp(Dialed(l), l.dialed)) == Leaked(l)
  {
    var l' := HungUp(Dialed(l), l.dialed);
    DialedCore(l);
    forall key | key in l'.byNode ensures Filed(l', key) {
      assert Filed(l, key);
    }
    assert l'.connected == l.connected;
    assert forall key :: Owns(l', key) <==> Owns(l, key);
    forall c: nat ensures c < l'.dialed <==> c in l'.connected || c in l'.closed {
      assert c < l.dialed <==> c in l.connected || c in l.closed;
      assert c in l'.closed <==> c in l.closed || c == l.dialed;
    }
  }

  // ---- a whole rebuild ----

  /** What an action registers when nothing fails: the node, and whether the handle owns its client. */
  datatype Reg = Reg(id: string, owned: bool)

  function RegOf(act: Act, track: string, active: set<string>): Option<Reg> {
    match (act.out, act.node)
    case (false, MqttInNode(id, Some(cfg))) =>
      if track == DRAFT && !cfg.connectAndRespond then None else Some(Reg(id, true))
    case (true, MqttOutNode(id, Some(cfg))) =>
      if !cfg.managed || (track == DRAFT && cfg.reuseFrom != "" && cfg.reuseFrom !in active) then None
      else if cfg.reuseFrom != "" then Some(Reg(id, false))
      else if cfg.persistent then Some(Reg(id, true))
      else None
    case _ => None
  }

  function ActiveAfter(act: Act, track: string, active: set<string>): set<string> {
    if !act.out && RegOf(act, track, active).Some? then active + {act.node.id} else active
  }

  function Regs(acts: seq<Act>, track: string, active: set<string>): seq<Reg>
    decreases |acts|
  {
    if acts == [] then []
    else
      (match RegOf(acts[0], track, active) case None => [] case Some(r) => [r]) +
      Regs(acts[1..], track, ActiveAfter(acts[0], track, active))
  }

  /** Some registration of the list replaces a handle that owns its client. */
  predicate Spills(held: set<string>, regs: seq<Reg>)
    decreases |regs|
  {
    regs != [] &&
    (regs[0].id in held || Spills(if regs[0].owned then held + {regs[0].id} else held, regs[1..]))
  }

  /** `held` names the nodes of the track whose handle owns a client. */
  ghost predicate HeldIs(l: Ledger, track: string, f: string, held: set<string>) {
    forall id :: id in held <==> Owns(l, NodeKey(track, f, id))
  }

  /** One action: the books stay in order, and it leaks exactly when it registers over an owner. */
  lemma StepEffect(p: Progress, track: string, f: string, act: Act, dials: nat -> Dial, held: set<string>)
    requires Core(p.l) && Named(track, f) && p.ok
    ensures var p' := Step(p, track, f, act, dials);
            && Core(p'.l)
            && OffTrack(p'.l.byNode, track, f) == OffTrack(p.l.byNode, track, f)
            && (p'.ok ==> p'.active == ActiveAfter(act, track, p.active))
            && (p'.ok && RegOf(act, track, p.active).Some? ==>
                  Leaked(p'.l) == Leaked(p.l) + Spilled(p.l, NodeKey(track, f, RegOf(act, track, p.active).value.id)))
            && (!(p'.ok && RegOf(act, track, p.active).Some?) ==>
                Leaked(p'.l) == Leaked(p.l) && p'.l.byNode == p.l.byNode)
  {
    hide Core, Leaked, NodeKey, OffTrack;
    match (act.out, act.node) {
      case (false, MqttInNode(id, Some(cfg))) =>
        var h := Handle(track, f, id, In, p.l.dialed, cfg.topic, true, "");
        AddEffect(p.l, Dialed(p.l), h);
        DialedHungUp(p.l);
      case (true, MqttOutNode(id, Some(cfg))) =>
        var key := NodeKey(track, f, cfg.reuseFrom);
        if cfg.reuseFrom == "" {
          AddEffect(p.l, Dialed(p.l), Handle(track, f, id, OutPersistent, p.l.dialed, "", true, ""));
        } else if key in p.l.byNode {
          AddEffect(p.l, p.l, Handle(track, f, id, OutReuse, p.l.byNode[key].client, "", false, cfg.reuseFrom));
        }
      case _ =>
    }
  }

  lemma StepHeld(p: Progress, track: string, f: string, act: Act, dials: nat -> Dial, held: set<string>)
    requires Named(track, f) && p.ok && HeldIs(p.l, track, f, held)
    requires Step(p, track, f, act, dials).ok
    ensures var p' := Step(p, track, f, act, dials);
            match RegOf(act, track, p.active)
            case None => HeldIs(p'.l, track, f, held)
            case Some(r) => r.id !in held ==> HeldIs(p'.l, track, f, if r.owned then held + {r.id} else held)
  {
    var p' := Step(p, track, f, act, dials);
    if RegOf(act, track, p.active).Some? {
      var r := RegOf(act, track, p.active).value;
      forall id ensures Owns(p'.l, NodeKey(track, f, id))
          <==> if id == r.id then r.owned else Owns(p.l, NodeKey(track, f, id)) {
        if NodeKey(track, f, id) == NodeKey(track, f, r.id) {
          NodeKeyInjective(track, f, id, track, f, r.id);
        }
      }
    } else {
      assert p'.l == p.l;
    }
  }

  lemma {:induction false} FoldEffect(p: Progress, track: string, f: string, acts: seq<Act>, dials: nat -> Dial,
      held: set<string>)
    requires Core(p.l) && Named(track, f) && p.ok
    ensures var p' := Fold(p, track, f, acts, dials);
            && Core(p'.l)
            && OffTrack(p'.l.byNode, track, f) == OffTrack(p.l.byNode, track, f)
            && Leaked(p.l) <= Leaked(p'.l)
            && (HeldIs(p.l, track, f, held) && !Spills(held, Regs(acts, track, p.active)) ==>
                Leaked(p'.l) == Leaked(p.l))
            && (HeldIs(p.l, track, f, held) && Spills(held, Regs(acts, track, p.active)) && p'.ok ==>
                Leaked(p'.l) != {})
    decreases |acts|
  {
    hide Core, Leaked, NodeKey, OffTrack, Step, HeldIs, Spilled, RegOf, ActiveAfter, Named;
    if acts != [] {
      var p1 := Step(p, track, f, acts[0], dials);
      StepEffect(p, track, f, acts[0], dials, held);
      if p1.ok {
        var rest := Regs(acts[1..], track, p1.active);
        match RegOf(acts[0], track, p.active) {
          case None =>
            assert Regs(acts, track, p.active) == rest;
            if HeldIs(p.l, track, f, held) {
              StepHeld(p, track, f, acts[0], dials, held);
            }
            FoldEffect(p1, track, f, acts[1..], dials, held);
          case Some(r) =>
            assert Regs(acts, track, p.active)[0] == r && Regs(acts, track, p.active)[1..] == rest;
            var held1 := if r.owned then held + {r.id} else held;
            if HeldIs(p.l, track, f, held) {
              StepHeld(p, track, f, acts[0], dials, held);
              SpillsHere(p.l, track, f, held, r.id);
            }
            FoldEffect(p1, track, f, acts[1..], dials, held1);
        }
      }
    }
  }

  lemma SpillsHere(l: Ledger, track: string, f: string, held: set<string>, id: string)
    requires HeldIs(l, track, f, held)
    ensures id in held <==> Spilled(l, NodeKey(track, f, id)) != {}
  {
  }

  /** What the rebuild of one track registers, in order. */
  function TrackRegs(track: string, dsl: Dsl): seq<Reg> {
    Regs(Acts(dsl.nodes), track, {})
  }

  /** A later registration reuses the node id of an earlier one that owns its client. */
  ghost predicate RepeatsOwner(regs: seq<Reg>) {
    exists i, j :: 0 <= i < j < |regs| && regs[i].id == regs[j].id && regs[i].owned
  }

  lemma {:induction false} SpillsIs(held: set<string>, regs: seq<Reg>)
    ensures Spills(held, regs) <==> RepeatsOwner(regs) || exists i :: 0 <= i < |regs| && regs[i].id in held
    decreases |regs|
  {
    if regs != [] {
      var held1 := if regs[0].owned then held + {regs[0].id} else held;
      SpillsIs(held1, regs[1..]);
      assert forall i | 0 < i < |regs| :: regs[i] == regs[1..][i - 1];
      if RepeatsOwner(regs) {
        var i, j :| 0 <= i < j < |regs| && regs[i].id == regs[j].id && regs[i].owned;
        if i > 0 {
          assert regs[1..][i - 1].id == regs[1..][j - 1].id && regs[1..][i - 1].owned;
        } else {
          assert regs[1..][j - 1].id in held1;
        }
      }
      if exists i :: 0 <= i < |regs| && regs[i].id in held {
        var i :| 0 <= i < |regs| && regs[i].id in held;
        assert i > 0 ==> regs[1..][i - 1].id in held1;
      }
    }
  }

  lemma EmptyTrackHolds(l: Ledger, track: string, f: string)
    requires Core(l) && Named(track, f)
    requires forall key | key in l.byNode :: !OnTrack(l.byNode[key], track, f)
    ensures HeldIs(l, track, f, {})
  {
    hide NodeKey;
    forall id ensures !Owns(l, NodeKey(track, f, id)) {
      var key := NodeKey(track, f, id);
      if key in l.byNode {
        assert Filed(l, key);
        var h := l.byNode[key];
        NodeKeyInjective(track, f, id, h.track, h.flowID, h.nodeID);
      }
    }
  }

  lemma OffTrackTwice(m: map<string, Handle>, track: string, f: string)
    ensures OffTrack(OffTrack(m, track, f), track, f) == OffTrack(m, track, f)
  {
  }

  /**
   * Rebuilding a track keeps the books: every client ever opened is connected or has been closed
   * exactly once, other tracks are untouched, and a failure leaves no handle on the track. A
   * successful rebuild leaks a client if and only if a node id repeats that of an earlier owner.
   */
  lemma SyncTrackEffect(l: Ledger, track: string, f: string, dsl: Dsl, dials: nat -> Dial)
    requires Core(l) && Named(track, f)
    ensures var (l', ok) := SyncTrack(l, track, f, dsl, dials);
            && Core(l')
            && OffTrack(l'.byNode, track, f) == OffTrack(l.byNode, track, f)
            && (!ok ==> l'.byNode == OffTrack(l.byNode, track, f))
            && (!RepeatsOwner(TrackRegs(track, dsl)) ==> Leaked(l') == Leaked(l))
            && (Leaked(l) == {} && ok ==> (Leaked(l') == {} <==> !RepeatsOwner(TrackRegs(track, dsl))))
  {
    hide Core, Leaked, Fold, Regs, Spills, RemoveTrack, HeldIs, RepeatsOwner, Acts;
    var l0 := RemoveTrack(l, track, f);
    RemoveTrackEffect(l, track, f);
    OffTrackTwice(l.byNode, track, f);
    EmptyTrackHolds(l0, track, f);
    var p := Progress(l0, 0, {}, true);
    FoldEffect(p, track, f, Acts(dsl.nodes), dials, {});
    SpillsIs({}, TrackRegs(track, dsl));
    RemoveTrackEffect(Fold(p, track, f, Acts(dsl.nodes), dials).l, track, f);
  }
}
