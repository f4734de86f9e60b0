/**
 * Values of the HTTP route table and the meaning of its two atomic steps.
 *
 * `State` is a snapshot of the manager's forward index (`byAddr`) and reverse index (`byFlow`).
 * `Table` forgets everything but the routing function itself, and the theorems of this module say
 * how the steps act on that function.
 */
module RouteTable {
  import opened Prelude
  import opened FlowDsl

  datatype RouteKey = RouteKey(addr: string, pattern: string)

  datatype Target = Target(flowID: string, nodeID: string, relation: string, dsl: Dsl)

  /** One shared listener; `mux` maps each registered pattern to its CORS setting. */
  datatype Server = Server(https: bool, fp: string, routes: map<string, Target>, refCount: int, mux: map<string, bool>)

  datatype State = State(byAddr: map<string, Server>, byFlow: map<string, seq<RouteKey>>)

  /** What the operating system answers when a listener is opened. */
  datatype Env = Works | ListenFails | KeyPairFails

  datatype Outcome = Mounted | ListenError | KeyPairError | TlsMismatch | RouteConflict(owner: string) | BadConfig

  datatype Request = Request(addr: string, pattern: string, https: bool, fp: string, allowCors: bool)

  /** What a DSL asks of the table, in order: routes, or a node whose configuration is rejected. */
  datatype Item = RouteItem(req: Request, nodeID: string, relation: string) | BadItem

  const Empty := State(map[], map[])

  // ---- requests of a DSL ----

  function RouterItems(nodeID: string, cfg: HttpConfig): (items: seq<Item>)
    ensures |items| == |cfg.routers|
  {
    seq(|cfg.routers|, i requires 0 <= i < |cfg.routers| =>
      RouteItem(Request(cfg.addr, cfg.routers[i].pattern, cfg.https, cfg.fp, cfg.allowCors),
                nodeID, cfg.routers[i].relation))
  }

  function NodeItems(node: Node): seq<Item> {
    match node
    case HttpNode(id, None) => [BadItem]
    case HttpNode(id, Some(cfg)) => RouterItems(id, cfg)
    case _ => []
  }

  function Items(nodes: seq<Node>): seq<Item> {
    if nodes == [] then [] else NodeItems(nodes[0]) + Items(nodes[1..])
  }

  predicate Parses(items: seq<Item>) {
    forall i | 0 <= i < |items| :: items[i].RouteItem?
  }

  function KeyOf(item: Item): RouteKey
    requires item.RouteItem?
  {
    RouteKey(item.req.addr, item.req.pattern)
  }

  function TargetOf(f: string, dsl: Dsl, item: Item): Target
    requires item.RouteItem?
  {
    Target(f, item.nodeID, item.relation, dsl)
  }

  /** The routes that the items before the first rejected node bind; a later binding of a key wins. */
  function RoutesOf(f: string, dsl: Dsl, items: seq<Item>): map<RouteKey, Target> {
    if items == [] || items[0].BadItem? then map[]
    else map[KeyOf(items[0]) := TargetOf(f, dsl, items[0])] + RoutesOf(f, dsl, items[1..])
  }

  // ---- the atomic steps ----

  function NewServer(req: Request): Server {
    Server(req.https, req.fp, map[], 0, map[])
  }

  /** The server after a pattern is bound; only a pattern new to it is counted and registered. */
  function Bound(ss: Server, req: Request, target: Target): Server {
    var routes := ss.routes[req.pattern := target];
    if req.pattern in ss.routes then Server(ss.https, ss.fp, routes, ss.refCount, ss.mux)
    else Server(ss.https, ss.fp, routes, ss.refCount + 1, ss.mux[req.pattern := req.allowCors])
  }

  function ReverseOf(s: State, f: string): seq<RouteKey> {
    if f in s.byFlow then s.byFlow[f] else []
  }

  /** Bind one route on a server whose TLS mode already matches. */
  function Bind(s: State, ss: Server, req: Request, target: Target, f: string): (State, Outcome) {
    if req.pattern in ss.routes && ss.routes[req.pattern].flowID != "" && ss.routes[req.pattern].flowID != f then
      (s, RouteConflict(ss.routes[req.pattern].flowID))
    else
      (State(s.byAddr[req.addr := Bound(ss, req, target)],
             s.byFlow[f := ReverseOf(s, f) + [RouteKey(req.addr, req.pattern)]]),
       Mounted)
  }

  function AddRoute(s: State, req: Request, target: Target, f: string, env: Env): (State, Outcome) {
    if req.addr !in s.byAddr then
      if env == ListenFails then (s, ListenError)
      else if env == KeyPairFails && req.https then (s, KeyPairError)
      else Bind(s, NewServer(req), req, target, f)
    else
      var ss := s.byAddr[req.addr];
      if ss.https != req.https || ss.fp != req.fp then (s, TlsMismatch)
      else Bind(s, ss, req, target, f)
  }

  /** The server after `f` gives up a pattern, if the pattern was its own. */
  function Unbound(ss: Server, f: string, pattern: string): Server {
    if pattern in ss.routes && ss.routes[pattern].flowID == f
    then Server(ss.https, ss.fp, ss.routes - {pattern}, ss.refCount - 1, ss.mux)
    else ss
  }

  /** A rebuilt mux serves every surviving route with CORS on. */
  function Rebuilt(ss: Server): Server {
    Server(ss.https, ss.fp, ss.routes, ss.refCount, map p | p in ss.routes :: true)
  }

  /** Unbind one reverse-index entry: drop the route if `f` owns it, then close or rebuild the server. */
  function DropRoute(m: map<string, Server>, f: string, k: RouteKey): map<string, Server> {
    if k.addr !in m then m
    else
      var ss := Unbound(m[k.addr], f, k.pattern);
      if ss.refCount <= 0 || |ss.routes| == 0 then m - {k.addr} else m[k.addr := Rebuilt(ss)]
  }

  function DropRoutes(m: map<string, Server>, f: string, ks: seq<RouteKey>): map<string, Server> {
    if ks == [] then m else DropRoutes(DropRoute(m, f, ks[0]), f, ks[1..])
  }

  function RemoveFlow(s: State, f: string): State {
    if f == "" then s
    else
      State(DropRoutes(s.byAddr, f, ReverseOf(s, f)), s.byFlow - {f})
  }

  // ---- the compound step ----

  /** Mount the items in order. A rejected node stops without undoing; a refused route undoes the flow. */
  function MountItems(s: State, f: string, dsl: Dsl, items: seq<Item>, env: nat -> Env, n: nat): (State, Outcome)
    decreases |items|
  {
    if items == [] then (s, Mounted)
    else if items[0].BadItem? then (s, BadConfig)
    else
      var (s1, o) := AddRoute(s, items[0].req, TargetOf(f, dsl, items[0]), f, env(n));
      if o.Mounted? then MountItems(s1, f, dsl, items[1..], env, n + 1)
      else (RemoveFlow(s1, f), o)
  }

  function SyncFlow(s: State, f: string, published: Option<Dsl>, env: nat -> Env): (State, Outcome) {
    var s0 := RemoveFlow(s, f);
    match published
    case None => (s0, Mounted)
    case Some(dsl) => MountItems(s0, f, dsl, Items(dsl.nodes), env, 0)
  }

  // ---- the index invariant ----

  ghost predicate ServerOk(ss: Server) {
    && |ss.routes| > 0
    && ss.refCount == |ss.routes|
    && ss.mux.Keys == ss.routes.Keys
  }

  ghost predicate ServersOk(m: map<string, Server>) {
    forall a | a in m :: ServerOk(m[a])
  }

  function At(m: map<string, Server>, k: RouteKey): Option<Target> {
    if k.addr in m && k.pattern in m[k.addr].routes then Some(m[k.addr].routes[k.pattern]) else None
  }

  ghost predicate OwnedBy(m: map<string, Server>, k: RouteKey, f: string) {
    At(m, k).Some? && At(m, k).value.flowID == f
  }

  ghost predicate Indexed(s: State, k: RouteKey, f: string) {
    f in s.byFlow && k in s.byFlow[f]
  }

  /**
   * Every server carries a route, counts its routes and has exactly their patterns on its mux; a
   * route is bound for a flow exactly when the reverse index lists it for that flow.
   */
  ghost predicate Inv(s: State) {
    && ServersOk(s.byAddr)
    && "" !in s.byFlow
    && forall k, f :: OwnedBy(s.byAddr, k, f) <==> Indexed(s, k, f)
  }

  /** The routing function: which entry point answers a pattern on an address. */
  ghost function Table(s: State): map<RouteKey, Target> {
    map k | k in (set a, p | a in s.byAddr && p in s.byAddr[a].routes :: RouteKey(a, p)) ::
      s.byAddr[k.addr].routes[k.pattern]
  }

  ghost function WithoutFlow(t: map<RouteKey, Target>, f: string): map<RouteKey, Target> {
    map k | k in t && t[k].flowID != f :: t[k]
  }

  lemma TableAt(s: State, k: RouteKey)
    ensures k in Table(s) <==> At(s.byAddr, k).Some?
    ensures k in Table(s) ==> Table(s)[k] == At(s.byAddr, k).value
  {
    if At(s.byAddr, k).Some? {
      assert RouteKey(k.addr, k.pattern) in Table(s);
    }
  }

  lemma TableFrom(s: State, t: map<RouteKey, Target>)
    requires forall k :: At(s.byAddr, k) == if k in t then Some(t[k]) else None
    ensures Table(s) == t
  {
    forall k ensures k in Table(s) <==> k in t
             ensures k in t ==> Table(s)[k] == t[k] {
      TableAt(s, k);
    }
  }

  // ---- what one step does ----

  ghost predicate SameTls(m: map<string, Server>, m': map<string, Server>) {
    forall a | a in m && a in m' :: m'[a].https == m[a].https && m'[a].fp == m[a].fp
  }

  lemma WithoutKey<V>(m: map<string, V>, p: string)
    requires p in m
    ensures (m - {p}).Keys == m.Keys - {p}
    ensures |m - {p}| == |m| - 1
  {
    assert (m - {p}).Keys == m.Keys - {p};
  }

  lemma WithKey<V>(m: map<string, V>, p: string, v: V)
    ensures m[p := v].Keys == m.Keys + {p}
    ensures |m[p := v]| == |m| + (if p in m then 0 else 1)
  {
    assert m[p := v].Keys == m.Keys + {p};
  }

  lemma UnboundOk(ss: Server, f: string, pattern: string)
    requires ServerOk(ss)
    ensures var u := Unbound(ss, f, pattern);
            && u.https == ss.https && u.fp == ss.fp
            && u.refCount == |u.routes|
            && (|u.routes| > 0 ==> ServerOk(Rebuilt(u)))
  {
    if pattern in ss.routes && ss.routes[pattern].flowID == f {
      WithoutKey(ss.routes, pattern);
    }
  }

  /** The server left behind when one of its own routes is dropped. */
  lemma DropRouteServer(m: map<string, Server>, f: string, k: RouteKey)
    requires ServersOk(m)
    ensures ServersOk(DropRoute(m, f, k))
    ensures DropRoute(m, f, k).Keys <= m.Keys && SameTls(m, DropRoute(m, f, k))
  {
    hide Unbound, ServerOk;
    if k.addr in m {
      assert ServerOk(m[k.addr]);
      UnboundOk(m[k.addr], f, k.pattern);
    }
  }

  lemma DropRouteStep(m: map<string, Server>, f: string, k: RouteKey)
    requires ServersOk(m)
    ensures forall j :: At(DropRoute(m, f, k), j) == if j == k && OwnedBy(m, k, f) then None else At(m, j)
  {
    if k.addr in m {
      var ss := m[k.addr];
      assert ServerOk(ss);
      if OwnedBy(m, k, f) {
        WithoutKey(ss.routes, k.pattern);
        if |ss.routes| == 1 {
          assert ss.routes.Keys == {k.pattern} by {
            assert |ss.routes.Keys - {k.pattern}| == 0;
          }
        }
      }
    }
  }

  lemma {:induction false} DropRoutesEffect(m: map<string, Server>, f: string, ks: seq<RouteKey>)
    requires ServersOk(m)
    ensures ServersOk(DropRoutes(m, f, ks))
    ensures forall j :: At(DropRoutes(m, f, ks), j) == if j in ks && OwnedBy(m, j, f) then None else At(m, j)
    ensures DropRoutes(m, f, ks).Keys <= m.Keys && SameTls(m, DropRoutes(m, f, ks))
    decreases |ks|
  {
    if ks != [] {
      var m1 := DropRoute(m, f, ks[0]);
      DropRouteServer(m, f, ks[0]);
      DropRouteStep(m, f, ks[0]);
      DropRoutesEffect(m1, f, ks[1..]);
      forall j ensures At(DropRoutes(m, f, ks), j) == if j in ks && OwnedBy(m, j, f) then None else At(m, j) {
        assert j in ks <==> j == ks[0] || j in ks[1..];
      }
    }
  }

  /** Removing a flow erases its routes and nothing else, and keeps both indexes in step. */
  lemma RemoveFlowEffect(s: State, f: string)
    requires Inv(s) && f != ""
    ensures Inv(RemoveFlow(s, f))
    ensures Table(RemoveFlow(s, f)) == WithoutFlow(Table(s), f)
    ensures SameTls(s.byAddr, RemoveFlow(s, f).byAddr)
    ensures RemoveFlow(s, f).byAddr.Keys <= s.byAddr.Keys
  {
    hide DropRoutes, ServersOk, SameTls;
    var ks := ReverseOf(s, f);
    var s' := RemoveFlow(s, f);
    DropRoutesEffect(s.byAddr, f, ks);
    forall k, g ensures OwnedBy(s'.byAddr, k, g) <==> Indexed(s', k, g) {
      assert OwnedBy(s.byAddr, k, g) <==> Indexed(s, k, g);
      assert OwnedBy(s.byAddr, k, f) <==> Indexed(s, k, f);
    }
    forall k ensures k in Table(s') <==> k in WithoutFlow(Table(s), f)
             ensures k in Table(s') ==> Table(s')[k] == Table(s)[k] {
      TableAt(s, k);
      TableAt(s', k);
      assert OwnedBy(s.byAddr, k, f) <==> Indexed(s, k, f);
    }
  }

  /** A request that neither meets another TLS mode nor takes a pattern from another flow. */
  ghost predicate Fits(s: State, f: string, req: Request) {
    && (req.addr in s.byAddr ==> s.byAddr[req.addr].https == req.https && s.byAddr[req.addr].fp == req.fp)
    && (At(s.byAddr, RouteKey(req.addr, req.pattern)).Some? ==> OwnedBy(s.byAddr, RouteKey(req.addr, req.pattern), f))
  }

  /** The server a request would be bound on, once TLS and the environment have been settled. */
  function ServerFor(s: State, req: Request): Server {
    if req.addr in s.byAddr then s.byAddr[req.addr] else NewServer(req)
  }

  lemma BindOwner(s: State, req: Request, f: string)
    requires Inv(s) && f != ""
    ensures var k := RouteKey(req.addr, req.pattern);
            var ss := ServerFor(s, req);
            && (req.pattern in ss.routes <==> At(s.byAddr, k).Some?)
            && (req.pattern in ss.routes ==> ss.routes[req.pattern] == At(s.byAddr, k).value)
            && (req.pattern in ss.routes ==> ss.routes[req.pattern].flowID != "")
  {
    var k := RouteKey(req.addr, req.pattern);
    if At(s.byAddr, k).Some? {
      var owner := At(s.byAddr, k).value.flowID;
      assert OwnedBy(s.byAddr, k, owner);
      assert Indexed(s, k, owner);
    }
  }

  lemma BoundOk(ss: Server, req: Request, target: Target)
    requires ss.refCount == |ss.routes| && ss.mux.Keys == ss.routes.Keys
    ensures ServerOk(Bound(ss, req, target))
  {
    WithKey(ss.routes, req.pattern, target);
    WithKey(ss.mux, req.pattern, req.allowCors);
  }

  lemma BindServers(s: State, req: Request, target: Target, f: string)
    requires Inv(s)
    ensures ServersOk(s.byAddr[req.addr := Bound(ServerFor(s, req), req, target)])
  {
    var ss := ServerFor(s, req);
    assert req.addr in s.byAddr ==> ServerOk(ss);
    BoundOk(ss, req, target);
  }

  lemma BindAt(s: State, req: Request, target: Target, j: RouteKey)
    ensures At(s.byAddr[req.addr := Bound(ServerFor(s, req), req, target)], j) ==
            if j == RouteKey(req.addr, req.pattern) then Some(target) else At(s.byAddr, j)
  {
  }

  /** A mounted binding seen as the two map updates it is. */
  function BoundState(s: State, req: Request, target: Target, f: string): State {
    State(s.byAddr[req.addr := Bound(ServerFor(s, req), req, target)],
          s.byFlow[f := ReverseOf(s, f) + [RouteKey(req.addr, req.pattern)]])
  }

  lemma BindIndexed(s: State, req: Request, target: Target, f: string, j: RouteKey, g: string)
    ensures Indexed(BoundState(s, req, target, f), j, g) <==>
            Indexed(s, j, g) || (g == f && j == RouteKey(req.addr, req.pattern))
  {
    var k := RouteKey(req.addr, req.pattern);
    assert j in ReverseOf(s, f) + [k] <==> j in ReverseOf(s, f) || j == k;
  }

  lemma BindInv(s: State, req: Request, target: Target, f: string)
    requires Inv(s) && f != "" && target.flowID == f
    requires Fits(s, f, req)
    ensures Inv(BoundState(s, req, target, f))
  {
    var s' := BoundState(s, req, target, f);
    BindServers(s, req, target, f);
    forall j, g ensures OwnedBy(s'.byAddr, j, g) <==> Indexed(s', j, g) {
      BindAt(s, req, target, j);
      BindIndexed(s, req, target, f, j, g);
      assert OwnedBy(s.byAddr, j, g) <==> Indexed(s, j, g);
    }
  }

  lemma BindTls(s: State, req: Request, target: Target, f: string)
    requires Fits(s, f, req)
    ensures var s' := BoundState(s, req, target, f);
            && SameTls(s.byAddr, s'.byAddr)
            && s'.byAddr.Keys == s.byAddr.Keys + {req.addr}
            && s'.byAddr[req.addr].https == req.https && s'.byAddr[req.addr].fp == req.fp
  {
  }

  lemma BindTable(s: State, req: Request, target: Target, f: string)
    ensures Table(BoundState(s, req, target, f)) == Table(s)[RouteKey(req.addr, req.pattern) := target]
  {
    var k := RouteKey(req.addr, req.pattern);
    var t := Table(s)[k := target];
    forall j ensures At(BoundState(s, req, target, f).byAddr, j) == if j in t then Some(t[j]) else None {
      BindAt(s, req, target, j);
      TableAt(s, j);
    }
    TableFrom(BoundState(s, req, target, f), t);
  }

  /** A request is mounted exactly when it fits and gets a listener; the state is then `BoundState`. */
  lemma AddRouteCases(s: State, req: Request, target: Target, f: string, env: Env)
    requires Inv(s) && f != "" && target.flowID == f
    ensures var (s', o) := AddRoute(s, req, target, f, env);
            && (o.Mounted? <==> (Fits(s, f, req) && Listens(s, req, env)))
            && (Fits(s, f, req) ==> o.Mounted? || o.ListenError? || o.KeyPairError?)
            && !o.BadConfig?
            && s' == if o.Mounted? then BoundState(s, req, target, f) else s
  {
    BindOwner(s, req, f);
  }

  /** Does the environment let this request have a listener? */
  predicate Listens(s: State, req: Request, env: Env) {
    req.addr in s.byAddr || env == Works || (env == KeyPairFails && !req.https)
  }

  /**
   * Adding a route: it is mounted exactly when the request fits and the environment cooperates, it
   * then updates one key, and a refusal changes nothing.
   */
  lemma AddRouteEffect(s: State, req: Request, target: Target, f: string, env: Env)
    requires Inv(s) && f != "" && target.flowID == f
    ensures var (s', o) := AddRoute(s, req, target, f, env);
            && Inv(s')
            && (o.Mounted? <==> (Fits(s, f, req) && Listens(s, req, env)))
            && (Fits(s, f, req) ==> o.Mounted? || o.ListenError? || o.KeyPairError?)
            && !o.BadConfig?
            && (!o.Mounted? ==> s' == s)
            && (o.Mounted? ==>
                  && Table(s') == Table(s)[RouteKey(req.addr, req.pattern) := target]
                  && SameTls(s.byAddr, s'.byAddr)
                  && s'.byAddr.Keys == s.byAddr.Keys + {req.addr}
                  && s'.byAddr[req.addr].https == req.https && s'.byAddr[req.addr].fp == req.fp)
  {
    hide *;
    AddRouteCases(s, req, target, f, env);
    if AddRoute(s, req, target, f, env).1.Mounted? {
      BindInv(s, req, target, f);
      BindTls(s, req, target, f);
      BindTable(s, req, target, f);
    }
  }

  /**
   * Which refusal a request meets: a listener or its certificate fails only on a new address, another TLS mode is named
   * before another owner, and a conflict names the flow that owns the pattern.
   */
  lemma AddRouteRefusals(s: State, req: Request, target: Target, f: string, env: Env)
    requires Inv(s) && f != ""
    ensures var o := AddRoute(s, req, target, f, env).1;
            var k := RouteKey(req.addr, req.pattern);
            var isNew := req.addr !in s.byAddr;
            var sameMode := !isNew && s.byAddr[req.addr].https == req.https && s.byAddr[req.addr].fp == req.fp;
            && (o == ListenError <==> isNew && env == ListenFails)
            && (o == KeyPairError <==> isNew && env == KeyPairFails && req.https)
            && (o == TlsMismatch <==> !isNew && !sameMode)
            && (o.RouteConflict? <==> sameMode && k in Table(s) && Table(s)[k].flowID != f)
            && (o.RouteConflict? ==> o.owner == Table(s)[k].flowID)
  {
    hide Inv, Table;
    BindOwner(s, req, f);
    TableAt(s, RouteKey(req.addr, req.pattern));
  }
}
