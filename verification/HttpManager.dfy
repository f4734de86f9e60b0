/**
 * The HTTP endpoint manager as it is written: shared servers updated in place behind a forward
 * index, and a reverse index per flow. Each method is proved against the values of `RouteTable`.
 */
module HttpManager {
  import opened Prelude
  import opened FlowDsl
  import opened RouteTable
  import opened RouteCheck
  import RouteSync
  import opened Restart

  lemma UpdateTwice<V>(m: map<string, V>, a: string, v: V, w: V)
    ensures m[a := v][a := w] == m[a := w]
  {
  }

  /** The items of the nodes from `i` on: none at the end, and otherwise those of node `i` first. */
  lemma ItemsFrom(nodes: seq<Node>, i: nat)
    requires i <= |nodes|
    ensures i == |nodes| ==> Items(nodes[i..]) == []
    ensures i < |nodes| ==> Items(nodes[i..]) == NodeItems(nodes[i]) + Items(nodes[i + 1..])
  {
    if i < |nodes| {
      assert nodes[i..][0] == nodes[i] && nodes[i..][1..] == nodes[i + 1..];
    }
  }

  class SharedServer {
    const addr: string
    const https: bool
    const fp: string
    var routes: map<string, Target>
    var refCount: int
    var mux: map<string, bool>

    constructor (req: Request)
      ensures addr == req.addr && View() == NewServer(req)
    {
      addr, https, fp := req.addr, req.https, req.fp;
      routes, refCount, mux := map[], 0, map[];
    }

    ghost function View(): Server
      reads this
    {
      Server(https, fp, routes, refCount, mux)
    }

    /** Register a handler. The standard mux panics on a pattern it already has. */
    method HandleFunc(pattern: string, allowCors: bool)
      requires pattern !in mux
      modifies `mux
      ensures mux == old(mux)[pattern := allowCors]
    {
      mux := mux[pattern := allowCors];
    }

    /** Store a target; a pattern that is new here is counted and registered. */
    method Bind(req: Request, target: Target)
      requires req.pattern !in routes ==> req.pattern !in mux
      modifies `routes, `refCount, `mux
      ensures View() == Bound(old(View()), req, target)
    {
      var rebinding := req.pattern in routes;
      routes := routes[req.pattern := target];
      if !rebinding {
        refCount := refCount + 1;
        HandleFunc(req.pattern, req.allowCors);
      }
    }

    /** Drop a route if the flow owns it. */
    method Unbind(f: string, pattern: string)
      modifies `routes, `refCount
      ensures View() == Unbound(old(View()), f, pattern)
    {
      if pattern in routes && routes[pattern].flowID == f {
        routes := routes - {pattern};
        refCount := refCount - 1;
      }
    }

    /** Replace the mux by one with every surviving route, CORS on. */
    method RebuildMux()
      modifies `mux
      ensures View() == Rebuilt(old(View()))
    {
      mux := map[];
      var left := routes.Keys;
      while left != {}
        invariant left <= routes.Keys
        invariant mux == map p | p in routes && p !in left :: true
        decreases left
      {
        var p :| p in left;
        HandleFunc(p, true);
        left := left - {p};
      }
    }
  }

  class Manager {
    var byAddr: map<string, SharedServer>
    var byFlow: map<string, seq<RouteKey>>
    /** Every server this manager has opened. */
    ghost var servers: set<SharedServer>

    constructor ()
      ensures Valid() && View() == Empty && servers == {}
    {
      byAddr, byFlow, servers := map[], map[], {};
    }

    /** Each server is filed under its own address, so no two addresses share one. */
    ghost predicate Aligned()
      reads this, servers
    {
      forall a | a in byAddr :: byAddr[a] in servers && byAddr[a].addr == a
    }

    ghost function Forward(): map<string, Server>
      requires Aligned()
      reads this, servers
    {
      map a | a in byAddr :: byAddr[a].View()
    }

    ghost function View(): State
      requires Aligned()
      reads this, servers
    {
      State(Forward(), byFlow)
    }

    /** `Forward` is the only map that agrees with every server. */
    lemma ForwardIs(m: map<string, Server>)
      requires Aligned()
      requires byAddr.Keys == m.Keys && forall a | a in m :: byAddr[a].View() == m[a]
      ensures Forward() == m
    {
    }

    ghost predicate Valid()
      reads this, servers
    {
      Aligned() && Inv(View())
    }

    /** Store a target on its server and list the route under its flow. */
    method BindRoute(ss: SharedServer, req: Request, target: Target, f: string)
      requires Aligned() && req.addr in byAddr && byAddr[req.addr] == ss
      requires req.pattern !in ss.routes ==> req.pattern !in ss.mux
      modifies ss, `byFlow
      ensures Aligned()
      ensures Forward() == old(Forward())[req.addr := Bound(old(ss.View()), req, target)]
      ensures byFlow == old(byFlow)[
                f := (if f in old(byFlow) then old(byFlow)[f] else []) + [RouteKey(req.addr, req.pattern)]]
    {
      hide Bound;
      ss.Bind(req, target);
      byFlow := byFlow[f := (if f in byFlow then byFlow[f] else []) + [RouteKey(req.addr, req.pattern)]];
      ForwardIs(old(Forward())[req.addr := Bound(old(ss.View()), req, target)]);
    }

    /** Open a listener for an address that has none. */
    method Listen(req: Request) returns (ss: SharedServer)
      requires Aligned() && req.addr !in byAddr
      modifies `byAddr, `servers
      ensures Aligned() && fresh(ss) && servers == old(servers) + {ss} && byAddr == old(byAddr)[req.addr := ss]
      ensures Forward() == old(Forward())[req.addr := NewServer(req)] && ss.View() == NewServer(req)
    {
      ss := new SharedServer(req);
      byAddr := byAddr[req.addr := ss];
      servers := servers + {ss};
      ForwardIs(old(Forward())[req.addr := NewServer(req)]);
    }

    /**
     * Bind one route. Flow ids are never empty: the store refuses to save a flow without one.
     */
    method AddRoute(req: Request, target: Target, f: string, env: Env) returns (o: Outcome)
      requires Valid() && f != "" && target.flowID == f
      modifies this, servers
      ensures Valid() && fresh(servers - old(servers))
      ensures (View(), o) == RouteTable.AddRoute(old(View()), req, target, f, env)
    {
      hide Inv, Table, Fits, ServersOk, OwnedBy, Bound, SameTls;
      ghost var s := View();
      AddRouteEffect(s, req, target, f, env);
      var ss: SharedServer;
      if req.addr !in byAddr {
        if env == ListenFails {
          return ListenError;
        }
        if env == KeyPairFails && req.https {
          return KeyPairError;
        }
        ss := Listen(req);
      } else {
        ss := byAddr[req.addr];
        assert s.byAddr[req.addr] == ss.View();
        if ss.https != req.https || ss.fp != req.fp {
          return TlsMismatch;
        }
        RouteSync.RegisterOnce(s, req.addr, req.pattern);
        if req.pattern in ss.routes && ss.routes[req.pattern].flowID != "" && ss.routes[req.pattern].flowID != f {
          return RouteConflict(ss.routes[req.pattern].flowID);
        }
      }
      BindRoute(ss, req, target, f);
      UpdateTwice(s.byAddr, req.addr, NewServer(req), Bound(ServerFor(s, req), req, target));
      return Mounted;
    }

    /** Unbind one entry of the reverse index. */
    method UnbindRoute(f: string, k: RouteKey)
      requires Aligned() && k.addr in byAddr
      modifies byAddr[k.addr]
      ensures Aligned()
      ensures Forward() == old(Forward())[k.addr := Unbound(old(byAddr[k.addr].View()), f, k.pattern)]
    {
      hide Unbound;
      ghost var m := Forward();
      var ss := byAddr[k.addr];
      ss.Unbind(f, k.pattern);
      ForwardIs(m[k.addr := ss.View()]);
    }

    /** Stop listening on an address. */
    method Shutdown(addr: string)
      requires Aligned() && addr in byAddr
      modifies `byAddr
      ensures Aligned() && Forward() == old(Forward()) - {addr}
    {
      ghost var m := Forward();
      byAddr := byAddr - {addr};
      ForwardIs(m - {addr});
    }

    method RebuildMux(addr: string)
      requires Aligned() && addr in byAddr
      modifies byAddr[addr]
      ensures Aligned() && Forward() == old(Forward())[addr := Rebuilt(old(byAddr[addr].View()))]
    {
      hide Rebuilt;
      ghost var m := Forward();
      byAddr[addr].RebuildMux();
      ForwardIs(m[addr := byAddr[addr].View()]);
    }

    /** Unbind one entry of the reverse index, then close or rebuild its server. */
    method DropRoute(f: string, k: RouteKey)
      requires Aligned()
      modifies `byAddr, servers
      ensures Aligned()
      ensures Forward() == RouteTable.DropRoute(old(Forward()), f, k)
    {
      hide Unbound, Rebuilt;
      if k.addr !in byAddr {
        return;
      }
      ghost var m := Forward();
      ghost var ss := Unbound(byAddr[k.addr].View(), f, k.pattern);
      UnbindRoute(f, k);
      assert Forward()[k.addr] == ss;
      UpdateTwice(m, k.addr, ss, Rebuilt(ss));
      assert m[k.addr := ss] - {k.addr} == m - {k.addr};
      if byAddr[k.addr].refCount <= 0 || |byAddr[k.addr].routes| == 0 {
        Shutdown(k.addr);
      } else {
        RebuildMux(k.addr);
      }
    }

    method DropRoutes(f: string, routes: seq<RouteKey>)
      requires Aligned()
      modifies `byAddr, servers
      ensures Aligned()
      ensures Forward() == RouteTable.DropRoutes(old(Forward()), f, routes)
    {
      hide RouteTable.DropRoute;
      var i := 0;
      assert routes[i..] == routes;
      while i < |routes|
        invariant 0 <= i <= |routes|
        invariant Aligned()
        invariant RouteTable.DropRoutes(Forward(), f, routes[i..]) == RouteTable.DropRoutes(old(Forward()), f, routes)
      {
        assert routes[i..][0] == routes[i] && routes[i..][1..] == routes[i + 1..];
        DropRoute(f, routes[i]);
        i := i + 1;
      }
    }

    /** Unload every route of a flow; a listener without routes is closed. */
    method RemoveFlow(f: string)
      requires Valid()
      modifies this, servers
      ensures Valid() && servers == old(servers)
      ensures View() == RouteTable.RemoveFlow(old(View()), f)
    {
      hide Inv, Table, At, OwnedBy, RouteTable.DropRoutes, SameTls, WithoutFlow;
      if f == "" {
        return;
      }
      ghost var s := View();
      RemoveFlowEffect(s, f);
      var routes := if f in byFlow then byFlow[f] else [];
      byFlow := byFlow - {f};
      ForwardIs(s.byAddr);
      DropRoutes(f, routes);
    }

    /** Mount the routes of one node; a refused route unloads the flow. `rest` is what the other nodes bring. */
    method MountNode(f: string, dsl: Dsl, id: string, cfg: HttpConfig, ghost rest: seq<Item>, env: nat -> Env, n: nat)
      returns (o: Outcome, n': nat)
      requires Valid() && f != ""
      modifies this, servers
      ensures Valid() && fresh(servers - old(servers))
      ensures MountItems(old(View()), f, dsl, RouterItems(id, cfg) + rest, env, n) ==
              if o.Mounted? then MountItems(View(), f, dsl, rest, env, n') else (View(), o)
    {
      hide Inv, Table, RouteTable.AddRoute, RouteTable.RemoveFlow, ServersOk, Forward, MountItems;
      ghost var s := View();
      ghost var mine := RouterItems(id, cfg);
      var j := 0;
      n' := n;
      assert mine[0..] == mine;
      while j < |cfg.routers|
        invariant 0 <= j <= |cfg.routers|
        invariant Valid() && fresh(servers - old(servers))
        invariant MountItems(View(), f, dsl, mine[j..] + rest, env, n') == MountItems(s, f, dsl, mine + rest, env, n)
      {
        var r := cfg.routers[j];
        var req := Request(cfg.addr, r.pattern, cfg.https, cfg.fp, cfg.allowCors);
        assert (mine[j..] + rest)[0] == mine[j] == RouteItem(req, id, r.relation);
        assert (mine[j..] + rest)[1..] == mine[j + 1..] + rest;
        RouteSync.MountStep(View(), f, dsl, mine[j..] + rest, env, n');
        o := AddRoute(req, Target(f, id, r.relation, dsl), f, env(n'));
        if !o.Mounted? {
          RemoveFlow(f);
          return;
        }
        j, n' := j + 1, n' + 1;
      }
      assert mine[j..] + rest == rest;
      o := Mounted;
    }

    /** Rebuild a flow's routes from its published DSL; an unpublished flow is only unloaded. */
    method SyncFlow(f: string, published: Option<Dsl>, env: nat -> Env) returns (o: Outcome)
      requires Valid() && f != ""
      modifies this, servers
      ensures Valid() && fresh(servers - old(servers))
      ensures (View(), o) == RouteTable.SyncFlow(old(View()), f, published, env)
    {
      hide Inv, Table, RouteTable.AddRoute, RouteTable.RemoveFlow, ServersOk, Forward, RouterItems, Items, MountItems;
      ghost var s := View();
      RemoveFlow(f);
      if published.None? {
        return Mounted;
      }
      var dsl := published.value;
      var i, n := 0, 0;
      assert dsl.nodes[0..] == dsl.nodes;
      while i < |dsl.nodes|
        invariant 0 <= i <= |dsl.nodes|
        invariant Valid() && fresh(servers - old(servers))
        invariant MountItems(View(), f, dsl, Items(dsl.nodes[i..]), env, n) == RouteTable.SyncFlow(s, f, published, env)
      {
        var node := dsl.nodes[i];
        ItemsFrom(dsl.nodes, i);
        ghost var rest := Items(dsl.nodes[i + 1..]);
        if node.HttpNode? {
          if node.http.None? {
            RouteSync.MountStops(View(), f, dsl, Items(dsl.nodes[i..]), env, n);
            return BadConfig;
          }
          var refusal, n' := MountNode(f, dsl, node.id, node.http.value, rest, env, n);
          if !refusal.Mounted? {
            return refusal;
          }
          n := n';
        } else {
          assert NodeItems(node) + rest == rest;
        }
        i := i + 1;
      }
      ItemsFrom(dsl.nodes, i);
      RouteSync.MountStops(View(), f, dsl, [], env, n);
      return Mounted;
    }

    /** Restore the routes of every published flow at start-up; a flow that fails is skipped. */
    method StartAll(list: seq<Listed>, envs: string -> nat -> Env)
      requires Valid() && forall i | 0 <= i < |list| :: list[i].id != ""
      modifies this, servers
      ensures Valid() && fresh(servers - old(servers))
      ensures View() == Restart.StartAll(old(View()), list, envs)
    {
      hide Inv, RouteTable.SyncFlow;
      ghost var s := View();
      var i := 0;
      assert list[0..] == list;
      while i < |list|
        invariant 0 <= i <= |list|
        invariant Valid() && fresh(servers - old(servers))
        invariant Restart.StartAll(View(), list[i..], envs) == Restart.StartAll(s, list, envs)
      {
        assert list[i..][0] == list[i] && list[i..][1..] == list[i + 1..];
        if list[i].published.Some? {
          var logged := SyncFlow(list[i].id, list[i].published, envs(list[i].id));
        }
        i := i + 1;
      }
    }

    /** A flow other than `f` that has a route on this server, if there is one. */
    method ForeignRoute(ss: SharedServer, f: string) returns (found: bool)
      ensures found <==> exists p :: p in ss.routes && ss.routes[p].flowID !in {"", f}
    {
      var left := ss.routes.Keys;
      while left != {}
        invariant left <= ss.routes.Keys
        invariant forall p | p in ss.routes && p !in left :: ss.routes[p].flowID in {"", f}
        decreases left
      {
        var p :| p in left;
        if ss.routes[p].flowID != "" && ss.routes[p].flowID != f {
          return true;
        }
        left := left - {p};
      }
      return false;
    }

    /** First pass of the check: the DSL on its own. Collects its routes and the mode per address. */
    method ScanLocal(nodes: seq<Node>)
      returns (v: Verdict, seen: map<RouteKey, string>, tls: map<string, (bool, string)>)
      ensures v.Passes? <==> NodesParse(nodes) && NodesAgree(nodes) && DistinctRoutes(Items(nodes))
      ensures v.Passes? || v.BadNode? || v.MixedTls? || v.LocalDuplicate?
      ensures v.Passes? ==> forall k :: k in seen <==> HasKey(Items(nodes), k)
      ensures v.Passes? ==> Collected(nodes, |nodes|, tls)
    {
      hide Items, NodeItems;
      seen, tls := map[], map[];
      var i := 0;
      NothingScanned(nodes);
      while i < |nodes|
        invariant 0 <= i <= |nodes|
        invariant NodesParse(nodes[..i])
        invariant DistinctRoutes(Items(nodes[..i]))
        invariant forall k :: k in seen <==> HasKey(Items(nodes[..i]), k)
        invariant Collected(nodes, i, tls)
      {
        var node := nodes[i];
        ghost var before := Items(nodes[..i]);
        ItemsSplit(nodes, i);
        if !node.HttpNode? {
          NoItems(node);
          assert Items(nodes[..i + 1]) == before;
          i := i + 1;
          continue;
        }
        if node.http.None? {
          return BadNode(node.id), seen, tls;
        }
        var cfg := node.http.value;
        if cfg.addr in tls {
          if tls[cfg.addr] != (cfg.https, cfg.fp) {
            ghost var j :| 0 <= j < i && IsHttp(nodes, j) && nodes[j].http.value.addr == cfg.addr;
            assert !ConfigsAgree(nodes[j].http.value, nodes[i].http.value);
            return MixedTls(cfg.addr), seen, tls;
          }
        } else {
          tls := tls[cfg.addr := (cfg.https, cfg.fp)];
        }
        ghost var mine := NodeItems(node);
        HttpItems(node);
        var j := 0;
        assert before + mine[..0] == before;
        while j < |cfg.routers|
          invariant 0 <= j <= |cfg.routers| == |mine|
          invariant DistinctRoutes(before + mine[..j])
          invariant forall k :: k in seen <==> HasKey(before + mine[..j], k)
        {
          var k := RouteKey(cfg.addr, cfg.routers[j].pattern);
          assert mine[..j + 1] == mine[..j] + [mine[j]];
          assert before + mine[..j + 1] == before + mine[..j] + [mine[j]];
          if k in seen {
            DuplicateShows(before + mine[..j], mine[j], Items(nodes));
            return LocalDuplicate(k), seen, tls;
          }
          ExtendDistinct(before + mine[..j], mine[j]);
          seen := seen[k := node.id];
          j := j + 1;
        }
        assert before + mine[..j] == Items(nodes[..i + 1]);
        i := i + 1;
      }
      assert nodes[..|nodes|] == nodes;
      AllAgree(nodes, tls);
      return Passes, seen, tls;
    }

    /**
     * The check made before a DSL goes live. It passes exactly when `CheckPasses` holds; which of
     * several faults a refusal reports is left open, as iteration over a Go map leaves it.
     */
    method CheckHTTPRoutes(f: string, dsl: Option<Dsl>) returns (v: Verdict)
      requires Valid()
      ensures v.Passes? <==> dsl.None? || CheckPasses(View(), f, dsl.value.nodes)
      ensures v.RouteTaken? ==> OwnedBy(View().byAddr, v.key, v.owner) && v.owner !in {"", f}
    {
      hide Inv, Items, DistinctRoutes, HasKey, NodesAgree;
      if dsl.None? {
        return Passes;
      }
      var nodes := dsl.value.nodes;
      var local, seen, tls := ScanLocal(nodes);
      if !local.Passes? {
        return local;
      }
      var addrs := tls.Keys;
      while addrs != {}
        invariant addrs <= tls.Keys
        invariant forall i | IsHttp(nodes, i) && nodes[i].http.value.addr !in addrs ::
            ModeFree(View(), f, nodes[i].http.value)
        decreases addrs
      {
        var a :| a in addrs;
        ghost var j :| 0 <= j < |nodes| && IsHttp(nodes, j) && nodes[j].http.value.addr == a;
        if a in byAddr {
          var ss := byAddr[a];
          if !(ss.https == tls[a].0 && ss.fp == tls[a].1) {
            var foreign := ForeignRoute(ss, f);
            if foreign {
              assert !ModeFree(View(), f, nodes[j].http.value);
              return TlsTaken(a);
            }
          }
        }
        addrs := addrs - {a};
      }
      var keys := seen.Keys;
      while keys != {}
        invariant keys <= seen.Keys
        invariant forall k | k in seen && k !in keys :: PatternFree(View(), f, k)
        decreases keys
      {
        var k :| k in keys;
        if k.addr in byAddr && k.pattern in byAddr[k.addr].routes {
          var owner := byAddr[k.addr].routes[k.pattern].flowID;
          if owner != "" && owner != f {
            assert !PatternFree(View(), f, k);
            return RouteTaken(k, owner);
          }
        }
        keys := keys - {k};
      }
      return Passes;
    }
  }
}
