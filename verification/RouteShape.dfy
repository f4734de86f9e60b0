/**
 * The routes of a DSL read off its nodes and routers, without the requests a rebuild works through.
 *
 * A router of an HTTP node binds its pattern on the node's address. Where several bind the same pattern on the same
 * address, the last one in the order of the DSL gets the requests, and the first one decides on CORS.
 */
module RouteShape {
  import opened Prelude
  import opened FlowDsl
  import opened RouteTable
  import opened RouteSync
  import opened RouteCheck
  import opened Restart

  /** Router `j` of HTTP node `i` asks for a pattern on an address. */
  predicate Binds(nodes: seq<Node>, i: int, j: int, k: RouteKey) {
    && IsHttp(nodes, i)
    && 0 <= j < |nodes[i].http.value.routers|
    && k == RouteKey(nodes[i].http.value.addr, nodes[i].http.value.routers[j].pattern)
  }

  ghost predicate LastBinds(nodes: seq<Node>, i: int, j: int, k: RouteKey) {
    Binds(nodes, i, j, k) && forall a, b | Binds(nodes, a, b, k) :: a < i || (a == i && b <= j)
  }

  ghost predicate FirstBinds(nodes: seq<Node>, i: int, j: int, k: RouteKey) {
    Binds(nodes, i, j, k) && forall a, b | Binds(nodes, a, b, k) :: a > i || (a == i && b >= j)
  }

  // ---- where a router's request stands ----

  function Place(nodes: seq<Node>, i: int, j: nat): nat
    requires 0 <= i <= |nodes|
  {
    |Items(nodes[..i])| + j
  }

  lemma PlaceIs(nodes: seq<Node>, i: int, j: int, k: RouteKey)
    requires Binds(nodes, i, j, k)
    ensures var n := Place(nodes, i, j);
            var cfg := nodes[i].http.value;
            && n < |Items(nodes)|
            && Items(nodes)[n] == RouteItem(Request(k.addr, k.pattern, cfg.https, cfg.fp, cfg.allowCors),
                                            nodes[i].id, cfg.routers[j].relation)
  {
    hide Items;
    ItemsSplit(nodes, i);
    var before, mine, after := Items(nodes[..i]), NodeItems(nodes[i]), Items(nodes[i + 1..]);
    assert (before + mine + after)[|before| + j] == mine[j];
  }

  lemma PlaceOrder(nodes: seq<Node>, i: int, j: nat, a: int, b: nat)
    requires 0 <= i < a <= |nodes| && j < |NodeItems(nodes[i])|
    ensures Place(nodes, i, j) < Place(nodes, a, b)
  {
    hide Items, NodeItems;
    assert nodes[..a][..i] == nodes[..i];
    ItemsSplit(nodes[..a], i);
  }

  lemma {:induction false} Located(nodes: seq<Node>, n: int) returns (i: int, j: int)
    requires 0 <= n < |Items(nodes)| && Items(nodes)[n].RouteItem?
    ensures IsHttp(nodes, i) && 0 <= j < |nodes[i].http.value.routers| && n == Place(nodes, i, j)
    decreases |nodes|
  {
    hide Items, NodeItems;
    if nodes == [] {
      assert Items(nodes) == [] by {
        NoNodes();
      }
    } else {
      var last := |nodes| - 1;
      ItemsSplit(nodes, last);
      assert nodes[..last + 1] == nodes;
      if n < |Items(nodes[..last])| {
        i, j := Located(nodes[..last], n);
        assert nodes[..last][..i] == nodes[..i];
      } else {
        i, j := last, n - |Items(nodes[..last])|;
        ItemOfNode(nodes[last], j);
      }
    }
  }

  lemma NoNodes()
    ensures Items([]) == []
  {
  }

  lemma ItemOfNode(node: Node, j: int)
    requires 0 <= j < |NodeItems(node)| && NodeItems(node)[j].RouteItem?
    ensures node.HttpNode? && node.http.Some? && j < |node.http.value.routers|
  {
  }

  /** A request for a key comes from a router that binds it. */
  lemma ItemBinds(nodes: seq<Node>, n: int) returns (i: int, j: int)
    requires 0 <= n < |Items(nodes)| && Items(nodes)[n].RouteItem?
    ensures Binds(nodes, i, j, KeyOf(Items(nodes)[n])) && n == Place(nodes, i, j)
  {
    hide Items;
    i, j := Located(nodes, n);
    PlaceIs(nodes, i, j, RouteKey(nodes[i].http.value.addr, nodes[i].http.value.routers[j].pattern));
  }

  // ---- which router gets the requests ----

  lemma {:induction false} LastItemWins(f: string, dsl: Dsl, items: seq<Item>, n: int)
    requires Parses(items) && 0 <= n < |items|
    requires forall m | n < m < |items| :: KeyOf(items[m]) != KeyOf(items[n])
    ensures KeyOf(items[n]) in RoutesOf(f, dsl, items)
    ensures RoutesOf(f, dsl, items)[KeyOf(items[n])] == TargetOf(f, dsl, items[n])
    decreases |items|
  {
    ParsesTail(items);
    if n > 0 {
      assert items[1..][n - 1] == items[n];
      LastItemWins(f, dsl, items[1..], n - 1);
    } else {
      assert forall m | 0 <= m < |items[1..]| :: items[1..][m] == items[m + 1];
      NobodyAsks(f, dsl, items[1..], KeyOf(items[0]));
    }
  }

  lemma NobodyAsks(f: string, dsl: Dsl, items: seq<Item>, k: RouteKey)
    requires Parses(items) && forall m | 0 <= m < |items| :: KeyOf(items[m]) != k
    ensures k !in RoutesOf(f, dsl, items)
  {
    if k in RoutesOf(f, dsl, items) {
      RoutesOwner(f, dsl, items, k);
    }
  }

  /** A route leads to the last router that binds its key: to that router's relation, at that router's node. */
  lemma RouteLeadsTo(f: string, dsl: Dsl, i: int, j: int, k: RouteKey)
    requires NodesParse(dsl.nodes) && LastBinds(dsl.nodes, i, j, k)
    ensures k in Routes(f, dsl)
    ensures Routes(f, dsl)[k] == Target(f, dsl.nodes[i].id, dsl.nodes[i].http.value.routers[j].relation, dsl)
  {
    hide Items, RoutesOf;
    var items := Items(dsl.nodes);
    var n := Place(dsl.nodes, i, j);
    ParsesIffNodesParse(dsl.nodes);
    PlaceIs(dsl.nodes, i, j, k);
    forall m | n < m < |items| ensures KeyOf(items[m]) != k {
      var a, b := ItemBinds(dsl.nodes, m);
      if a < i {
        HttpItems(dsl.nodes[a]);
        PlaceOrder(dsl.nodes, a, b, i, j);
      }
    }
    LastItemWins(f, dsl, items, n);
  }

  /** Among finitely many routers that bind a key, one is last. */
  lemma LastExists(nodes: seq<Node>, i: int, j: int, k: RouteKey) returns (a: int, b: int)
    requires Binds(nodes, i, j, k)
    ensures LastBinds(nodes, a, b, k)
    decreases |nodes| - i, if IsHttp(nodes, i) then |nodes[i].http.value.routers| - j else 0
  {
    if c, d :| Binds(nodes, c, d, k) && !(c < i || (c == i && d <= j)) {
      a, b := LastExists(nodes, c, d, k);
    } else {
      a, b := i, j;
    }
  }

  /** There are no other routes. */
  lemma RouteComesFrom(f: string, dsl: Dsl, k: RouteKey) returns (i: int, j: int)
    requires k in Routes(f, dsl)
    ensures LastBinds(dsl.nodes, i, j, k)
  {
    hide Items, RoutesOf;
    var items := Items(dsl.nodes);
    RoutesOwner(f, dsl, items, k);
    var n :| 0 <= n < |items| && items[n].RouteItem? && KeyOf(items[n]) == k;
    var a, b := ItemBinds(dsl.nodes, n);
    i, j := LastExists(dsl.nodes, a, b, k);
  }

  // ---- a table that shows a set of DSLs ----

  /** A route for every router that binds its key last, leading to that router, and no other route. */
  ghost predicate Shown(t: map<RouteKey, Target>, up: map<string, Dsl>) {
    && (forall f, i, j, k | f in up && LastBinds(up[f].nodes, i, j, k) ::
          && k in t
          && t[k] == Target(f, up[f].nodes[i].id, up[f].nodes[i].http.value.routers[j].relation, up[f]))
    && (forall k | k in t :: t[k].flowID in up && exists i, j :: LastBinds(up[t[k].flowID].nodes, i, j, k))
  }

  /** Every address that a node with routers names has a listener in that node's mode. */
  ghost predicate InMode(s: State, up: map<string, Dsl>) {
    forall f, i, j, k | f in up && Binds(up[f].nodes, i, j, k) ::
      && k.addr in s.byAddr
      && s.byAddr[k.addr].https == up[f].nodes[i].http.value.https
      && s.byAddr[k.addr].fp == up[f].nodes[i].http.value.fp
  }

  /** No pattern is bound by two flows. */
  ghost predicate Disjoint(up: map<string, Dsl>) {
    forall f, g, i, j, a, b, k | f in up && g in up && f != g ::
      !(Binds(up[f].nodes, i, j, k) && Binds(up[g].nodes, a, b, k))
  }

  /** The union of the routes of a set of DSLs, spelled out over nodes and routers. */
  lemma RepresentsShows(t: map<RouteKey, Target>, up: map<string, Dsl>)
    requires Represents(t, up) && forall f | f in up :: NodesParse(up[f].nodes)
    ensures Shown(t, up)
  {
    hide Routes, NodesParse, LastBinds;
    forall f, i, j, k | f in up && LastBinds(up[f].nodes, i, j, k)
      ensures IsHttp(up[f].nodes, i) && 0 <= j < |up[f].nodes[i].http.value.routers|
      ensures k in t
      ensures t[k] == Target(f, up[f].nodes[i].id, up[f].nodes[i].http.value.routers[j].relation, up[f])
    {
      BindsLast(up[f].nodes, i, j, k);
      RouteLeadsTo(f, up[f], i, j, k);
    }
    forall k | k in t ensures t[k].flowID in up && exists i, j :: LastBinds(up[t[k].flowID].nodes, i, j, k) {
      var i, j := RouteComesFrom(t[k].flowID, up[t[k].flowID], k);
    }
  }

  lemma BindsLast(nodes: seq<Node>, i: int, j: int, k: RouteKey)
    requires LastBinds(nodes, i, j, k)
    ensures IsHttp(nodes, i) && 0 <= j < |nodes[i].http.value.routers|
  {
  }

  lemma ServedInMode(s: State, up: map<string, Dsl>)
    requires Served(s, up)
    ensures InMode(s, up)
  {
    hide Items;
    forall f, i, j, k | f in up && Binds(up[f].nodes, i, j, k)
      ensures k.addr in s.byAddr && s.byAddr[k.addr].https == up[f].nodes[i].http.value.https
      ensures s.byAddr[k.addr].fp == up[f].nodes[i].http.value.fp
    {
      PlaceIs(up[f].nodes, i, j, k);
      assert Serves(s, Items(up[f].nodes)[Place(up[f].nodes, i, j)]);
    }
  }

  lemma CleanIsDisjoint(up: map<string, Dsl>)
    requires Clean(up)
    ensures Disjoint(up)
  {
    hide Items;
    forall f, g, i, j, a, b, k | f in up && g in up && f != g
      ensures !(Binds(up[f].nodes, i, j, k) && Binds(up[g].nodes, a, b, k))
    {
      if Binds(up[f].nodes, i, j, k) && Binds(up[g].nodes, a, b, k) {
        SharedKey(up[f].nodes, i, j, up[g].nodes, a, b, k);
      }
    }
  }

  lemma SharedKey(nodes: seq<Node>, i: int, j: int, nodes': seq<Node>, a: int, b: int, k: RouteKey)
    requires Binds(nodes, i, j, k) && Binds(nodes', a, b, k)
    ensures !Compatible(Items(nodes), Items(nodes'))
  {
    hide Items;
    PlaceIs(nodes, i, j, k);
    PlaceIs(nodes', a, b, k);
    assert KeyOf(Items(nodes)[Place(nodes, i, j)]) == KeyOf(Items(nodes')[Place(nodes', a, b)]);
  }

  lemma MountsShow(s: State, up: map<string, Dsl>)
    requires Mounts(s, up)
    ensures Shown(Table(s), up) && InMode(s, up)
  {
    hide Represents, Table, Items, Served, RouteTable.Inv, Shown, InMode, NodesParse;
    forall f | f in up ensures NodesParse(up[f].nodes) {
      ParsesIffNodesParse(up[f].nodes);
    }
    RepresentsShows(Table(s), up);
    ServedInMode(s, up);
  }

  // ---- the rebuild of one flow ----

  /**
   * After a successful rebuild the flow's routes are those of its nodes and routers: each leads to the last router
   * that binds its key, and the routes of other flows are what they were.
   */
  lemma RebuildBinds(s: State, f: string, dsl: Dsl, env: nat -> Env)
    requires RouteTable.Inv(s) && f != "" && SyncFlow(s, f, Some(dsl), env).1.Mounted?
    ensures var t := Table(SyncFlow(s, f, Some(dsl), env).0);
            && (forall i, j, k | LastBinds(dsl.nodes, i, j, k) ::
                  && k in t
                  && t[k] == Target(f, dsl.nodes[i].id, dsl.nodes[i].http.value.routers[j].relation, dsl))
            && (forall k | k in t && t[k].flowID == f :: exists i, j :: LastBinds(dsl.nodes, i, j, k))
            && WithoutFlow(t, f) == WithoutFlow(Table(s), f)
  {
    hide RouteTable.Inv, SyncFlow, Table, Items, RoutesOf, LastBinds, NodesParse;
    var t := Table(SyncFlow(s, f, Some(dsl), env).0);
    SyncEffect(s, f, Some(dsl), env);
    SyncExact(s, f, dsl, env);
    ParsesIffNodesParse(dsl.nodes);
    assert t == WithoutFlow(Table(s), f) + Routes(f, dsl);
    forall i, j, k | LastBinds(dsl.nodes, i, j, k)
      ensures IsHttp(dsl.nodes, i) && 0 <= j < |dsl.nodes[i].http.value.routers|
      ensures k in t && t[k] == Target(f, dsl.nodes[i].id, dsl.nodes[i].http.value.routers[j].relation, dsl)
    {
      BindsLast(dsl.nodes, i, j, k);
      RouteLeadsTo(f, dsl, i, j, k);
    }
    forall k | k in t && t[k].flowID == f ensures exists i, j :: LastBinds(dsl.nodes, i, j, k) {
      var i, j := RouteComesFrom(f, dsl, k);
    }
  }

  // ---- CORS ----

  /** How a pattern is registered on the mux of an address: its CORS setting, if it is registered. */
  function Cors(s: State, k: RouteKey): Option<bool> {
    if k.addr in s.byAddr && k.pattern in s.byAddr[k.addr].mux then Some(s.byAddr[k.addr].mux[k.pattern]) else None
  }

  lemma BindCors(s: State, req: Request, target: Target, f: string, k: RouteKey)
    requires RouteTable.Inv(s)
    ensures Cors(BoundState(s, req, target, f), k) ==
            if k == RouteKey(req.addr, req.pattern) && At(s.byAddr, k).None? then Some(req.allowCors) else Cors(s, k)
  {
    if k.addr in s.byAddr {
      assert ServerOk(s.byAddr[k.addr]);
    }
  }

  /** The first request for a key registers it; later ones change where it leads and not its CORS setting. */
  lemma {:induction false} MountCors(s: State, f: string, dsl: Dsl, items: seq<Item>, env: nat -> Env, n: nat,
                                     k: RouteKey)
    requires RouteTable.Inv(s) && f != "" && MountItems(s, f, dsl, items, env, n).1.Mounted?
    ensures var s' := MountItems(s, f, dsl, items, env, n).0;
            && (At(s.byAddr, k).Some? ==> Cors(s', k) == Cors(s, k))
            && (At(s.byAddr, k).None? ==>
                  forall m | 0 <= m < |items| && items[m].RouteItem? && KeyOf(items[m]) == k ::
                    (forall l | 0 <= l < m :: items[l].RouteItem? && KeyOf(items[l]) != k) ==>
                    Cors(s', k) == Some(items[m].req.allowCors))
    decreases |items|
  {
    hide RouteTable.Inv, AddRoute, BoundState, RoutesOf, Cors, Table, RemoveFlow;
    if items != [] && items[0].RouteItem? {
      var req, target := items[0].req, TargetOf(f, dsl, items[0]);
      AddRouteCases(s, req, target, f, env(n));
      var s1 := BoundState(s, req, target, f);
      BindInv(s, req, target, f);
      BindCors(s, req, target, f, k);
      BindAt(s, req, target, k);
      BoundIs(s, req, target, f);
      MountCors(s1, f, dsl, items[1..], env, n + 1, k);
      var s' := MountItems(s, f, dsl, items, env, n).0;
      if At(s.byAddr, k).None? {
        forall m | 0 <= m < |items| && items[m].RouteItem? && KeyOf(items[m]) == k
                   && forall l | 0 <= l < m :: items[l].RouteItem? && KeyOf(items[l]) != k
          ensures Cors(s', k) == Some(items[m].req.allowCors)
        {
          if m > 0 {
            assert items[1..][m - 1] == items[m];
            assert forall l | 0 <= l < m - 1 :: items[1..][l] == items[l + 1];
          }
        }
      }
    }
  }

  lemma BoundIs(s: State, req: Request, target: Target, f: string)
    ensures BoundState(s, req, target, f).byAddr == s.byAddr[req.addr := Bound(ServerFor(s, req), req, target)]
  {
  }

  /** After a successful rebuild the CORS setting of a route is that of the first node that binds it. */
  lemma RebuildCors(s: State, f: string, dsl: Dsl, env: nat -> Env, i: int, j: int, k: RouteKey)
    requires RouteTable.Inv(s) && f != "" && SyncFlow(s, f, Some(dsl), env).1.Mounted?
    requires FirstBinds(dsl.nodes, i, j, k)
    ensures Cors(SyncFlow(s, f, Some(dsl), env).0, k) == Some(dsl.nodes[i].http.value.allowCors)
  {
    hide RouteTable.Inv, MountItems, Table, Items, Cors, RemoveFlow, SyncFlow, Fits, FitsAllBeside;
    var s0 := RemoveFlow(s, f);
    var items := Items(dsl.nodes);
    var n := Place(dsl.nodes, i, j);
    RemoveFlowEffect(s, f);
    SyncUnfold(s, f, Some(dsl), env);
    MountExact(s0, f, dsl, items, env, 0);
    PlaceIs(dsl.nodes, i, j, k);
    assert At(s0.byAddr, k).None? by {
      FreshKey(s, f, items[n].req, k);
    }
    forall l | 0 <= l < n ensures items[l].RouteItem? && KeyOf(items[l]) != k {
      assert items[l].RouteItem?;
      var a, b := ItemBinds(dsl.nodes, l);
      if a > i {
        HttpItems(dsl.nodes[i]);
        PlaceOrder(dsl.nodes, i, j, a, b);
      }
    }
    MountCors(s0, f, dsl, items, env, 0, k);
  }

  lemma FreshKey(s: State, f: string, req: Request, k: RouteKey)
    requires RouteTable.Inv(s) && f != "" && k == RouteKey(req.addr, req.pattern) && Fits(RemoveFlow(s, f), f, req)
    ensures At(RemoveFlow(s, f).byAddr, k).None?
  {
    hide RouteTable.Inv, RemoveFlow;
    RemoveFlowEffect(s, f);
    TableAt(RemoveFlow(s, f), k);
  }

  /** Dropping a route re-registers every surviving route of its address with CORS on, and touches no other address. */
  lemma DropCors(s: State, f: string, k: RouteKey, j: RouteKey)
    requires RouteTable.Inv(s)
    ensures var s' := s.(byAddr := DropRoute(s.byAddr, f, k));
            Cors(s', j) == if j.addr != k.addr then Cors(s, j)
                           else if At(s'.byAddr, j).Some? then Some(true) else None
  {
  }

  // ---- the check, over nodes and routers ----

  /**
   * The pre-publish check passes if and only if the nodes parse, no two nodes want one address in different modes, no
   * two routers want one pattern on one address, and no other flow has taken the mode or the pattern.
   */
  lemma CheckIs(s: State, f: string, nodes: seq<Node>)
    requires RouteTable.Inv(s) && f != ""
    ensures CheckPasses(s, f, nodes) <==>
            && NodesParse(nodes)
            && (forall i, j | IsHttp(nodes, i) && IsHttp(nodes, j) ::
                  var mine, theirs := nodes[i].http.value, nodes[j].http.value;
                  mine.addr == theirs.addr ==> mine.https == theirs.https && mine.fp == theirs.fp)
            && (forall i, j, a, b, k | Binds(nodes, i, j, k) && Binds(nodes, a, b, k) :: i == a && j == b)
            && (forall i | IsHttp(nodes, i) :: ModeFree(s, f, nodes[i].http.value))
            && (forall i, j, k | Binds(nodes, i, j, k) && k in Table(s) :: Table(s)[k].flowID == f)
  {
    hide Items, ModeFree, RouteTable.Inv, Table, NodesParse;
    DistinctIs(nodes);
    forall k ensures HasKey(Items(nodes), k) <==> exists i, j :: Binds(nodes, i, j, k) {
      KeysAre(nodes, k);
    }
    forall k ensures PatternFree(s, f, k) <==> (k in Table(s) ==> Table(s)[k].flowID == f) {
      FreeIs(s, f, k);
    }
  }

  lemma KeysAre(nodes: seq<Node>, k: RouteKey)
    ensures HasKey(Items(nodes), k) <==> exists i, j :: Binds(nodes, i, j, k)
  {
    hide Items;
    if HasKey(Items(nodes), k) {
      var n :| 0 <= n < |Items(nodes)| && Items(nodes)[n].RouteItem? && KeyOf(Items(nodes)[n]) == k;
      var i, j := ItemBinds(nodes, n);
    }
    if i, j :| Binds(nodes, i, j, k) {
      PlaceIs(nodes, i, j, k);
    }
  }

  lemma FreeIs(s: State, f: string, k: RouteKey)
    requires RouteTable.Inv(s) && f != ""
    ensures PatternFree(s, f, k) <==> (k in Table(s) ==> Table(s)[k].flowID == f)
  {
    hide Table;
    TableAt(s, k);
    if At(s.byAddr, k).Some? {
      OwnerNamed(s, k);
    }
  }

  lemma DistinctIs(nodes: seq<Node>)
    ensures DistinctRoutes(Items(nodes)) <==>
            forall i, j, a, b, k | Binds(nodes, i, j, k) && Binds(nodes, a, b, k) :: i == a && j == b
  {
    hide Items, NodeItems;
    var items := Items(nodes);
    if DistinctRoutes(items) {
      forall i, j, a, b, k | Binds(nodes, i, j, k) && Binds(nodes, a, b, k) ensures i == a && j == b {
        SamePlace(nodes, i, j, a, b, k);
      }
    } else {
      var m, n :| 0 <= m < n < |items| && items[m].RouteItem? && items[n].RouteItem?
                  && KeyOf(items[m]) == KeyOf(items[n]);
      var i, j := ItemBinds(nodes, m);
      var a, b := ItemBinds(nodes, n);
      assert i != a || j != b;
    }
  }

  lemma SamePlace(nodes: seq<Node>, i: int, j: int, a: int, b: int, k: RouteKey)
    requires DistinctRoutes(Items(nodes)) && Binds(nodes, i, j, k) && Binds(nodes, a, b, k)
    ensures i == a && j == b
  {
    hide Items, NodeItems;
    PlaceIs(nodes, i, j, k);
    PlaceIs(nodes, a, b, k);
    HttpItems(nodes[i]);
    HttpItems(nodes[a]);
    if i < a {
      PlaceOrder(nodes, i, j, a, b);
    } else if a < i {
      PlaceOrder(nodes, a, b, i, j);
    }
  }
}
