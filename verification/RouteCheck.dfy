/**
 * The read-only predictor that runs before a DSL goes live, and what it promises about the rebuild
 * that follows.
 */
module RouteCheck {
  import opened Prelude
  import opened FlowDsl
  import opened RouteTable
  import opened RouteSync

  datatype Verdict =
    | Passes
    | BadNode(nodeID: string)
    | MixedTls(addr: string)
    | LocalDuplicate(key: RouteKey)
    | TlsTaken(addr: string)
    | RouteTaken(key: RouteKey, owner: string)

  predicate IsHttp(nodes: seq<Node>, i: int) {
    0 <= i < |nodes| && nodes[i].HttpNode? && nodes[i].http.Some?
  }

  predicate NodesParse(nodes: seq<Node>) {
    forall i | 0 <= i < |nodes| && nodes[i].HttpNode? :: nodes[i].http.Some?
  }

  predicate ConfigsAgree(a: HttpConfig, b: HttpConfig) {
    a.addr == b.addr ==> a.https == b.https && a.fp == b.fp
  }

  ghost predicate NodesAgree(nodes: seq<Node>) {
    forall i, j | IsHttp(nodes, i) && IsHttp(nodes, j) :: ConfigsAgree(nodes[i].http.value, nodes[j].http.value)
  }

  ghost predicate DistinctRoutes(items: seq<Item>) {
    forall i, j | 0 <= i < j < |items| && items[i].RouteItem? && items[j].RouteItem? ::
        KeyOf(items[i]) != KeyOf(items[j])
  }

  /** The address is free, in the same mode, or used by this flow alone. */
  ghost predicate ModeFree(s: State, f: string, cfg: HttpConfig) {
    cfg.addr in s.byAddr && (s.byAddr[cfg.addr].https != cfg.https || s.byAddr[cfg.addr].fp != cfg.fp) ==>
      forall p | p in s.byAddr[cfg.addr].routes :: s.byAddr[cfg.addr].routes[p].flowID in {"", f}
  }

  ghost predicate PatternFree(s: State, f: string, k: RouteKey) {
    At(s.byAddr, k).Some? ==> At(s.byAddr, k).value.flowID in {"", f}
  }

  ghost predicate CheckPasses(s: State, f: string, nodes: seq<Node>) {
    && NodesParse(nodes)
    && NodesAgree(nodes)
    && DistinctRoutes(Items(nodes))
    && (forall i | IsHttp(nodes, i) :: ModeFree(s, f, nodes[i].http.value))
    && (forall k | HasKey(Items(nodes), k) :: PatternFree(s, f, k))
  }

  ghost predicate HasKey(items: seq<Item>, k: RouteKey) {
    exists i :: 0 <= i < |items| && items[i].RouteItem? && KeyOf(items[i]) == k
  }

  // ---- items and the nodes they come from ----

  lemma {:induction false} ItemSource(nodes: seq<Node>, item: Item) returns (n: int)
    requires item in Items(nodes)
    ensures 0 <= n < |nodes| && item in NodeItems(nodes[n])
    decreases |nodes|
  {
    if item in NodeItems(nodes[0]) {
      n := 0;
    } else {
      n := ItemSource(nodes[1..], item);
      n := n + 1;
    }
  }

  lemma {:induction false} NodeContributes(nodes: seq<Node>, n: int, item: Item)
    requires 0 <= n < |nodes| && item in NodeItems(nodes[n])
    ensures item in Items(nodes)
    decreases n
  {
    if n > 0 {
      NodeContributes(nodes[1..], n - 1, item);
    }
  }

  lemma {:induction false} ItemsSplit(nodes: seq<Node>, i: int)
    requires 0 <= i < |nodes|
    ensures Items(nodes) == Items(nodes[..i]) + NodeItems(nodes[i]) + Items(nodes[i + 1..])
    ensures Items(nodes[..i + 1]) == Items(nodes[..i]) + NodeItems(nodes[i])
    decreases i
  {
    hide NodeItems;
    if i == 0 {
      assert nodes[..0] == [] && nodes[..1][1..] == [] && nodes[..1][0] == nodes[0];
      assert Items([]) == [];
    } else {
      ItemsSplit(nodes[1..], i - 1);
      assert nodes[..i][1..] == nodes[1..][..i - 1];
      assert nodes[..i + 1][1..] == nodes[1..][..i];
      assert nodes[1..][i - 1 + 1..] == nodes[i + 1..];
    }
  }

  /** An item carries the address and mode of a node that parsed. */
  lemma ItemOfConfig(nodes: seq<Node>, item: Item) returns (n: int)
    requires item in Items(nodes) && item.RouteItem?
    ensures IsHttp(nodes, n)
    ensures var cfg := nodes[n].http.value;
            item.req.addr == cfg.addr && item.req.https == cfg.https && item.req.fp == cfg.fp
  {
    n := ItemSource(nodes, item);
  }

  lemma ParsesIffNodesParse(nodes: seq<Node>)
    ensures Parses(Items(nodes)) <==> NodesParse(nodes)
  {
    if NodesParse(nodes) {
      forall i | 0 <= i < |Items(nodes)| ensures Items(nodes)[i].RouteItem? {
        var n := ItemSource(nodes, Items(nodes)[i]);
      }
    } else {
      var n :| 0 <= n < |nodes| && nodes[n].HttpNode? && nodes[n].http.None?;
      assert NodeItems(nodes[n])[0] == BadItem;
      NodeContributes(nodes, n, BadItem);
    }
  }

  // ---- what passing means ----

  lemma OwnerNamed(s: State, k: RouteKey)
    requires Inv(s) && At(s.byAddr, k).Some?
    ensures At(s.byAddr, k).value.flowID != ""
  {
    assert OwnedBy(s.byAddr, k, At(s.byAddr, k).value.flowID);
  }

  lemma PassingFits(s: State, f: string, nodes: seq<Node>)
    requires Inv(s) && f != "" && CheckPasses(s, f, nodes)
    ensures Parses(Items(nodes)) && FitsAllBeside(s, f, Items(nodes))
  {
    hide Inv;
    var items := Items(nodes);
    ParsesIffNodesParse(nodes);
    forall i | 0 <= i < |items| && items[i].RouteItem? ensures FitsBeside(s, f, items[i].req) {
      var n := ItemOfConfig(nodes, items[i]);
      var a := items[i].req.addr;
      forall p | p in RoutesAt(s, a) && RoutesAt(s, a)[p].flowID != f
        ensures p != items[i].req.pattern
        ensures s.byAddr[a].https == items[i].req.https && s.byAddr[a].fp == items[i].req.fp
      {
        OwnerNamed(s, RouteKey(a, p));
        assert HasKey(items, KeyOf(items[i]));
        assert ModeFree(s, f, nodes[n].http.value);
      }
    }
    forall i, j | 0 <= i < |items| && 0 <= j < |items| ensures SameMode(items[i], items[j]) {
      if items[i].RouteItem? && items[j].RouteItem? {
        var n := ItemOfConfig(nodes, items[i]);
        var m := ItemOfConfig(nodes, items[j]);
        assert ConfigsAgree(nodes[n].http.value, nodes[m].http.value);
      }
    }
  }

  /**
   * The predictor is sufficient: after it passes, a rebuild from the same state can only be stopped
   * by a listener or certificate failure, and in a working environment it mounts every route.
   */
  lemma PredictorSufficient(s: State, f: string, dsl: Dsl, env: nat -> Env)
    requires Inv(s) && f != "" && CheckPasses(s, f, dsl.nodes)
    ensures var (s', o) := SyncFlow(s, f, Some(dsl), env);
            && (o.Mounted? || o.ListenError? || o.KeyPairError?)
            && (AlwaysWorks(env) ==> o.Mounted?)
            && (o.Mounted? ==> Table(s') == WithoutFlow(Table(s), f) + RoutesOf(f, dsl, Items(dsl.nodes)))
  {
    hide *;
    PassingFits(s, f, dsl.nodes);
    SyncExact(s, f, dsl, env);
    SyncEffect(s, f, Some(dsl), env);
  }

  predicate Idle(nodes: seq<Node>, i: int) {
    IsHttp(nodes, i) && nodes[i].http.value.routers == []
  }

  /** A node without routes asks for nothing, yet the check holds its TLS mode against the others. */
  ghost predicate IdleFits(s: State, f: string, nodes: seq<Node>) {
    forall i | Idle(nodes, i) ::
      && ModeFree(s, f, nodes[i].http.value)
      && forall j | IsHttp(nodes, j) :: ConfigsAgree(nodes[i].http.value, nodes[j].http.value)
  }

  ghost function FirstItem(nodes: seq<Node>, n: int): (i: int)
    requires IsHttp(nodes, n) && |nodes[n].http.value.routers| > 0
    ensures 0 <= i < |Items(nodes)| && Items(nodes)[i].RouteItem?
    ensures var cfg := nodes[n].http.value;
            var req := Items(nodes)[i].req;
            req.addr == cfg.addr && req.https == cfg.https && req.fp == cfg.fp
  {
    var item := NodeItems(nodes[n])[0];
    NodeContributes(nodes, n, item);
    var i :| 0 <= i < |Items(nodes)| && Items(nodes)[i] == item;
    i
  }

  lemma FittingAgrees(s: State, f: string, nodes: seq<Node>)
    requires IdleFits(s, f, nodes) && FitsAllBeside(s, f, Items(nodes))
    ensures NodesAgree(nodes)
  {
    hide Items, ModeFree;
    forall i, j | IsHttp(nodes, i) && IsHttp(nodes, j) ensures ConfigsAgree(nodes[i].http.value, nodes[j].http.value) {
      if !Idle(nodes, i) && !Idle(nodes, j) {
        var a, b := FirstItem(nodes, i), FirstItem(nodes, j);
        assert SameMode(Items(nodes)[a], Items(nodes)[b]);
      } else if Idle(nodes, j) {
        assert ConfigsAgree(nodes[j].http.value, nodes[i].http.value);
      }
    }
  }

  lemma FittingPasses(s: State, f: string, nodes: seq<Node>)
    requires Inv(s) && f != "" && IdleFits(s, f, nodes)
    requires Parses(Items(nodes)) && FitsAllBeside(s, f, Items(nodes)) && DistinctRoutes(Items(nodes))
    ensures CheckPasses(s, f, nodes)
  {
    hide Inv, Items;
    var items := Items(nodes);
    ParsesIffNodesParse(nodes);
    FittingAgrees(s, f, nodes);
    forall i | IsHttp(nodes, i) ensures ModeFree(s, f, nodes[i].http.value) {
      if !Idle(nodes, i) {
        var a := FirstItem(nodes, i);
        var cfg := nodes[i].http.value;
        assert FitsBeside(s, f, items[a].req);
        if cfg.addr in s.byAddr {
          assert RoutesAt(s, cfg.addr) == s.byAddr[cfg.addr].routes;
        }
      }
    }
    forall k | HasKey(items, k) ensures PatternFree(s, f, k) {
      var i :| 0 <= i < |items| && items[i].RouteItem? && KeyOf(items[i]) == k;
      assert FitsBeside(s, f, items[i].req);
      assert k.pattern in RoutesAt(s, k.addr) ==> RoutesAt(s, k.addr)[k.pattern].flowID == f;
    }
  }

  /**
   * How far the predictor is from exact: it passes if and only if the rebuild succeeds in a working environment, the
   * DSL binds no pattern twice, and the nodes without routes fit by their TLS mode.
   */
  lemma PredictorExact(s: State, f: string, dsl: Dsl, env: nat -> Env)
    requires Inv(s) && f != "" && AlwaysWorks(env)
    ensures CheckPasses(s, f, dsl.nodes) <==>
            && DistinctRoutes(Items(dsl.nodes))
            && IdleFits(s, f, dsl.nodes)
            && SyncFlow(s, f, Some(dsl), env).1.Mounted?
  {
    hide Inv, SyncFlow, Items, FitsAllBeside;
    SyncExact(s, f, dsl, env);
    if CheckPasses(s, f, dsl.nodes) {
      PassingFits(s, f, dsl.nodes);
    } else if Parses(Items(dsl.nodes)) && FitsAllBeside(s, f, Items(dsl.nodes)) && DistinctRoutes(Items(dsl.nodes))
              && IdleFits(s, f, dsl.nodes) {
      FittingPasses(s, f, dsl.nodes);
    }
  }

  lemma TwoItems(a: Node, b: Node)
    ensures Items([a, b]) == NodeItems(a) + NodeItems(b)
  {
    assert [a, b][1..] == [b] && [b][1..] == [];
    assert Items([b]) == NodeItems(b) + Items([]);
  }

  /** Two nodes without routes in different modes on one address: refused by the check, harmless to the rebuild. */
  lemma IdleModesRefused(f: string, a: string, b: string, addr: string, env: nat -> Env)
    requires f != ""
    ensures var nodes := [HttpNode(a, Some(HttpConfig(addr, false, "", false, []))),
                          HttpNode(b, Some(HttpConfig(addr, true, "", false, [])))];
            !CheckPasses(Empty, f, nodes) && SyncFlow(Empty, f, Some(Dsl(f, "", nodes)), env) == (Empty, Mounted)
  {
    var nodes := [HttpNode(a, Some(HttpConfig(addr, false, "", false, []))),
                  HttpNode(b, Some(HttpConfig(addr, true, "", false, [])))];
    TwoItems(nodes[0], nodes[1]);
    assert Items(nodes) == [];
    assert IsHttp(nodes, 0) && IsHttp(nodes, 1) && !ConfigsAgree(nodes[0].http.value, nodes[1].http.value);
    assert RemoveFlow(Empty, f) == Empty;
  }

  /** One pattern bound twice by one flow: refused by the check, and the rebuild lets the second binding win. */
  lemma DoublePatternRefused(f: string, id: string, addr: string, p: string, r1: string, r2: string, env: nat -> Env)
    requires f != "" && AlwaysWorks(env)
    ensures var cfg := HttpConfig(addr, false, "", false, [Router(p, r1), Router(p, r2)]);
            var dsl := Dsl(f, "", [HttpNode(id, Some(cfg))]);
            var (s', o) := SyncFlow(Empty, f, Some(dsl), env);
            && !CheckPasses(Empty, f, dsl.nodes) && o.Mounted?
            && Table(s') == map[RouteKey(addr, p) := Target(f, id, r2, dsl)]
  {
    hide Inv, SyncFlow, Table, Fits;
    var cfg := HttpConfig(addr, false, "", false, [Router(p, r1), Router(p, r2)]);
    var dsl := Dsl(f, "", [HttpNode(id, Some(cfg))]);
    var items := Items(dsl.nodes);
    assert dsl.nodes[1..] == [];
    assert Items([]) == [];
    assert items == NodeItems(dsl.nodes[0]) + Items(dsl.nodes[1..]);
    var req := Request(addr, p, false, "", false);
    assert items == [RouteItem(req, id, r1), RouteItem(req, id, r2)];
    assert KeyOf(items[0]) == KeyOf(items[1]);
    assert !DistinctRoutes(items);
    EmptyInv();
    assert Inv(Empty);
    SyncExact(Empty, f, dsl, env);
    SyncEffect(Empty, f, Some(dsl), env);
    TwoRoutes(f, dsl, items, RouteKey(addr, p));
  }

  lemma EmptyInv()
    ensures Inv(Empty) && Table(Empty) == map[]
  {
  }

  lemma TwoRoutes(f: string, dsl: Dsl, items: seq<Item>, k: RouteKey)
    requires |items| == 2 && items[0].RouteItem? && items[1].RouteItem? && KeyOf(items[0]) == KeyOf(items[1]) == k
    ensures RoutesOf(f, dsl, items) == map[k := TargetOf(f, dsl, items[1])]
  {
    assert items[1..][1..] == [];
    assert RoutesOf(f, dsl, items[1..]) == map[k := TargetOf(f, dsl, items[1])];
  }

  // ---- steps of the scan ----

  /** The scan's table of modes holds the mode of every HTTP node before `n`, and nothing else. */
  ghost predicate Collected(nodes: seq<Node>, n: int, tls: map<string, (bool, string)>) {
    && (forall i | 0 <= i < n && IsHttp(nodes, i) ::
          var cfg := nodes[i].http.value; cfg.addr in tls && tls[cfg.addr] == (cfg.https, cfg.fp))
    && (forall a | a in tls :: exists i :: 0 <= i < n && IsHttp(nodes, i) && nodes[i].http.value.addr == a)
  }

  lemma NothingScanned(nodes: seq<Node>)
    ensures Items(nodes[..0]) == [] && Collected(nodes, 0, map[])
  {
  }

  lemma NoItems(node: Node)
    requires !node.HttpNode?
    ensures NodeItems(node) == []
  {
  }

  lemma HttpItems(node: Node)
    requires node.HttpNode? && node.http.Some?
    ensures var cfg := node.http.value;
            && |NodeItems(node)| == |cfg.routers|
            && forall j | 0 <= j < |cfg.routers| ::
                 && NodeItems(node)[j].RouteItem?
                 && KeyOf(NodeItems(node)[j]) == RouteKey(cfg.addr, cfg.routers[j].pattern)
  {
  }

  lemma AllAgree(nodes: seq<Node>, tls: map<string, (bool, string)>)
    requires Collected(nodes, |nodes|, tls)
    ensures NodesAgree(nodes)
  {
  }

  lemma ExtendDistinct(items: seq<Item>, item: Item)
    requires DistinctRoutes(items) && item.RouteItem? && !HasKey(items, KeyOf(item))
    ensures DistinctRoutes(items + [item])
    ensures forall k :: HasKey(items + [item], k) <==> HasKey(items, k) || k == KeyOf(item)
  {
    var all := items + [item];
    assert forall i | 0 <= i < |items| :: all[i] == items[i];
    forall k ensures HasKey(all, k) <==> HasKey(items, k) || k == KeyOf(item) {
      if HasKey(items, k) {
        var i :| 0 <= i < |items| && items[i].RouteItem? && KeyOf(items[i]) == k;
        assert all[i] == items[i];
      }
      if k == KeyOf(item) {
        assert all[|items|] == item;
      }
    }
  }

  lemma DuplicateShows(items: seq<Item>, item: Item, all: seq<Item>)
    requires item.RouteItem? && HasKey(items, KeyOf(item)) && items + [item] <= all
    ensures !DistinctRoutes(all)
  {
    var i :| 0 <= i < |items| && items[i].RouteItem? && KeyOf(items[i]) == KeyOf(item);
    assert all[i] == items[i] && all[|items|] == item;
  }
}
