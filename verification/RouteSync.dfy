/**
 * Rebuilding one flow's routes, as an update of the routing function.
 *
 * `SyncEffect` describes every outcome of `RouteTable.SyncFlow`, and `SyncExact` says when a
 * rebuild is refused: exactly when some request does not fit beside the other flows' routes.
 */
module RouteSync {
  import opened Prelude
  import opened FlowDsl
  import opened RouteTable

  /** All requests fit the table and agree with each other on TLS. */
  ghost predicate FitsAll(s: State, f: string, items: seq<Item>) {
    && (forall i | 0 <= i < |items| && items[i].RouteItem? :: Fits(s, f, items[i].req))
    && TlsAgree(items)
  }

  predicate SameMode(a: Item, b: Item) {
    a.RouteItem? && b.RouteItem? && a.req.addr == b.req.addr ==> a.req.https == b.req.https && a.req.fp == b.req.fp
  }

  ghost predicate TlsAgree(items: seq<Item>) {
    forall i, j | 0 <= i < |items| && 0 <= j < |items| :: SameMode(items[i], items[j])
  }

  ghost predicate AlwaysWorks(env: nat -> Env) {
    forall n :: env(n) == Works
  }

  /** The listener that serves an item runs in the mode the item asks for. */
  ghost predicate Serves(s: State, item: Item) {
    item.RouteItem? ==>
      && item.req.addr in s.byAddr
      && s.byAddr[item.req.addr].https == item.req.https
      && s.byAddr[item.req.addr].fp == item.req.fp
  }

  lemma WithoutOverwritten(t: map<RouteKey, Target>, f: string, k: RouteKey, target: Target)
    requires target.flowID == f
    requires k in t ==> t[k].flowID == f
    ensures WithoutFlow(t[k := target], f) == WithoutFlow(t, f)
  {
  }

  lemma FitsOwner(s: State, f: string, req: Request)
    requires Fits(s, f, req)
    ensures var k := RouteKey(req.addr, req.pattern); k in Table(s) ==> Table(s)[k].flowID == f
  {
    TableAt(s, RouteKey(req.addr, req.pattern));
  }

  lemma BoundFits(s: State, f: string, dsl: Dsl, first: Item, later: Item)
    requires f != "" && first.RouteItem? && later.RouteItem? && Fits(s, f, first.req)
    ensures var s1 := BoundState(s, first.req, TargetOf(f, dsl, first), f);
            Fits(s1, f, later.req) <==> Fits(s, f, later.req) && SameMode(first, later)
  {
    BindAt(s, first.req, TargetOf(f, dsl, first), KeyOf(later));
  }

  /** Mounting the first request leaves exactly the remaining requests' conditions to be met. */
  lemma FitsTail(s: State, f: string, dsl: Dsl, items: seq<Item>)
    requires Inv(s) && f != "" && items != [] && items[0].RouteItem? && Fits(s, f, items[0].req)
    ensures FitsAll(BoundState(s, items[0].req, TargetOf(f, dsl, items[0]), f), f, items[1..]) <==> FitsAll(s, f, items)
  {
    hide Inv, Fits, BoundState;
    var target := TargetOf(f, dsl, items[0]);
    var s1 := BoundState(s, items[0].req, target, f);
    forall i | 0 <= i < |items[1..]| && items[1..][i].RouteItem?
      ensures Fits(s1, f, items[1..][i].req) <==> (Fits(s, f, items[1..][i].req) && SameMode(items[0], items[1..][i]))
    {
      BoundFits(s, f, dsl, items[0], items[1..][i]);
    }
    if FitsAll(s, f, items) {
      forall i | 0 <= i < |items[1..]| && items[1..][i].RouteItem? ensures Fits(s1, f, items[1..][i].req) {
        assert items[1..][i] == items[i + 1];
        assert SameMode(items[0], items[i + 1]);
      }
      forall i, j | 0 <= i < |items[1..]| && 0 <= j < |items[1..]| ensures SameMode(items[1..][i], items[1..][j]) {
        assert SameMode(items[i + 1], items[j + 1]);
      }
    }
    if FitsAll(s1, f, items[1..]) {
      forall i | 0 < i < |items|
        ensures items[i].RouteItem? ==> Fits(s, f, items[i].req) && SameMode(items[0], items[i]) {
        assert items[i] == items[1..][i - 1];
      }
      forall i, j | 0 <= i < |items| && 0 <= j < |items| ensures SameMode(items[i], items[j]) {
        if i > 0 && j > 0 {
          assert SameMode(items[1..][i - 1], items[1..][j - 1]);
        }
      }
    }
  }

  /** How a run of mounts acts on the routing function, for every outcome. */
  lemma {:induction false} MountEffect(s: State, f: string, dsl: Dsl, items: seq<Item>, env: nat -> Env, n: nat)
    requires Inv(s) && f != ""
    ensures var (s', o) := MountItems(s, f, dsl, items, env, n);
            && Inv(s')
            && Table(s') == (if o.Mounted? || o.BadConfig? then Table(s) + RoutesOf(f, dsl, items)
                             else WithoutFlow(Table(s), f))
            && WithoutFlow(Table(s'), f) == WithoutFlow(Table(s), f)
            && (o.BadConfig? ==> !Parses(items))
    decreases |items|
  {
    hide *;
    if items == [] || items[0].BadItem? {
      MountStops(s, f, dsl, items, env, n);
    } else {
      var target := TargetOf(f, dsl, items[0]);
      var (s1, o) := AddRoute(s, items[0].req, target, f, env(n));
      TargetOwner(f, dsl, items[0]);
      AddRouteEffect(s, items[0].req, target, f, env(n));
      MountStep(s, f, dsl, items, env, n);
      if o.Mounted? {
        FitsOwner(s, f, items[0].req);
        var k := RouteKey(items[0].req.addr, items[0].req.pattern);
        WithoutOverwritten(Table(s), f, k, target);
        MountEffect(s1, f, dsl, items[1..], env, n + 1);
        RoutesStep(f, dsl, items);
        assert Table(s)[k := target] + RoutesOf(f, dsl, items[1..]) ==
               Table(s) + (map[k := target] + RoutesOf(f, dsl, items[1..]));
        ParsesTail(items);
      } else {
        RemoveFlowEffect(s, f);
        WithoutTwice(Table(s), f);
      }
    }
  }

  lemma TargetOwner(f: string, dsl: Dsl, item: Item)
    requires item.RouteItem?
    ensures TargetOf(f, dsl, item).flowID == f
  {
  }

  lemma WithoutTwice(t: map<RouteKey, Target>, f: string)
    ensures WithoutFlow(WithoutFlow(t, f), f) == WithoutFlow(t, f)
  {
  }

  lemma ParsesTail(items: seq<Item>)
    requires items != [] && items[0].RouteItem?
    ensures Parses(items) <==> Parses(items[1..])
  {
    if Parses(items[1..]) {
      forall i | 0 <= i < |items| ensures items[i].RouteItem? {
        assert i > 0 ==> items[i] == items[1..][i - 1];
      }
    }
  }

  lemma RoutesStep(f: string, dsl: Dsl, items: seq<Item>)
    requires items != [] && items[0].RouteItem?
    ensures RoutesOf(f, dsl, items) ==
            map[RouteKey(items[0].req.addr, items[0].req.pattern) := TargetOf(f, dsl, items[0])]
            + RoutesOf(f, dsl, items[1..])
  {
  }

  lemma MountStep(s: State, f: string, dsl: Dsl, items: seq<Item>, env: nat -> Env, n: nat)
    requires items != [] && items[0].RouteItem?
    ensures MountItems(s, f, dsl, items, env, n) ==
            var (s1, o) := AddRoute(s, items[0].req, TargetOf(f, dsl, items[0]), f, env(n));
            if o.Mounted? then MountItems(s1, f, dsl, items[1..], env, n + 1) else (RemoveFlow(s1, f), o)
  {
  }

  lemma MountStops(s: State, f: string, dsl: Dsl, items: seq<Item>, env: nat -> Env, n: nat)
    requires items == [] || items[0].BadItem?
    ensures MountItems(s, f, dsl, items, env, n) == (s, if items == [] then Mounted else BadConfig)
    ensures Table(s) + RoutesOf(f, dsl, items) == Table(s)
    ensures Parses(items) <==> items == []
  {
  }

  /** Which outcomes a run of mounts can have, and when it succeeds. */
  lemma {:induction false} MountExact(s: State, f: string, dsl: Dsl, items: seq<Item>, env: nat -> Env, n: nat)
    requires Inv(s) && f != ""
    ensures var (s', o) := MountItems(s, f, dsl, items, env, n);
            && (o.Mounted? ==> Parses(items) && FitsAll(s, f, items))
            && (Parses(items) && FitsAll(s, f, items) ==> o.Mounted? || o.ListenError? || o.KeyPairError?)
            && (AlwaysWorks(env) && Parses(items) && FitsAll(s, f, items) ==> o.Mounted?)
    decreases |items|
  {
    if items != [] && items[0].RouteItem? {
      var target := TargetOf(f, dsl, items[0]);
      AddRouteCases(s, items[0].req, target, f, env(n));
      ParsesTail(items);
      if Fits(s, f, items[0].req) {
        BindInv(s, items[0].req, target, f);
        FitsTail(s, f, dsl, items);
        MountExact(BoundState(s, items[0].req, target, f), f, dsl, items[1..], env, n + 1);
      }
    }
  }

  /** Listeners keep their mode while routes are mounted, and serve everything that was mounted. */
  lemma {:induction false} MountTls(s: State, f: string, dsl: Dsl, items: seq<Item>, env: nat -> Env, n: nat)
    requires Inv(s) && f != ""
    ensures var (s', o) := MountItems(s, f, dsl, items, env, n);
            && SameTls(s.byAddr, s'.byAddr)
            && (o.Mounted? ==> s.byAddr.Keys <= s'.byAddr.Keys)
            && (o.Mounted? ==> forall i | 0 <= i < |items| :: Serves(s', items[i]))
    decreases |items|
  {
    hide MountItems, AddRoute, RemoveFlow, Inv, Table;
    if items == [] || items[0].BadItem? {
      MountStops(s, f, dsl, items, env, n);
    } else {
      var target := TargetOf(f, dsl, items[0]);
      var (s1, o) := AddRoute(s, items[0].req, target, f, env(n));
      AddRouteEffect(s, items[0].req, target, f, env(n));
      MountStep(s, f, dsl, items, env, n);
      if o.Mounted? {
        MountTls(s1, f, dsl, items[1..], env, n + 1);
        var s' := MountItems(s, f, dsl, items, env, n).0;
        if MountItems(s, f, dsl, items, env, n).1.Mounted? {
          forall i | 0 <= i < |items| ensures Serves(s', items[i]) {
            if i > 0 {
              assert items[i] == items[1..][i - 1];
            }
          }
        }
      } else {
        RemoveFlowEffect(s, f);
      }
    }
  }

  /** Every listener answers some pattern. */
  ghost function RouteAt(s: State, a: string): (p: string)
    requires Inv(s) && a in s.byAddr
    ensures p in s.byAddr[a].routes
  {
    assert ServerOk(s.byAddr[a]);
    var p :| p in s.byAddr[a].routes;
    p
  }

  // ---- theorems about a whole rebuild ----

  /**
   * A rebuild is a map update. On success the flow's old routes are replaced by the routes of its
   * published DSL; when a route is refused, or there is no published DSL, they are just removed; a
   * rejected node configuration leaves the routes mounted before it. No other flow's route moves.
   */
  lemma SyncEffect(s: State, f: string, published: Option<Dsl>, env: nat -> Env)
    requires Inv(s) && f != ""
    ensures var (s', o) := SyncFlow(s, f, published, env);
            && Inv(s')
            && Table(s') == (if published.Some? && (o.Mounted? || o.BadConfig?)
                             then WithoutFlow(Table(s), f) + RoutesOf(f, published.value, Items(published.value.nodes))
                             else WithoutFlow(Table(s), f))
            && WithoutFlow(Table(s'), f) == WithoutFlow(Table(s), f)
            && (o.BadConfig? ==> published.Some? && !Parses(Items(published.value.nodes)))
  {
    hide *;
    RemoveFlowEffect(s, f);
    WithoutTwice(Table(s), f);
    SyncUnfold(s, f, published, env);
    if published.Some? {
      MountEffect(RemoveFlow(s, f), f, published.value, Items(published.value.nodes), env, 0);
    }
  }

  lemma SyncUnfold(s: State, f: string, published: Option<Dsl>, env: nat -> Env)
    ensures SyncFlow(s, f, published, env) ==
            if published.None? then (RemoveFlow(s, f), Mounted)
            else MountItems(RemoveFlow(s, f), f, published.value, Items(published.value.nodes), env, 0)
  {
  }

  /**
   * A request fits beside the other flows when its pattern is not theirs and they do not already
   * run its address in another TLS mode.
   */
  ghost predicate FitsBeside(s: State, f: string, req: Request) {
    && (forall p | p in RoutesAt(s, req.addr) && RoutesAt(s, req.addr)[p].flowID != f ::
          p != req.pattern && s.byAddr[req.addr].https == req.https && s.byAddr[req.addr].fp == req.fp)
  }

  ghost function RoutesAt(s: State, a: string): map<string, Target> {
    if a in s.byAddr then s.byAddr[a].routes else map[]
  }

  lemma FitsAfterRemoval(s: State, f: string, req: Request)
    requires Inv(s) && f != ""
    ensures Fits(RemoveFlow(s, f), f, req) <==> FitsBeside(s, f, req)
  {
    hide RemoveFlow, Table;
    var s0 := RemoveFlow(s, f);
    RemoveFlowEffect(s, f);
    forall p ensures p in RoutesAt(s0, req.addr) <==> p in RoutesAt(s, req.addr) && RoutesAt(s, req.addr)[p].flowID != f
             ensures p in RoutesAt(s0, req.addr) ==> RoutesAt(s0, req.addr)[p] == RoutesAt(s, req.addr)[p] {
      TableAt(s, RouteKey(req.addr, p));
      TableAt(s0, RouteKey(req.addr, p));
    }
    if req.addr in s0.byAddr {
      var p := RouteAt(s0, req.addr);
      assert p in RoutesAt(s, req.addr) && RoutesAt(s, req.addr)[p].flowID != f;
    }
  }

  ghost predicate FitsAllBeside(s: State, f: string, items: seq<Item>) {
    && (forall i | 0 <= i < |items| && items[i].RouteItem? :: FitsBeside(s, f, items[i].req))
    && TlsAgree(items)
  }

  /**
   * With a cooperating environment a rebuild succeeds if and only if all configurations parse and
   * all requests fit beside the other flows' routes; in any environment nothing but a listener or
   * certificate failure can then stop it.
   */
  lemma SyncExact(s: State, f: string, dsl: Dsl, env: nat -> Env)
    requires Inv(s) && f != ""
    ensures var o := SyncFlow(s, f, Some(dsl), env).1;
            var fits := Parses(Items(dsl.nodes)) && FitsAllBeside(s, f, Items(dsl.nodes));
            && (o.Mounted? ==> fits)
            && (fits ==> o.Mounted? || o.ListenError? || o.KeyPairError?)
            && (AlwaysWorks(env) ==> (o.Mounted? <==> fits))
  {
    var s0 := RemoveFlow(s, f);
    var items := Items(dsl.nodes);
    RemoveFlowEffect(s, f);
    forall i | 0 <= i < |items| && items[i].RouteItem?
      ensures Fits(s0, f, items[i].req) <==> FitsBeside(s, f, items[i].req)
    {
      FitsAfterRemoval(s, f, items[i].req);
    }
    MountExact(s0, f, dsl, items, env, 0);
  }

  // ---- what a failed rebuild leaves behind ----

  /** How many items come before the first rejected configuration. */
  function GoodPrefix(items: seq<Item>): (b: nat)
    ensures b <= |items| && (b < |items| ==> items[b].BadItem?)
    ensures forall i | 0 <= i < b :: items[i].RouteItem?
  {
    if items == [] || items[0].BadItem? then 0 else 1 + GoodPrefix(items[1..])
  }

  /** A run of mounts ends at a rejected configuration if and only if there is one and everything before it fits. */
  lemma {:induction false} BadExactly(s: State, f: string, dsl: Dsl, items: seq<Item>, env: nat -> Env, n: nat)
    requires Inv(s) && f != ""
    ensures var o := MountItems(s, f, dsl, items, env, n).1;
            var reached := GoodPrefix(items) < |items| && FitsAll(s, f, items[..GoodPrefix(items)]);
            && (o.BadConfig? ==> reached)
            && (reached ==> o.BadConfig? || o.ListenError? || o.KeyPairError?)
            && (AlwaysWorks(env) ==> (o.BadConfig? <==> reached))
    decreases |items|
  {
    hide Inv, FitsAll, MountItems, AddRoute, BoundState;
    if items == [] || items[0].BadItem? {
      MountStops(s, f, dsl, items, env, n);
      assert items[..0] == [];
      assert FitsAll(s, f, []) by {
        NothingFits(s, f);
      }
    } else {
      var b := GoodPrefix(items);
      var target := TargetOf(f, dsl, items[0]);
      assert items[..b][1..] == items[1..][..b - 1] && items[..b][0] == items[0];
      AddRouteCases(s, items[0].req, target, f, env(n));
      MountStep(s, f, dsl, items, env, n);
      FirstFits(s, f, items[..b]);
      if Fits(s, f, items[0].req) {
        BindInv(s, items[0].req, target, f);
        FitsTail(s, f, dsl, items[..b]);
        BadExactly(BoundState(s, items[0].req, target, f), f, dsl, items[1..], env, n + 1);
      }
    }
  }

  lemma NothingFits(s: State, f: string)
    ensures FitsAll(s, f, [])
  {
  }

  lemma FirstFits(s: State, f: string, items: seq<Item>)
    requires items != [] && items[0].RouteItem?
    ensures FitsAll(s, f, items) ==> Fits(s, f, items[0].req)
  {
  }

  /** A flow has routes in a table. */
  ghost predicate Routed(t: map<RouteKey, Target>, f: string) {
    exists k :: k in t && t[k].flowID == f
  }

  /**
   * A failed rebuild leaves routes of its flow mounted if and only if some routes come before the first rejected
   * configuration and all of them fit beside the other flows; otherwise it unloads the flow.
   */
  lemma FailureLeavesExactly(s: State, f: string, dsl: Dsl, env: nat -> Env)
    requires Inv(s) && f != "" && AlwaysWorks(env)
    ensures var (s', o) := SyncFlow(s, f, Some(dsl), env);
            var items := Items(dsl.nodes);
            var b := GoodPrefix(items);
            !o.Mounted? ==> (Routed(Table(s'), f) <==> 0 < b < |items| && FitsAllBeside(s, f, items[..b]))
  {
    hide *;
    var s0 := RemoveFlow(s, f);
    var items := Items(dsl.nodes);
    RemoveFlowEffect(s, f);
    SyncUnfold(s, f, Some(dsl), env);
    SyncEffect(s, f, Some(dsl), env);
    BadExactly(s0, f, dsl, items, env, 0);
    BesideIsAfterRemoval(s, f, items[..GoodPrefix(items)]);
    PrefixRouted(Table(s), f, dsl, items);
  }

  lemma BesideIsAfterRemoval(s: State, f: string, items: seq<Item>)
    requires Inv(s) && f != ""
    ensures FitsAll(RemoveFlow(s, f), f, items) <==> FitsAllBeside(s, f, items)
  {
    hide Inv, Fits, FitsBeside, RemoveFlow, TlsAgree;
    forall i | 0 <= i < |items| && items[i].RouteItem?
      ensures Fits(RemoveFlow(s, f), f, items[i].req) <==> FitsBeside(s, f, items[i].req)
    {
      FitsAfterRemoval(s, f, items[i].req);
    }
  }

  lemma PrefixRouted(t: map<RouteKey, Target>, f: string, dsl: Dsl, items: seq<Item>)
    ensures !Routed(WithoutFlow(t, f), f)
    ensures Routed(WithoutFlow(t, f) + RoutesOf(f, dsl, items), f) <==> GoodPrefix(items) > 0
  {
    if items != [] && items[0].RouteItem? {
      RoutesStep(f, dsl, items);
      var k := RouteKey(items[0].req.addr, items[0].req.pattern);
      assert k in RoutesOf(f, dsl, items);
      RoutesOwner(f, dsl, items, k);
      assert (WithoutFlow(t, f) + RoutesOf(f, dsl, items))[k].flowID == f;
    } else {
      assert WithoutFlow(t, f) + RoutesOf(f, dsl, items) == WithoutFlow(t, f);
    }
  }

  lemma {:induction false} RoutesOwner(f: string, dsl: Dsl, items: seq<Item>, k: RouteKey)
    requires k in RoutesOf(f, dsl, items)
    ensures RoutesOf(f, dsl, items)[k].flowID == f
    ensures exists i :: 0 <= i < |items| && items[i].RouteItem? && KeyOf(items[i]) == k
    decreases |items|
  {
    if k in RoutesOf(f, dsl, items[1..]) {
      RoutesOwner(f, dsl, items[1..], k);
      var i :| 0 <= i < |items[1..]| && items[1..][i].RouteItem? && KeyOf(items[1..][i]) == k;
      assert items[i + 1] == items[1..][i];
    } else {
      assert KeyOf(items[0]) == k;
    }
  }

  /** A good node followed by a rejected one: the rebuild fails and the first node's route stays mounted. */
  lemma RejectedNodeLeavesRoutes(f: string, a: string, b: string, cfg: HttpConfig, env: nat -> Env)
    requires f != "" && AlwaysWorks(env) && |cfg.routers| == 1
    ensures var dsl := Dsl(f, "", [HttpNode(a, Some(cfg)), HttpNode(b, None)]);
            var (s', o) := SyncFlow(Empty, f, Some(dsl), env);
            o.BadConfig? && Routed(Table(s'), f)
  {
    hide Inv, SyncFlow, Table, Fits, FitsAll, Routed, MountItems, RemoveFlow;
    var dsl := Dsl(f, "", [HttpNode(a, Some(cfg)), HttpNode(b, None)]);
    var items := Items(dsl.nodes);
    assert dsl.nodes[1..] == [HttpNode(b, None)] && dsl.nodes[1..][1..] == [];
    assert Items(dsl.nodes[1..]) == [BadItem] + Items([]);
    assert items == RouterItems(a, cfg) + [BadItem];
    assert items[1..] == [BadItem];
    assert GoodPrefix(items) == 1;
    EmptyFits(f, items[..1]);
    SyncExact(Empty, f, dsl, env);
    assert !Parses(items) by {
      assert items[1].BadItem?;
    }
    FailureLeavesExactly(Empty, f, dsl, env);
    SyncUnfold(Empty, f, Some(dsl), env);
    BadExactly(RemoveFlow(Empty, f), f, dsl, items, env, 0) by {
      RemoveFlowEffect(Empty, f);
    }
    BesideIsAfterRemoval(Empty, f, items[..1]);
  }

  lemma EmptyFits(f: string, items: seq<Item>)
    requires |items| == 1
    ensures Inv(Empty) && FitsAllBeside(Empty, f, items)
  {
  }

  // ---- every interleaving ----

  datatype Step =
    | Add(req: Request, target: Target, f: string, env: Env)
    | Remove(f: string)

  function Apply(s: State, step: Step): State {
    match step
    case Add(req, target, f, env) => AddRoute(s, req, target, f, env).0
    case Remove(f) => RemoveFlow(s, f)
  }

  function Run(s: State, steps: seq<Step>): State
    decreases |steps|
  {
    if steps == [] then s else Run(Apply(s, steps[0]), steps[1..])
  }

  /** The manager binds routes only for flows with an id, and always for the flow that owns the target. */
  predicate Legal(step: Step) {
    step.f != "" && (step.Add? ==> step.target.flowID == step.f)
  }

  lemma StepKeepsInv(s: State, step: Step)
    requires Inv(s) && Legal(step)
    ensures Inv(Apply(s, step))
  {
    hide Inv, Table;
    match step
    case Add(req, target, f, env) => AddRouteEffect(s, req, target, f, env);
    case Remove(f) => RemoveFlowEffect(s, f);
  }

  /** The two indexes, the reference counts and the muxes agree after any interleaving of atomic steps. */
  lemma {:induction false} InterleavingsKeepInv(s: State, steps: seq<Step>)
    requires Inv(s)
    requires forall i | 0 <= i < |steps| :: Legal(steps[i])
    ensures Inv(Run(s, steps))
    decreases |steps|
  {
    if steps != [] {
      StepKeepsInv(s, steps[0]);
      InterleavingsKeepInv(Apply(s, steps[0]), steps[1..]);
    }
  }

  /** In a state satisfying the invariant a pattern that is not yet routed is not yet on the mux. */
  lemma RegisterOnce(s: State, a: string, p: string)
    requires Inv(s) && a in s.byAddr
    ensures p in s.byAddr[a].mux <==> p in s.byAddr[a].routes
    ensures s.byAddr[a].refCount == |s.byAddr[a].routes| > 0
  {
    assert ServerOk(s.byAddr[a]);
  }
}
