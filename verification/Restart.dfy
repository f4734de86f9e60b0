/**
 * The routing function as the union of the routes of a set of DSLs, and what a restart rebuilds.
 */
module Restart {
  import opened Prelude
  import opened FlowDsl
  import opened RouteTable
  import opened RouteSync

  function Routes(f: string, dsl: Dsl): map<RouteKey, Target> {
    RoutesOf(f, dsl, Items(dsl.nodes))
  }

  /** `t` binds exactly the routes of the DSLs in `up`, each to its own flow. */
  ghost predicate Represents(t: map<RouteKey, Target>, up: map<string, Dsl>) {
    && (forall k | k in t :: var f := t[k].flowID;
          f in up && k in Routes(f, up[f]) && Routes(f, up[f])[k] == t[k])
    && (forall f, k | f in up && k in Routes(f, up[f]) :: k in t && t[k] == Routes(f, up[f])[k])
  }

  /** A set of DSLs is represented by at most one routing function. */
  lemma RepresentsUnique(t: map<RouteKey, Target>, t': map<RouteKey, Target>, up: map<string, Dsl>)
    requires Represents(t, up) && Represents(t', up)
    ensures t == t'
  {
    RepresentsWithin(t, t', up);
    RepresentsWithin(t', t, up);
  }

  lemma RepresentsWithin(t: map<RouteKey, Target>, t': map<RouteKey, Target>, up: map<string, Dsl>)
    requires Represents(t, up) && Represents(t', up)
    ensures forall k | k in t :: k in t' && t'[k] == t[k]
  {
    hide Routes;
    forall k | k in t ensures k in t' && t'[k] == t[k] {
      var f := t[k].flowID;
      assert f in up && k in Routes(f, up[f]);
    }
  }

  lemma {:induction false} RoutesHas(f: string, dsl: Dsl, items: seq<Item>, i: int)
    requires Parses(items) && 0 <= i < |items|
    ensures KeyOf(items[i]) in RoutesOf(f, dsl, items)
    decreases |items|
  {
    if i > 0 {
      assert items[1..][i - 1] == items[i];
      assert Parses(items[1..]);
      RoutesHas(f, dsl, items[1..], i - 1);
    }
  }

  lemma RepresentsPut(t: map<RouteKey, Target>, t': map<RouteKey, Target>, up: map<string, Dsl>, f: string, dsl: Dsl)
    requires Represents(t, up)
    requires t' == WithoutFlow(t, f) + Routes(f, dsl) && WithoutFlow(t', f) == WithoutFlow(t, f)
    ensures Represents(t', up[f := dsl])
  {
    hide Routes;
    var up' := up[f := dsl];
    forall k | k in t'
      ensures var g := t'[k].flowID; g in up' && k in Routes(g, up'[g]) && Routes(g, up'[g])[k] == t'[k] {
      if k in Routes(f, dsl) {
        OwnerOfRoutes(f, dsl, k);
      } else {
        assert k in WithoutFlow(t, f) && t'[k] == t[k];
      }
    }
    forall g, k | g in up' && k in Routes(g, up'[g]) ensures k in t' && t'[k] == Routes(g, up'[g])[k] {
      if g != f {
        OwnerOfRoutes(g, up[g], k);
        assert k in WithoutFlow(t, f);
        assert k in WithoutFlow(t', f) && WithoutFlow(t', f)[k] == t[k];
      }
    }
  }

  lemma OwnerOfRoutes(f: string, dsl: Dsl, k: RouteKey)
    requires k in Routes(f, dsl)
    ensures Routes(f, dsl)[k].flowID == f
  {
    RoutesOwner(f, dsl, Items(dsl.nodes), k);
  }

  lemma RepresentsDrop(t: map<RouteKey, Target>, up: map<string, Dsl>, f: string)
    requires Represents(t, up)
    ensures Represents(WithoutFlow(t, f), up - {f})
  {
    hide Routes;
    forall g, k | g in up - {f} && k in Routes(g, up[g]) ensures k in WithoutFlow(t, f) {
      OwnerOfRoutes(g, up[g], k);
    }
  }

  // ---- agreement between a set of DSLs and the listeners that serve it ----

  /** Listeners run in the modes that the mounted DSLs ask for. */
  ghost predicate Served(s: State, up: map<string, Dsl>) {
    forall f, i | f in up && 0 <= i < |Items(up[f].nodes)| :: Serves(s, Items(up[f].nodes)[i])
  }

  ghost predicate AllParse(up: map<string, Dsl>) {
    forall f | f in up :: Parses(Items(up[f].nodes))
  }

  /** The table shows exactly the mounted DSLs, all of which parse. */
  ghost predicate Mounts(s: State, up: map<string, Dsl>) {
    && Inv(s)
    && "" !in up
    && AllParse(up)
    && Represents(Table(s), up)
    && Served(s, up)
  }

  /** The mounted set after a rebuild. */
  function UpAfter(up: map<string, Dsl>, f: string, published: Option<Dsl>, o: Outcome): map<string, Dsl> {
    if published.Some? && o.Mounted? then up[f := published.value] else up - {f}
  }

  lemma SyncServed(s: State, up: map<string, Dsl>, f: string, published: Option<Dsl>, env: nat -> Env)
    requires Mounts(s, up) && f != ""
    ensures var (s', o) := SyncFlow(s, f, published, env);
            forall g, i | g in up && g != f && 0 <= i < |Items(up[g].nodes)| :: Serves(s', Items(up[g].nodes)[i])
  {
    hide Items, RoutesOf, MountItems, RouteTable.RemoveFlow, Table;
    var s0 := RemoveFlow(s, f);
    var (s', o) := SyncFlow(s, f, published, env);
    RemoveFlowEffect(s, f);
    SyncEffect(s, f, published, env);
    if published.Some? {
      MountTls(s0, f, published.value, Items(published.value.nodes), env, 0);
    }
    forall g, i | g in up && g != f && 0 <= i < |Items(up[g].nodes)| ensures Serves(s', Items(up[g].nodes)[i]) {
      var items := Items(up[g].nodes);
      var k := KeyOf(items[i]);
      RoutesHas(g, up[g], items, i);
      assert k in Routes(g, up[g]);
      OwnerOfRoutes(g, up[g], k);
      assert k in Table(s) && Table(s)[k].flowID == g;
      assert k in WithoutFlow(Table(s), f);
      assert k in WithoutFlow(Table(s'), f);
      TableAt(s0, k);
      TableAt(s', k);
      assert Serves(s, items[i]);
    }
  }

  /** Rebuilding one flow keeps the table equal to the mounted set, whatever the environment does. */
  lemma SyncMounts(s: State, up: map<string, Dsl>, f: string, published: Option<Dsl>, env: nat -> Env)
    requires Mounts(s, up) && f != ""
    requires published.Some? ==> Parses(Items(published.value.nodes))
    ensures var (s', o) := SyncFlow(s, f, published, env);
            !o.BadConfig? && Mounts(s', UpAfter(up, f, published, o))
  {
    hide Items, RoutesOf, MountItems, RouteTable.RemoveFlow, Table, Inv, Represents, Parses;
    var (s', o) := SyncFlow(s, f, published, env);
    SyncEffect(s, f, published, env);
    SyncServed(s, up, f, published, env);
    if published.Some? && o.Mounted? {
      RepresentsPut(Table(s), Table(s'), up, f, published.value);
      MountTls(RouteTable.RemoveFlow(s, f), f, published.value, Items(published.value.nodes), env, 0) by {
        RemoveFlowEffect(s, f);
      }
    } else {
      RepresentsDrop(Table(s), up, f);
    }
  }

  // ---- conflict-free sets ----

  ghost predicate Compatible(a: seq<Item>, b: seq<Item>) {
    forall i, j | 0 <= i < |a| && 0 <= j < |b| && a[i].RouteItem? && b[j].RouteItem? ::
      KeyOf(a[i]) != KeyOf(b[j]) && SameMode(a[i], b[j])
  }

  /** No two DSLs of the set want the same pattern, or the same address in different modes. */
  ghost predicate Clean(up: map<string, Dsl>) {
    && (forall f | f in up :: TlsAgree(Items(up[f].nodes)))
    && (forall f, g | f in up && g in up && f != g :: Compatible(Items(up[f].nodes), Items(up[g].nodes)))
  }

  lemma CompatibleFits(s: State, up: map<string, Dsl>, f: string, req: Request, items: seq<Item>, i: int)
    requires Mounts(s, up)
    requires 0 <= i < |items| && items[i].RouteItem? && items[i].req == req
    requires forall g | g in up && g != f :: Compatible(items, Items(up[g].nodes))
    ensures FitsBeside(s, f, req)
  {
    hide Items, RoutesOf, Inv, Table;
    var a := req.addr;
    forall p | p in RoutesAt(s, a) && RoutesAt(s, a)[p].flowID != f
      ensures p != req.pattern && s.byAddr[a].https == req.https && s.byAddr[a].fp == req.fp
    {
      var k := RouteKey(a, p);
      TableAt(s, k);
      var g := Table(s)[k].flowID;
      assert g in up && k in Routes(g, up[g]);
      RoutesOwner(g, up[g], Items(up[g].nodes), k);
      var j :| 0 <= j < |Items(up[g].nodes)| && Items(up[g].nodes)[j].RouteItem? && KeyOf(Items(up[g].nodes)[j]) == k;
      assert Serves(s, Items(up[g].nodes)[j]);
      assert Compatible(items, Items(up[g].nodes));
      assert SameMode(items[i], Items(up[g].nodes)[j]);
    }
  }

  lemma FitsCompatible(s: State, up: map<string, Dsl>, f: string, items: seq<Item>, g: string)
    requires Mounts(s, up) && g in up && g != f
    requires FitsAllBeside(s, f, items)
    ensures Compatible(items, Items(up[g].nodes)) && Compatible(Items(up[g].nodes), items)
  {
    hide Items, RoutesOf, Inv, Table;
    var theirs := Items(up[g].nodes);
    forall i, j | 0 <= i < |items| && 0 <= j < |theirs| && items[i].RouteItem? && theirs[j].RouteItem?
      ensures KeyOf(items[i]) != KeyOf(theirs[j]) && SameMode(items[i], theirs[j]) && SameMode(theirs[j], items[i])
    {
      var k := KeyOf(theirs[j]);
      RoutesHas(g, up[g], theirs, j);
      assert k in Routes(g, up[g]);
      OwnerOfRoutes(g, up[g], k);
      TableAt(s, k);
      assert Serves(s, theirs[j]);
      assert FitsBeside(s, f, items[i].req);
      if items[i].req.addr == k.addr {
        assert k.pattern in RoutesAt(s, k.addr) && RoutesAt(s, k.addr)[k.pattern].flowID == g;
      }
    }
  }

  /**
   * Beside a conflict-free mounted set, a DSL's requests fit if and only if the set stays
   * conflict-free with the DSL in place of the flow's current one.
   */
  lemma FitsIffClean(s: State, up: map<string, Dsl>, f: string, dsl: Dsl)
    requires Mounts(s, up) && Clean(up - {f})
    ensures FitsAllBeside(s, f, Items(dsl.nodes)) <==> Clean(up[f := dsl])
  {
    hide Items, Mounts, FitsBeside, Compatible;
    var items := Items(dsl.nodes);
    var up' := up[f := dsl];
    if FitsAllBeside(s, f, items) {
      forall g, h | g in up' && h in up' && g != h ensures Compatible(Items(up'[g].nodes), Items(up'[h].nodes)) {
        if g == f {
          FitsCompatible(s, up, f, items, h);
        } else if h == f {
          FitsCompatible(s, up, f, items, g);
        } else {
          assert g in up - {f} && h in up - {f};
        }
      }
      forall g | g in up' ensures TlsAgree(Items(up'[g].nodes)) {
        assert g != f ==> g in up - {f};
      }
    }
    if Clean(up') {
      forall i | 0 <= i < |items| && items[i].RouteItem? ensures FitsBeside(s, f, items[i].req) {
        forall g | g in up && g != f ensures Compatible(items, Items(up[g].nodes)) {
          assert f in up' && g in up' && up'[g] == up[g];
        }
        CompatibleFits(s, up, f, items[i].req, items, i);
      }
      assert f in up';
    }
  }

  /** In a working environment a rebuild that keeps the set conflict-free succeeds. */
  lemma SyncClean(s: State, up: map<string, Dsl>, f: string, dsl: Dsl, env: nat -> Env)
    requires Mounts(s, up) && f != "" && Clean(up[f := dsl]) && Parses(Items(dsl.nodes)) && AlwaysWorks(env)
    ensures var (s', o) := SyncFlow(s, f, Some(dsl), env);
            o.Mounted? && Mounts(s', up[f := dsl])
  {
    hide Items, SyncFlow, Compatible, TlsAgree, Inv, Represents, Served, AllParse, FitsAllBeside, Parses;
    CleanWithout(up, f, dsl);
    FitsIffClean(s, up, f, dsl);
    SyncExact(s, f, dsl, env);
    SyncMounts(s, up, f, Some(dsl), env);
  }

  lemma CleanWithout(up: map<string, Dsl>, f: string, dsl: Dsl)
    requires Clean(up[f := dsl])
    ensures Clean(up - {f})
  {
    forall g | g in up - {f} ensures TlsAgree(Items(up[g].nodes)) {
      assert up[f := dsl][g] == up[g];
    }
    forall g, h | g in up - {f} && h in up - {f} && g != h ensures Compatible(Items(up[g].nodes), Items(up[h].nodes)) {
      assert up[f := dsl][g] == up[g] && up[f := dsl][h] == up[h];
    }
  }

  // ---- starting up ----

  datatype Listed = Listed(id: string, published: Option<Dsl>)

  /** Rebuild every listed flow that has a published DSL, logging failures and going on. */
  function StartAll(s: State, list: seq<Listed>, envs: string -> nat -> Env): State
    decreases |list|
  {
    if list == [] then s
    else if list[0].published.None? then StartAll(s, list[1..], envs)
    else StartAll(SyncFlow(s, list[0].id, list[0].published, envs(list[0].id)).0, list[1..], envs)
  }

  /** The mounted set that `StartAll` leaves. */
  function StartedUp(s: State, up: map<string, Dsl>, list: seq<Listed>, envs: string -> nat -> Env): map<string, Dsl>
    decreases |list|
  {
    if list == [] then up
    else if list[0].published.None? then StartedUp(s, up, list[1..], envs)
    else
      var (s1, o) := SyncFlow(s, list[0].id, list[0].published, envs(list[0].id));
      StartedUp(s1, UpAfter(up, list[0].id, list[0].published, o), list[1..], envs)
  }

  ghost predicate ListParses(list: seq<Listed>) {
    forall i | 0 <= i < |list| && list[i].published.Some? ::
        list[i].id != "" && Parses(Items(list[i].published.value.nodes))
  }

  lemma {:induction false} StartMounts(s: State, up: map<string, Dsl>, list: seq<Listed>, envs: string -> nat -> Env)
    requires Mounts(s, up) && ListParses(list)
    ensures Mounts(StartAll(s, list, envs), StartedUp(s, up, list, envs))
    ensures forall f | f in StartedUp(s, up, list, envs) ::
              || (f in up && up[f] == StartedUp(s, up, list, envs)[f])
              || Listed(f, Some(StartedUp(s, up, list, envs)[f])) in list
    decreases |list|
  {
    hide SyncFlow, Mounts, Parses, Items;
    if list != [] {
      if list[0].published.Some? {
        SyncMounts(s, up, list[0].id, list[0].published, envs(list[0].id));
        var (s1, o) := SyncFlow(s, list[0].id, list[0].published, envs(list[0].id));
        StartMounts(s1, UpAfter(up, list[0].id, list[0].published, o), list[1..], envs);
      } else {
        StartMounts(s, up, list[1..], envs);
      }
    }
  }

  /** `list` names every flow once, in some order, with the published DSL `pub` gives it, if any. */
  ghost predicate Lists(list: seq<Listed>, pub: map<string, Dsl>) {
    && (forall i, j | 0 <= i < j < |list| :: list[i].id != list[j].id)
    && (forall i | 0 <= i < |list| :: list[i].published ==
          if list[i].id in pub then Some(pub[list[i].id]) else None)
    && (forall f | f in pub :: exists i :: 0 <= i < |list| && list[i].id == f)
  }

  ghost predicate EnvsWork(envs: string -> nat -> Env) {
    forall f :: AlwaysWorks(envs(f))
  }

  ghost function Union(up: map<string, Dsl>, list: seq<Listed>): map<string, Dsl>
    decreases |list|
  {
    if list == [] then up
    else if list[0].published.None? then Union(up, list[1..])
    else Union(up[list[0].id := list[0].published.value], list[1..])
  }

  lemma {:induction false} CleanBelow(up: map<string, Dsl>, list: seq<Listed>)
    requires Clean(Union(up, list))
    requires forall i, j | 0 <= i < j < |list| :: list[i].id != list[j].id
    requires forall i | 0 <= i < |list| :: list[i].id !in up
    ensures up.Keys <= Union(up, list).Keys && forall f | f in up :: Union(up, list)[f] == up[f]
    ensures Clean(up)
    decreases |list|
  {
    hide Clean;
    if list != [] {
      if list[0].published.Some? {
        var up1 := up[list[0].id := list[0].published.value];
        CleanBelow(up1, list[1..]);
        CleanWithout(up, list[0].id, list[0].published.value);
        assert up - {list[0].id} == up;
      } else {
        CleanBelow(up, list[1..]);
      }
    }
  }

  lemma {:induction false} StartClean(s: State, up: map<string, Dsl>, list: seq<Listed>, envs: string -> nat -> Env)
    requires Mounts(s, up) && ListParses(list) && EnvsWork(envs)
    requires forall i, j | 0 <= i < j < |list| :: list[i].id != list[j].id
    requires forall i | 0 <= i < |list| :: list[i].id !in up
    requires Clean(Union(up, list))
    ensures StartedUp(s, up, list, envs) == Union(up, list)
    decreases |list|
  {
    hide SyncFlow, Mounts, Parses, Items, Clean, AlwaysWorks;
    if list != [] {
      if list[0].published.Some? {
        var up1 := up[list[0].id := list[0].published.value];
        CleanBelow(up1, list[1..]);
        SyncClean(s, up, list[0].id, list[0].published.value, envs(list[0].id));
        var (s1, o) := SyncFlow(s, list[0].id, list[0].published, envs(list[0].id));
        StartClean(s1, up1, list[1..], envs);
      } else {
        StartClean(s, up, list[1..], envs);
      }
    }
  }

  lemma {:induction false} UnionIs(up: map<string, Dsl>, list: seq<Listed>, f: string)
    requires forall i, j | 0 <= i < j < |list| :: list[i].id != list[j].id
    ensures f in Union(up, list) <==>
              f in up || exists i :: 0 <= i < |list| && list[i].id == f && list[i].published.Some?
    ensures forall i | 0 <= i < |list| && list[i].id == f && list[i].published.Some? ::
        Union(up, list)[f] == list[i].published.value
    ensures (f in up && forall i | 0 <= i < |list| && list[i].published.Some? :: list[i].id != f) ==>
              Union(up, list)[f] == up[f]
    decreases |list|
  {
    if list != [] {
      var up1 := if list[0].published.None? then up else up[list[0].id := list[0].published.value];
      UnionIs(up1, list[1..], f);
      assert forall i | 0 < i < |list| :: list[i] == list[1..][i - 1];
      if exists i :: 0 <= i < |list| && list[i].id == f && list[i].published.Some? {
        var i :| 0 <= i < |list| && list[i].id == f && list[i].published.Some?;
        if i > 0 {
          assert list[1..][i - 1].id == f;
        }
      }
    }
  }

  lemma UnionOfList(list: seq<Listed>, pub: map<string, Dsl>)
    requires Lists(list, pub)
    ensures Union(map[], list) == pub
  {
    forall f ensures f in Union(map[], list) <==> f in pub
             ensures f in pub ==> Union(map[], list)[f] == pub[f] {
      UnionIs(map[], list, f);
      if f in pub {
        var i :| 0 <= i < |list| && list[i].id == f;
        assert list[i].published == Some(pub[f]);
      }
    }
  }

  /**
   * A restart of a conflict-free published set mounts exactly that set, in whatever order the
   * flows are listed.
   */
  lemma StartAllRepresents(list: seq<Listed>, pub: map<string, Dsl>, envs: string -> nat -> Env)
    requires Lists(list, pub) && Clean(pub) && AllParse(pub) && "" !in pub && EnvsWork(envs)
    ensures Mounts(StartAll(Empty, list, envs), pub)
  {
    hide Represents, Clean, AllParse, StartAll, Table, ListParses, Mounts, Union, StartedUp, EnvsWork;
    EmptyMounts();
    ListedParses(list, pub);
    UnionOfList(list, pub);
    StartMounts(Empty, map[], list, envs);
    StartClean(Empty, map[], list, envs);
  }

  lemma ListedParses(list: seq<Listed>, pub: map<string, Dsl>)
    requires Lists(list, pub) && AllParse(pub) && "" !in pub
    ensures ListParses(list)
  {
    hide Parses, Items;
  }

  lemma EmptyMounts()
    ensures Mounts(Empty, map[])
  {
    assert Table(Empty) == map[];
  }

  /**
   * Order independence: two restarts, and any running manager that mounts the same published set
   * however it got there, have the same routing function.
   */
  lemma StartAllOrderFree(list: seq<Listed>, list': seq<Listed>, pub: map<string, Dsl>,
                          envs: string -> nat -> Env, running: State)
    requires Lists(list, pub) && Lists(list', pub) && Clean(pub) && AllParse(pub) && "" !in pub && EnvsWork(envs)
    requires Mounts(running, pub)
    ensures Table(StartAll(Empty, list, envs)) == Table(StartAll(Empty, list', envs)) == Table(running)
  {
    hide StartAll, Table, Represents;
    StartAllRepresents(list, pub, envs);
    StartAllRepresents(list', pub, envs);
    RepresentsUnique(Table(StartAll(Empty, list, envs)), Table(StartAll(Empty, list', envs)), pub);
    RepresentsUnique(Table(StartAll(Empty, list, envs)), Table(running), pub);
  }
}
