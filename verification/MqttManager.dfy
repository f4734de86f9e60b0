/**
 * The MQTT endpoint manager as it is written: the client ledger and the editor sessions of one
 * object. Ledger methods are proved against the values of `MqttLedger`; the session methods are
 * proved for a call that runs without interruption, and `DraftProtocol` treats interleaved calls.
 */
module MqttManager {
  import opened Prelude
  import opened FlowDsl
  import opened FlowDocs
  import opened MqttKeys
  import opened MqttLedger
  import opened MqttTracks
  import opened MqttMounts
  import opened Sessions
  import MqttRuns
  import Restart

  // ---- drafts as a part of the table of handles ----

  /** All handles but the drafts of some flows. */
  ghost function Without(m: map<string, Handle>, flows: set<string>): map<string, Handle> {
    map key | key in m && (m[key].track != DRAFT || m[key].flowID !in flows) :: m[key]
  }

  /** All handles but the drafts of flows that nobody has open. */
  ghost function OpenDrafts(m: map<string, Handle>, sessions: map<string, set<string>>): map<string, Handle> {
    map key | key in m && (m[key].track != DRAFT || Openers(sessions, m[key].flowID) != {}) :: m[key]
  }

  /** The draft nodes a flow is to have when an editor opens it: those of its draft, if it can go up and is not live. */
  ghost function DraftWanted(d: FlowDoc, f: string, dials: nat -> Dial): set<string> {
    if d.published.None? && d.draft.Some? && Mountable(DRAFT, d.draft.value, dials)
    then Wanted(DRAFT, d.draft.value) else {}
  }

  lemma WithoutOne(m: map<string, Handle>, flows: set<string>, f: string)
    ensures OffTrack(Without(m, flows), DRAFT, f) == Without(m, flows + {f})
  {
  }

  lemma WithoutNobody(l: Ledger, m: map<string, Handle>, flows: set<string>)
    requires Core(l) && l.byNode == Without(m, flows)
    ensures Without(m, flows + {""}) == Without(m, flows)
  {
    hide Accounted;
    forall key | key in Without(m, flows) ensures m[key].flowID != "" {
      assert Filed(l, key);
    }
  }

  lemma WithoutSame(m: map<string, Handle>, m': map<string, Handle>, f: string, flows: set<string>)
    requires OffTrack(m', DRAFT, f) == OffTrack(m, DRAFT, f) && f in flows
    ensures Without(m', flows) == Without(m, flows)
  {
    forall key ensures key in Without(m', flows) <==> key in Without(m, flows)
               ensures key in Without(m', flows) ==> m'[key] == m[key] {
      assert key in OffTrack(m', DRAFT, f) <==> key in OffTrack(m, DRAFT, f);
    }
  }

  /** Dropping the drafts of closed flows first changes nothing about what a sweep leaves. */
  lemma SweptAfter(m: map<string, Handle>, flows: set<string>, sessions: map<string, set<string>>)
    requires forall f | f in flows :: Openers(sessions, f) == {}
    ensures OpenDrafts(Without(m, flows), sessions) == OpenDrafts(m, sessions)
  {
    hide Openers;
  }

  lemma SweptBeside(m: map<string, Handle>, m': map<string, Handle>, flows: set<string>,
                    sessions: map<string, set<string>>)
    requires Without(m', flows) == Without(m, flows)
    ensures Without(OpenDrafts(m', sessions), flows) == Without(OpenDrafts(m, sessions), flows)
  {
    hide Openers;
    forall key
      ensures key in Without(OpenDrafts(m', sessions), flows) <==> key in Without(OpenDrafts(m, sessions), flows)
      ensures key in Without(OpenDrafts(m', sessions), flows) ==> m'[key] == m[key]
    {
      assert key in Without(m', flows) <==> key in Without(m, flows);
    }
  }

  /** A sweep leaves the draft nodes of an open flow alone. */
  lemma SweptNodes(m: map<string, Handle>, f: string, sessions: map<string, set<string>>)
    requires Openers(sessions, f) != {}
    ensures TrackNodes(OpenDrafts(m, sessions), DRAFT, f) == TrackNodes(m, DRAFT, f)
  {
    hide Openers;
    forall n | n in TrackNodes(m, DRAFT, f) ensures n in TrackNodes(OpenDrafts(m, sessions), DRAFT, f) {
      var key :| key in m && OnTrack(m[key], DRAFT, f) && m[key].nodeID == n;
      assert key in OpenDrafts(m, sessions);
    }
  }

  class Manager {
    var byNode: map<string, Handle>
    var byFlow: map<string, seq<string>>
    // the broker's side
    var connected: set<nat>
    var dialed: nat
    var closed: seq<nat>
    // editor sessions
    var sessions: map<string, set<string>>
    var openCount: map<string, int>

    constructor ()
      ensures View() == NoClients && Valid() && sessions == map[]
    {
      byNode, byFlow, connected, dialed, closed := map[], map[], {}, 0, [];
      sessions, openCount := map[], map[];
    }

    ghost function View(): Ledger
      reads `byNode, `byFlow, `connected, `dialed, `closed
    {
      Ledger(byNode, byFlow, connected, dialed, closed)
    }

    ghost predicate Valid()
      reads this
    {
      Core(View()) && CountsExact(sessions, openCount)
    }

    // ---- the ledger ----

    method Connect() returns (client: nat)
      modifies `connected, `dialed
      ensures View() == Dialed(old(View())) && client == old(dialed)
    {
      client := dialed;
      connected := connected + {client};
      dialed := dialed + 1;
    }

    method Disconnect(client: nat)
      modifies `connected, `closed
      ensures View() == HungUp(old(View()), client)
    {
      connected := connected - {client};
      closed := closed + [client];
    }

    method RegisterLocked(h: Handle)
      modifies `byNode, `byFlow
      ensures View() == Register(old(View()), h)
    {
      var key := NodeKey(h.track, h.flowID, h.nodeID);
      byNode := byNode[key := h];
      var fk := FlowKey(h.track, h.flowID);
      byFlow := byFlow[fk := (if fk in byFlow then byFlow[fk] else []) + [key]];
    }

    method StopLocked(h: Handle)
      modifies `connected, `closed
      ensures View() == if h.owned then HungUp(old(View()), h.client) else old(View())
    {
      if h.owned {
        Disconnect(h.client);
      }
    }

    method RemoveTrack(track: string, f: string)
      modifies `byNode, `byFlow, `connected, `closed
      ensures View() == MqttLedger.RemoveTrack(old(View()), track, f)
    {
      hide NodeKey, FlowKey, Stop;
      if f == "" {
        return;
      }
      ghost var l := View();
      var fk := FlowKey(track, f);
      var keys := if fk in byFlow then byFlow[fk] else [];
      byFlow := byFlow - {fk};
      StopKeys(keys);
    }

    method StopKeys(keys: seq<string>)
      modifies `byNode, `connected, `closed
      ensures View() == StopAll(old(View()), keys)
    {
      var i := 0;
      assert keys[0..] == keys;
      while i < |keys|
        invariant 0 <= i <= |keys|
        invariant StopAll(View(), keys[i..]) == StopAll(old(View()), keys)
      {
        assert keys[i..][0] == keys[i] && keys[i..][1..] == keys[i + 1..];
        if keys[i] in byNode {
          StopLocked(byNode[keys[i]]);
          byNode := byNode - {keys[i]};
        }
        i := i + 1;
      }
    }

    method AddIn(track: string, f: string, n: string, cfg: InConfig, dial: Dial) returns (ok: bool)
      modifies `byNode, `byFlow, `connected, `dialed, `closed
      ensures (View(), ok) == MqttLedger.AddIn(old(View()), track, f, n, cfg, dial)
    {
      if dial == Refuses {
        return false;
      }
      var client := Connect();
      if dial == SubscribeFails {
        Disconnect(client);
        return false;
      }
      RegisterLocked(Handle(track, f, n, In, client, cfg.topic, true, ""));
      return true;
    }

    method AddOut(track: string, f: string, n: string, cfg: OutConfig, dial: Dial) returns (ok: bool)
      modifies `byNode, `byFlow, `connected, `dialed
      ensures (View(), ok) == MqttLedger.AddOut(old(View()), track, f, n, cfg, dial)
    {
      if cfg.reuseFrom != "" {
        var key := NodeKey(track, f, cfg.reuseFrom);
        if key !in byNode || byNode[key].kind != In {
          return false;
        }
        RegisterLocked(Handle(track, f, n, OutReuse, byNode[key].client, "", false, cfg.reuseFrom));
        return true;
      }
      if !cfg.persistent {
        return true;
      }
      if dial == Refuses {
        return false;
      }
      var client := Connect();
      RegisterLocked(Handle(track, f, n, OutPersistent, client, "", true, ""));
      return true;
    }

    lemma FoldStep(p: Progress, track: string, f: string, acts: seq<Act>, i: nat, dials: nat -> Dial)
      requires i < |acts| && p.ok
      ensures Fold(p, track, f, acts[i..], dials)
          == Fold(Step(p, track, f, acts[i], dials), track, f, acts[i + 1..], dials)
    {
      assert acts[i..][0] == acts[i] && acts[i..][1..] == acts[i + 1..];
    }

    lemma FoldFailed(p: Progress, track: string, f: string, acts: seq<Act>, dials: nat -> Dial)
      requires !p.ok
      ensures Fold(p, track, f, acts, dials) == p
    {
    }

    /** Connect the receivers of a track, in the order of the DSL. */
    method AddReceivers(track: string, f: string, nodes: seq<Node>, dials: nat -> Dial)
      returns (ok: bool, n: nat, active: set<string>)
      modifies `byNode, `byFlow, `connected, `dialed, `closed
      ensures Fold(Progress(old(View()), 0, {}, true), track, f, Acts(nodes), dials) ==
              if ok then Fold(Progress(View(), n, active, true), track, f, Acts(nodes)[|nodes|..], dials)
              else Progress(View(), n, active, false)
    {
      hide Fold, MqttLedger.AddIn, MqttLedger.AddOut;
      ghost var p0 := Progress(View(), 0, {}, true);
      ghost var acts := Acts(nodes);
      n, active := 0, {};
      var i := 0;
      assert acts[0..] == acts;
      while i < |nodes|
        invariant 0 <= i <= |nodes|
        invariant Fold(p0, track, f, acts, dials) == Fold(Progress(View(), n, active, true), track, f, acts[i..], dials)
      {
        var node := nodes[i];
        ghost var p := Progress(View(), n, active, true);
        assert acts[i] == Act(false, node);
        FoldStep(p, track, f, acts, i, dials);
        if node.MqttInNode? {
          if node.inCfg.None? {
            FoldFailed(p.(ok := false), track, f, acts[i + 1..], dials);
            return false, n, active;
          }
          var cfg := node.inCfg.value;
          if !(track == DRAFT && !cfg.connectAndRespond) {
            var added := AddIn(track, f, node.id, cfg, dials(n));
            n := n + 1;
            if !added {
              FoldFailed(Progress(View(), n, active, false), track, f, acts[i + 1..], dials);
              return false, n, active;
            }
            active := active + {node.id};
          }
        }
        i := i + 1;
      }
      return true, n, active;
    }

    /** Connect the managed senders of a track, after its receivers. */
    method AddSenders(track: string, f: string, nodes: seq<Node>, dials: nat -> Dial, n0: nat, active: set<string>)
      returns (ok: bool)
      modifies `byNode, `byFlow, `connected, `dialed
      ensures var p := Fold(Progress(old(View()), n0, active, true), track, f, Acts(nodes)[|nodes|..], dials);
              p.l == View() && p.ok == ok
    {
      hide Fold, MqttLedger.AddIn, MqttLedger.AddOut;
      ghost var p0 := Progress(View(), n0, active, true);
      ghost var acts := Acts(nodes)[|nodes|..];
      var n, i := n0, 0;
      assert acts[0..] == acts;
      while i < |nodes|
        invariant 0 <= i <= |nodes| == |acts|
        invariant Fold(p0, track, f, acts, dials) == Fold(Progress(View(), n, active, true), track, f, acts[i..], dials)
      {
        var node := nodes[i];
        ghost var p := Progress(View(), n, active, true);
        assert acts[i] == Act(true, node);
        FoldStep(p, track, f, acts, i, dials);
        if node.MqttOutNode? {
          if node.outCfg.None? {
            FoldFailed(p.(ok := false), track, f, acts[i + 1..], dials);
            return false;
          }
          var cfg := node.outCfg.value;
          if cfg.managed && !(track == DRAFT && cfg.reuseFrom != "" && cfg.reuseFrom !in active) {
            var added := AddOut(track, f, node.id, cfg, dials(n));
            n := n + 1;
            if !added {
              FoldFailed(Progress(View(), n, active, false), track, f, acts[i + 1..], dials);
              return false;
            }
          }
        }
        i := i + 1;
      }
      FoldDone(Progress(View(), n, active, true), track, f, dials);
      assert acts[i..] == [];
      return true;
    }

    lemma FoldDone(p: Progress, track: string, f: string, dials: nat -> Dial)
      ensures Fold(p, track, f, [], dials) == p
    {
    }

    /** Rebuild one track; on a failure everything it had added is released. */
    method SyncTrack(track: string, f: string, dsl: Dsl, dials: nat -> Dial) returns (ok: bool)
      modifies `byNode, `byFlow, `connected, `dialed, `closed
      ensures (View(), ok) == MqttLedger.SyncTrack(old(View()), track, f, dsl, dials)
    {
      hide Fold, Acts, MqttLedger.RemoveTrack;
      RemoveTrack(track, f);
      var n, active;
      ok, n, active := AddReceivers(track, f, dsl.nodes, dials);
      if ok {
        ok := AddSenders(track, f, dsl.nodes, dials, n, active);
      }
      if !ok {
        RemoveTrack(track, f);
      }
    }

    /** Rebuild the published track, clearing the draft track first. */
    method SyncFlow(f: string, published: Option<Dsl>, dials: nat -> Dial) returns (ok: bool)
      modifies `byNode, `byFlow, `connected, `dialed, `closed
      ensures (View(), ok) == MqttLedger.SyncFlow(old(View()), f, published, dials)
    {
      hide MqttLedger.SyncTrack, MqttLedger.RemoveTrack;
      RemoveTrack(DRAFT, f);
      if published.None? {
        RemoveTrack(PUBLISHED, f);
        return true;
      }
      ok := SyncTrack(PUBLISHED, f, published.value, dials);
    }

    method IsDraftOpen(f: string) returns (open: bool)
      requires CountsExact(sessions, openCount)
      ensures open <==> f != "" && Openers(sessions, f) != {}
    {
      if f == "" {
        return false;
      }
      CountsPositive(sessions, openCount);
      return f in openCount && openCount[f] > 0;
    }

    /** Mount the draft of an unpublished flow that an editor has open; otherwise release it. */
    method SyncDraft(f: string, published: Option<Dsl>, draft: Option<Dsl>, dials: nat -> Dial) returns (ok: bool)
      requires CountsExact(sessions, openCount)
      modifies `byNode, `byFlow, `connected, `dialed, `closed
      ensures (View(), ok) ==
              MqttLedger.SyncDraft(old(View()), f, f != "" && Openers(sessions, f) != {}, published, draft, dials)
    {
      hide MqttLedger.SyncTrack, MqttLedger.RemoveTrack, Core, CountsExact;
      var open := IsDraftOpen(f);
      if !open || published.Some? || draft.None? {
        RemoveTrack(DRAFT, f);
        return true;
      }
      ok := SyncTrack(DRAFT, f, draft.value, dials);
    }

    method SyncDraftIfOpen(f: string, published: Option<Dsl>, draft: Option<Dsl>, dials: nat -> Dial) returns (ok: bool)
      requires CountsExact(sessions, openCount)
      modifies `byNode, `byFlow, `connected, `dialed, `closed
      ensures (View(), ok) ==
              MqttLedger.SyncDraft(old(View()), f, f != "" && Openers(sessions, f) != {}, published, draft, dials)
    {
      hide MqttLedger.SyncTrack, MqttLedger.RemoveTrack, Core, CountsExact;
      var open := IsDraftOpen(f);
      if !open {
        RemoveTrack(DRAFT, f);
        return true;
      }
      ok := SyncDraft(f, published, draft, dials);
    }

    method Publisher(f: string, n: string) returns (client: Option<nat>)
      ensures client == MqttLedger.Publisher(View(), f, n)
    {
      hide NodeKey;
      if f == "" || n == "" {
        return None;
      }
      if NodeKey(PUBLISHED, f, n) in byNode {
        return Some(byNode[NodeKey(PUBLISHED, f, n)].client);
      }
      if NodeKey(DRAFT, f, n) in byNode {
        return Some(byNode[NodeKey(DRAFT, f, n)].client);
      }
      return None;
    }

    /** Restore the published track of every published flow at start-up; a flow that fails is skipped. */
    method StartPublished(list: seq<Restart.Listed>, dials: string -> nat -> Dial)
      modifies `byNode, `byFlow, `connected, `dialed, `closed
      ensures View() == MqttRuns.StartAll(old(View()), list, dials)
    {
      hide MqttLedger.SyncFlow;
      var i := 0;
      assert list[0..] == list;
      while i < |list|
        invariant 0 <= i <= |list|
        invariant MqttRuns.StartAll(View(), list[i..], dials) == MqttRuns.StartAll(old(View()), list, dials)
      {
        assert list[i..][0] == list[i] && list[i..][1..] == list[i + 1..];
        if list[i].published.Some? {
          var logged := SyncFlow(list[i].id, list[i].published, dials(list[i].id));
        }
        i := i + 1;
      }
    }

    // ---- editor sessions ----

    /**
     * The part of a session update that runs under the session lock: counts stay exact, and the two
     * lists are exactly the flows whose open status changes.
     */
    method ReplaceSession(sid: string, wanted: seq<string>) returns (toClose: seq<string>, toOpen: seq<string>)
      requires Valid() && NoDup(wanted)
      modifies `sessions, `openCount
      ensures Valid() && sessions == old(sessions)[sid := Elements(wanted)]
      ensures forall f :: f in toClose <==> Openers(old(sessions), f) != {} && Openers(sessions, f) == {}
      ensures forall f :: f in toOpen <==> Openers(old(sessions), f) == {} && Openers(sessions, f) != {}
    {
      hide Core, Openers, CountsExact;
      ghost var was := sessions;
      var mine := if sid in sessions then sessions[sid] else {};
      var added, removed := DiffFlowSets(mine, wanted);
      ListsMembers(added);
      ListsMembers(removed);
      sessions := sessions[sid := Elements(wanted)];
      CountsPositive(was, openCount);
      var fewer := Decrement(openCount, removed);
      var next := Increment(fewer, added);
      ReplaceCounts(was, sid, Elements(wanted), mine, openCount, next, added, removed);
      openCount := next;
      toClose := SelectByCount(removed, 0);
      toOpen := SelectByCount(added, 1);
      ListsAreChanges(was, sid, Elements(wanted), mine, toClose, toOpen, added, removed);
    }

    lemma ListsMembers(ids: seq<string>)
      ensures forall f :: f in ids <==> f in Elements(ids)
    {
    }

    lemma CountHas(counts: map<string, int>, f: string)
      ensures f in counts ==> counts[f] == Count(counts, f)
    {
    }

    lemma ReplaceCounts(was: map<string, set<string>>, sid: string, wanted: set<string>, mine: set<string>,
                        counts: map<string, int>, next: map<string, int>, added: seq<string>, removed: seq<string>)
      requires CountsExact(was, counts) && mine == if sid in was then was[sid] else {}
      requires forall f :: f in added <==> f in wanted && f !in mine
      requires forall f :: f in removed <==> f in mine && f !in wanted
      requires forall f :: Count(next, f) == (if f in removed && f in counts then counts[f] - 1 else Count(counts, f))
                                             + (if f in added then 1 else 0)
      requires forall f | f in next :: next[f] > 0
      ensures CountsExact(was[sid := wanted], next)
    {
      hide Openers, Count;
      var now := was[sid := wanted];
      forall f
        ensures sid in Openers(was, f) <==> f in mine
        ensures sid in Openers(now, f) <==> f in wanted
        ensures Openers(now, f) == Openers(was, f) ||
                (f in mine && Openers(now, f) == Openers(was, f) - {sid}) ||
                (f !in mine && Openers(now, f) == Openers(was, f) + {sid})
        ensures f in mine ==> f in counts
        ensures Count(next, f) == Count(counts, f) + (if f in wanted then 1 else 0) - (if f in mine then 1 else 0)
      {
        OpenersAfter(was, sid, wanted, f);
        assert f in counts <==> Openers(was, f) != {};
        CountHas(counts, f);
      }
      CountsFollow(was, now, counts, next, sid);
    }

    /** The listed flows whose count is now `n`. */
    method SelectByCount(ids: seq<string>, n: int) returns (out: seq<string>)
      ensures forall f :: f in out <==> f in ids && Count(openCount, f) == n
    {
      out := [];
      var i := 0;
      while i < |ids|
        invariant 0 <= i <= |ids|
        invariant forall f :: f in out <==> f in ids[..i] && Count(openCount, f) == n
      {
        assert ids[..i + 1] == ids[..i] + [ids[i]];
        if Count(openCount, ids[i]) == n {
          out := out + [ids[i]];
        }
        i := i + 1;
      }
      assert ids[..i] == ids;
    }

    lemma ListsAreChanges(was: map<string, set<string>>, sid: string, wanted: set<string>, mine: set<string>,
                          toClose: seq<string>, toOpen: seq<string>, added: seq<string>, removed: seq<string>)
      requires CountsExact(sessions, openCount) && sessions == was[sid := wanted]
      requires mine == if sid in was then was[sid] else {}
      requires forall f :: f in added <==> f in wanted && f !in mine
      requires forall f :: f in removed <==> f in mine && f !in wanted
      requires forall f :: f in toClose <==> f in removed && Count(openCount, f) == 0
      requires forall f :: f in toOpen <==> f in added && Count(openCount, f) == 1
      ensures forall f :: f in toClose <==> Openers(was, f) != {} && Openers(sessions, f) == {}
      ensures forall f :: f in toOpen <==> Openers(was, f) == {} && Openers(sessions, f) != {}
    {
      forall f ensures f in toClose <==> Openers(was, f) != {} && Openers(sessions, f) == {}
               ensures f in toOpen <==> Openers(was, f) == {} && Openers(sessions, f) != {} {
        OpenersAfter(was, sid, wanted, f);
        assert Count(openCount, f) == |Openers(sessions, f)|;
        assert sid in Openers(was, f) <==> f in mine;
        if f in added {
          assert Openers(sessions, f) - {sid} == Openers(was, f);
          assert |Openers(sessions, f)| == |Openers(was, f)| + 1;
        }
      }
    }

    /** The locked part of a release. */
    method DropSession(sid: string) returns (toClose: seq<string>)
      requires Valid()
      modifies `sessions, `openCount
      ensures Valid() && sessions == old(sessions) - {sid}
      ensures forall f :: f in toClose <==> Openers(old(sessions), f) != {} && Openers(sessions, f) == {}
    {
      hide Core, Openers, CountsExact;
      ghost var was := sessions;
      var mine := if sid in sessions then sessions[sid] else {};
      var none, removed := DiffFlowSets(mine, []);
      ListsMembers(removed);
      sessions := sessions - {sid};
      CountsPositive(was, openCount);
      var next := Decrement(openCount, removed);
      DropCounts(was, sid, mine, openCount, next, removed);
      openCount := next;
      toClose := SelectByCount(removed, 0);
      DropsAreChanges(was, sid, mine, toClose, removed);
    }

    lemma DropCounts(was: map<string, set<string>>, sid: string, mine: set<string>,
                     counts: map<string, int>, next: map<string, int>, removed: seq<string>)
      requires CountsExact(was, counts) && mine == if sid in was then was[sid] else {}
      requires forall f :: f in removed <==> f in mine
      requires forall f :: Count(next, f) == if f in removed && f in counts then counts[f] - 1 else Count(counts, f)
      requires forall f | f in next :: next[f] > 0
      ensures CountsExact(was - {sid}, next)
    {
      forall f ensures Openers(was - {sid}, f) == Openers(was, f) - {sid}
               ensures sid in Openers(was, f) <==> f in mine
               ensures f in mine ==> f in counts {
        OpenersWithout(was, sid, f);
        assert f in counts <==> Openers(was, f) != {};
      }
      CountsFollow(was, was - {sid}, counts, next, sid);
    }

    lemma DropsAreChanges(was: map<string, set<string>>, sid: string, mine: set<string>, toClose: seq<string>,
        removed: seq<string>)
      requires CountsExact(sessions, openCount) && sessions == was - {sid}
      requires mine == if sid in was then was[sid] else {}
      requires forall f :: f in removed <==> f in mine
      requires forall f :: f in toClose <==> f in removed && Count(openCount, f) == 0
      ensures forall f :: f in toClose <==> Openers(was, f) != {} && Openers(sessions, f) == {}
    {
      forall f ensures f in toClose <==> Openers(was, f) != {} && Openers(sessions, f) == {} {
        OpenersWithout(was, sid, f);
        assert Count(openCount, f) == |Openers(sessions, f)|;
        assert sid in Openers(was, f) <==> f in mine;
      }
    }

    method RemoveDrafts(ids: seq<string>)
      requires Valid()
      modifies `byNode, `byFlow, `connected, `closed
      ensures Valid() && byNode == Without(old(byNode), Elements(ids))
    {
      hide Core, CountsExact, MqttLedger.RemoveTrack, Leaked, Without, OffTrack;
      ghost var m := byNode;
      var i := 0;
      AllOfThem(m);
      while i < |ids|
        invariant 0 <= i <= |ids|
        invariant Valid() && byNode == Without(m, Elements(ids[..i]))
      {
        assert Elements(ids[..i + 1]) == Elements(ids[..i]) + {ids[i]};
        WithoutOne(m, Elements(ids[..i]), ids[i]);
        WithoutNobody(View(), m, Elements(ids[..i]));
        RemoveDraft(ids[i]);
        i := i + 1;
      }
      assert ids[..i] == ids;
    }

    lemma AllOfThem(m: map<string, Handle>)
      ensures Without(m, {}) == m && forall ids: seq<string> :: Elements(ids[..0]) == {}
    {
    }

    method RemoveDraft(f: string)
      requires Valid()
      modifies `byNode, `byFlow, `connected, `closed
      ensures Valid()
      ensures f != "" ==> byNode == OffTrack(old(byNode), DRAFT, f)
      ensures f == "" ==> byNode == old(byNode)
    {
      hide Core, CountsExact, Leaked, StopAll, FlowKey;
      if f != "" {
        RemoveTrackEffect(View(), DRAFT, f);
      }
      RemoveTrack(DRAFT, f);
    }

    /** The flows listed under a draft key, found by the prefix of the key. */
    method ListDrafts() returns (ids: set<string>)
      ensures forall f :: f in ids <==> FlowKey(DRAFT, f) in byFlow
    {
      hide NodeKey;
      ids := {};
      var prefix := DRAFT + "\0";
      var left := byFlow.Keys;
      while left != {}
        invariant left <= byFlow.Keys
        invariant forall f :: f in ids <==> FlowKey(DRAFT, f) in byFlow && FlowKey(DRAFT, f) !in left
        decreases left
      {
        var fk :| fk in left;
        if prefix <= fk {
          var id := fk[|prefix|..];
          assert fk == FlowKey(DRAFT, id);
          forall f ensures FlowKey(DRAFT, f) == fk <==> f == id {
            assert FlowKey(DRAFT, f)[|prefix|..] == f;
          }
          ids := ids + {id};
        } else {
          forall f ensures FlowKey(DRAFT, f) != fk {
            assert prefix <= FlowKey(DRAFT, f);
          }
        }
        left := left - {fk};
      }
    }

    /** Release the mounted drafts that no editor has open, and only those. */
    method CloseUnopenedDrafts()
      requires Valid()
      modifies `byNode, `byFlow, `connected, `closed
      ensures Valid() && byNode == OpenDrafts(old(byNode), sessions)
    {
      hide CountsExact, FlowKey, NodeKey, Accounted, OffTrack, NulFree, OpenDrafts;
      var ids := ListDrafts();
      forall key | key in byNode && byNode[key].track == DRAFT ensures byNode[key].flowID in ids {
        assert Filed(View(), key);
      }
      SweepDrafts(ids);
    }

    method SweepDrafts(ids: set<string>)
      requires Valid()
      requires forall key | key in byNode && byNode[key].track == DRAFT :: byNode[key].flowID in ids
      modifies `byNode, `byFlow, `connected, `closed
      ensures Valid() && byNode == OpenDrafts(old(byNode), sessions)
    {
      hide Core, CountsExact, Openers, OffTrack, Without;
      ghost var m := byNode;
      var left := ids;
      ghost var gone: set<string> := {};
      AllNamed(View());
      AllOfThem(m);
      while left != {}
        invariant Valid() && left <= ids && byNode == Without(m, gone)
        invariant forall f :: f in gone <==> f in ids - left && (f == "" || Openers(sessions, f) == {})
        decreases left
      {
        var id :| id in left;
        var open := IsDraftOpen(id);
        if !open {
          WithoutOne(m, gone, id);
          WithoutNobody(View(), m, gone);
          RemoveDraft(id);
          gone := gone + {id};
        }
        left := left - {id};
      }
      SweptAll(View(), m, ids, gone);
    }

    lemma SweptAll(l: Ledger, m: map<string, Handle>, ids: set<string>, gone: set<string>)
      requires l.byNode == Without(m, gone) && forall key | key in m :: m[key].flowID != ""
      requires forall key | key in m && m[key].track == DRAFT :: m[key].flowID in ids
      requires forall f :: f in gone <==> f in ids && (f == "" || Openers(sessions, f) == {})
      ensures l.byNode == OpenDrafts(m, sessions)
    {
      hide Openers;
    }

    lemma AllNamed(l: Ledger)
      requires Core(l)
      ensures forall key | key in l.byNode :: l.byNode[key].flowID != ""
    {
      hide Accounted;
      forall key | key in l.byNode ensures l.byNode[key].flowID != "" {
        assert Filed(l, key);
      }
    }

    /** Look a flow up in the store and rebuild its draft, as far as an editor has it open. */
    method SyncDraftByID(store: map<string, FlowDoc>, f: string, dials: nat -> Dial) returns (ok: bool)
      requires Valid() && NulFree(f) && f != ""
      modifies `byNode, `byFlow, `connected, `dialed, `closed
      ensures Valid() && OffTrack(byNode, DRAFT, f) == OffTrack(old(byNode), DRAFT, f)
      ensures TrackNodes(byNode, DRAFT, f) ==
              if f !in store then TrackNodes(old(byNode), DRAFT, f)
              else if Openers(sessions, f) == {} then {}
              else DraftWanted(store[f], f, dials)
    {
      hide Core, CountsExact, MqttLedger.RemoveTrack, MqttLedger.SyncTrack, Leaked, NulFree, TrackNodes, OffTrack;
      hide Wanted, Mountable, RepeatsOwner;
      if f !in store {
        return false;
      }
      RemoveTrackEffect(View(), DRAFT, f);
      RemoveTrackMounts(View(), DRAFT, f);
      OffTrackTwice(byNode, DRAFT, f);
      if store[f].draft.Some? {
        SyncTrackEffect(View(), DRAFT, f, store[f].draft.value, dials);
        SyncTrackMounts(View(), DRAFT, f, store[f].draft.value, dials);
        SyncSucceedsExactly(View(), DRAFT, f, store[f].draft.value, dials);
      }
      ok := SyncDraft(f, store[f].published, store[f].draft, dials);
    }

    method SyncDrafts(store: map<string, FlowDoc>, ids: seq<string>, dials: string -> nat -> Dial)
      requires Valid() && forall id | id in ids :: NulFree(id) && id != "" && Openers(sessions, id) != {}
      modifies `byNode, `byFlow, `connected, `dialed, `closed
      ensures Valid() && Without(byNode, Elements(ids)) == Without(old(byNode), Elements(ids))
      ensures forall f | f in ids && f in store :: TrackNodes(byNode, DRAFT, f) == DraftWanted(store[f], f, dials(f))
    {
      hide Core, CountsExact, NulFree, Openers, TrackNodes, DraftWanted, Without, OffTrack;
      var i := 0;
      while i < |ids|
        invariant 0 <= i <= |ids|
        invariant Valid() && Without(byNode, Elements(ids)) == Without(old(byNode), Elements(ids))
        invariant forall f | f in ids[..i] && f in store ::
          TrackNodes(byNode, DRAFT, f) == DraftWanted(store[f], f, dials(f))
      {
        ghost var before := byNode;
        var logged := SyncDraftByID(store, ids[i], dials(ids[i]));
        WithoutSame(before, byNode, ids[i], Elements(ids));
        forall f | f in ids[..i] && f != ids[i] ensures TrackNodes(byNode, DRAFT, f) == TrackNodes(before, DRAFT, f) {
          OtherTracksSame(before, byNode, DRAFT, ids[i], DRAFT, f);
        }
        assert ids[..i + 1] == ids[..i] + [ids[i]];
        i := i + 1;
      }
      assert ids[..i] == ids;
    }

    /**
     * An editor reports the flows it has open. Run without interruption, this leaves the session table as reported and
     * the counts exact; every newly opened flow has the draft nodes it is to have; and of all other handles exactly
     * the drafts of flows that nobody has open are gone.
     */
    method UpdateSessionOpenFlows(store: map<string, FlowDoc>, sid: string, openIDs: seq<string>,
                                  dials: string -> nat -> Dial)
      returns (ghost opening: set<string>)
      requires Valid() && forall id | id in openIDs :: NulFree(id)
      modifies this
      ensures Valid()
      ensures sid == "" ==> sessions == old(sessions) && View() == old(View())
      ensures sid != "" ==> sessions == old(sessions)[sid := Elements(openIDs) - {""}]
      ensures sid != "" ==> forall f :: f in opening <==> Openers(old(sessions), f) == {} && Openers(sessions, f) != {}
      ensures sid != "" ==> forall f | f in opening && f in store ::
        TrackNodes(byNode, DRAFT, f) == DraftWanted(store[f], f, dials(f))
      ensures sid != "" ==> Without(byNode, opening) == Without(OpenDrafts(old(byNode), sessions), opening)
      ensures sid != "" ==> OpenDrafts(byNode, sessions) == byNode
    {
      hide Core, CountsExact, NulFree, Openers, TrackNodes, DraftWanted, Without, OpenDrafts;
      opening := {};
      if sid == "" {
        return;
      }
      var wanted := UniqueNonEmpty(openIDs);
      var toClose, toOpen := ReplaceSession(sid, wanted);
      opening := Elements(toOpen);
      forall id | id in toOpen ensures NulFree(id) && id != "" {
        OpenersAfter(old(sessions), sid, Elements(wanted), id);
        assert id in Elements(wanted);
      }
      RemoveDrafts(toClose);
      ghost var cleared := byNode;
      SyncDrafts(store, toOpen, dials);
      ghost var mounted := byNode;
      CloseUnopenedDrafts();
      SweptAfter(old(byNode), Elements(toClose), sessions);
      SweptBeside(cleared, mounted, Elements(toOpen), sessions);
      SweptTwice(mounted);
      forall f | f in opening && f in store ensures TrackNodes(byNode, DRAFT, f) == TrackNodes(mounted, DRAFT, f) {
        SweptNodes(mounted, f, sessions);
      }
    }

    lemma SweptTwice(m: map<string, Handle>)
      ensures OpenDrafts(OpenDrafts(m, sessions), sessions) == OpenDrafts(m, sessions)
    {
      hide Openers;
    }

    /** An editor disconnects: exactly the drafts of flows that nobody has open any more are released. */
    method ReleaseSession(sid: string)
      requires Valid()
      modifies `sessions, `openCount, `byNode, `byFlow, `connected, `closed
      ensures Valid()
      ensures sid == "" ==> sessions == old(sessions) && View() == old(View())
      ensures sid != "" ==> sessions == old(sessions) - {sid} && byNode == OpenDrafts(old(byNode), sessions)
    {
      hide Core, CountsExact, Openers, Without, OpenDrafts;
      if sid == "" {
        return;
      }
      var toClose := DropSession(sid);
      RemoveDrafts(toClose);
      CloseUnopenedDrafts();
      SweptAfter(old(byNode), Elements(toClose), sessions);
    }

    /** Start-up: restore the published tracks, then sweep the drafts that nobody has open. */
    method StartAll(list: seq<Restart.Listed>, dials: string -> nat -> Dial)
      requires Valid()
      requires forall i | 0 <= i < |list| && list[i].published.Some? :: NulFree(list[i].id) && list[i].id != ""
      modifies `byNode, `byFlow, `connected, `dialed, `closed
      ensures Valid() && byNode == OpenDrafts(MqttRuns.StartAll(old(View()), list, dials).byNode, sessions)
    {
      hide Core, CountsExact, NulFree, OpenDrafts, MqttRuns.StartAll;
      MqttRuns.StartAllCore(View(), list, dials);
      StartPublished(list, dials);
      CloseUnopenedDrafts();
    }
  }
}
