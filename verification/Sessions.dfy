/** Which editor sessions have which flows open, and the reference counts that summarise it. */
module Sessions {
  import opened Prelude

  ghost function Openers(sessions: map<string, set<string>>, f: string): set<string> {
    set sid | sid in sessions && f in sessions[sid]
  }

  function Count(counts: map<string, int>, f: string): int {
    if f in counts then counts[f] else 0
  }

  /** A flow's count is the number of sessions that have it open, and only open flows are listed. */
  ghost predicate CountsExact(sessions: map<string, set<string>>, counts: map<string, int>) {
    forall f :: Count(counts, f) == |Openers(sessions, f)| && (f in counts <==> Openers(sessions, f) != {})
  }

  /** The non-empty ids of a list, once each, in the order they first occur. */
  method UniqueNonEmpty(ids: seq<string>) returns (out: seq<string>)
    ensures NoDup(out)
    ensures Elements(out) == Elements(ids) - {""}
  {
    out := [];
    var seen: set<string> := {};
    var i := 0;
    while i < |ids|
      invariant 0 <= i <= |ids|
      invariant NoDup(out) && seen == Elements(out) == Elements(ids[..i]) - {""}
    {
      assert Elements(ids[..i + 1]) == Elements(ids[..i]) + {ids[i]};
      if ids[i] != "" && ids[i] !in seen {
        seen := seen + {ids[i]};
        out := out + [ids[i]];
      }
      i := i + 1;
    }
    assert ids[..i] == ids;
  }

  /** What a session gains and loses; nothing is listed twice if the wanted list has no duplicates. */
  method DiffFlowSets(old_: set<string>, wanted: seq<string>) returns (added: seq<string>, removed: seq<string>)
    ensures Elements(added) == Elements(wanted) - old_
    ensures Elements(removed) == old_ - Elements(wanted)
    ensures NoDup(wanted) ==> NoDup(added)
    ensures NoDup(removed)
  {
    added, removed := [], [];
    var want: set<string> := {};
    var i := 0;
    while i < |wanted|
      invariant 0 <= i <= |wanted|
      invariant want == Elements(wanted[..i])
      invariant Elements(added) == Elements(wanted[..i]) - old_
      invariant NoDup(wanted) ==> NoDup(added)
    {
      assert Elements(wanted[..i + 1]) == Elements(wanted[..i]) + {wanted[i]};
      if NoDup(wanted) {
        assert wanted[i] !in wanted[..i];
        assert wanted[i] !in Elements(added);
      }
      want := want + {wanted[i]};
      if wanted[i] !in old_ {
        ElementsPush(added, wanted[i]);
        added := added + [wanted[i]];
      }
      i := i + 1;
    }
    assert wanted[..i] == wanted;
    var left := old_;
    while left != {}
      invariant left <= old_
      invariant Elements(removed) == old_ - left - want
      invariant NoDup(removed)
      decreases left
    {
      var id :| id in left;
      if id !in want {
        assert id !in Elements(removed);
        ElementsPush(removed, id);
        removed := removed + [id];
      }
      left := left - {id};
    }
  }

  /** Take one reference away from each listed flow, forgetting flows that reach zero. */
  method Decrement(counts: map<string, int>, removed: seq<string>) returns (next: map<string, int>)
    requires NoDup(removed)
    requires forall f | f in counts :: counts[f] > 0
    ensures forall f :: Count(next, f) == if f in removed && f in counts then counts[f] - 1 else Count(counts, f)
    ensures forall f | f in next :: next[f] > 0
  {
    next := counts;
    var i := 0;
    while i < |removed|
      invariant 0 <= i <= |removed|
      invariant forall f ::
        Count(next, f) == if f in removed[..i] && f in counts then counts[f] - 1 else Count(counts, f)
      invariant forall f | f in next :: next[f] > 0
    {
      var id := removed[i];
      assert id !in removed[..i];
      assert removed[..i + 1] == removed[..i] + [id];
      var n := Count(next, id) - 1;
      next := next[id := n];
      if n <= 0 {
        next := next - {id};
      }
      i := i + 1;
    }
    assert removed[..i] == removed;
  }

  method Increment(counts: map<string, int>, added: seq<string>) returns (next: map<string, int>)
    requires NoDup(added)
    requires forall f | f in counts :: counts[f] > 0
    ensures forall f :: Count(next, f) == Count(counts, f) + if f in added then 1 else 0
    ensures forall f | f in next :: next[f] > 0
  {
    next := counts;
    var i := 0;
    while i < |added|
      invariant 0 <= i <= |added|
      invariant forall f :: Count(next, f) == Count(counts, f) + if f in added[..i] then 1 else 0
      invariant forall f | f in next :: next[f] > 0
    {
      var id := added[i];
      assert id !in added[..i];
      assert added[..i + 1] == added[..i] + [id];
      next := next[id := Count(next, id) + 1];
      i := i + 1;
    }
    assert added[..i] == added;
  }

  lemma OpenersAfter(sessions: map<string, set<string>>, sid: string, wanted: set<string>, f: string)
    ensures Openers(sessions[sid := wanted], f) ==
            if f in wanted then Openers(sessions, f) + {sid} else Openers(sessions, f) - {sid}
    ensures sid in Openers(sessions, f) <==> sid in sessions && f in sessions[sid]
  {
  }

  lemma OpenersWithout(sessions: map<string, set<string>>, sid: string, f: string)
    ensures Openers(sessions - {sid}, f) == Openers(sessions, f) - {sid}
  {
  }

  lemma CountsPositive(sessions: map<string, set<string>>, counts: map<string, int>)
    requires CountsExact(sessions, counts)
    ensures forall f | f in counts :: counts[f] > 0
  {
    forall f | f in counts ensures counts[f] > 0 {
      assert Count(counts, f) == |Openers(sessions, f)|;
    }
  }

  /** A flow whose openers are one fewer or one more has its count follow. */
  lemma CountsFollow(sessions: map<string, set<string>>, sessions': map<string, set<string>>,
                     counts: map<string, int>, counts': map<string, int>, sid: string)
    requires CountsExact(sessions, counts)
    requires forall f :: Openers(sessions', f) == Openers(sessions, f) ||
                         (sid in Openers(sessions, f) && Openers(sessions', f) == Openers(sessions, f) - {sid}) ||
                         (sid !in Openers(sessions, f) && Openers(sessions', f) == Openers(sessions, f) + {sid})
    requires forall f :: Count(counts', f) == Count(counts, f)
                         + (if sid in Openers(sessions', f) then 1 else 0)
                         - (if sid in Openers(sessions, f) then 1 else 0)
    requires forall f | f in counts' :: counts'[f] > 0
    ensures CountsExact(sessions', counts')
  {
    forall f ensures Count(counts', f) == |Openers(sessions', f)| && (f in counts' <==> Openers(sessions', f) != {}) {
      assert Count(counts, f) == |Openers(sessions, f)|;
      assert |Openers(sessions', f)| == Count(counts', f);
    }
  }
}
