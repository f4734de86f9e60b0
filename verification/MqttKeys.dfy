/** The string keys of the MQTT ledger, and when two of them collide. */
module MqttKeys {

  const PUBLISHED := "published"
  const DRAFT := "draft"

  function NodeKey(track: string, f: string, n: string): string {
    track + "\0" + f + "\0" + n
  }

  function FlowKey(track: string, f: string): string {
    track + "\0" + f
  }

  predicate NulFree(s: string) {
    forall i | 0 <= i < |s| :: s[i] != '\0'
  }

  predicate IsTrack(track: string) {
    track == PUBLISHED || track == DRAFT
  }

  lemma TracksNulFree(track: string)
    requires IsTrack(track)
    ensures NulFree(track)
  {
  }

  /** A text before the first NUL is determined by the whole. */
  lemma SplitAtNul(a: string, b: string, a': string, b': string)
    requires NulFree(a) && NulFree(a')
    requires a + "\0" + b == a' + "\0" + b'
    ensures a == a' && b == b'
  {
    var s := a + "\0" + b;
    assert s[|a|] == '\0';
    assert s == a' + "\0" + b' && s[|a'|] == '\0';
    assert forall i | 0 <= i < |a| :: s[i] == a[i];
    assert forall i | 0 <= i < |a'| :: s[i] == a'[i];
    assert |a| == |a'|;
    assert a == s[..|a|] == a';
    assert b == s[|a| + 1..] == b';
  }

  lemma FlowKeyInjective(t: string, f: string, t': string, f': string)
    requires IsTrack(t) && IsTrack(t') && FlowKey(t, f) == FlowKey(t', f')
    ensures t == t' && f == f'
  {
    TracksNulFree(t);
    TracksNulFree(t');
    SplitAtNul(t, f, t', f');
  }

  /** With flow ids free of NUL a node key determines the track, the flow and the node. */
  lemma NodeKeyInjective(t: string, f: string, n: string, t': string, f': string, n': string)
    requires IsTrack(t) && IsTrack(t') && NulFree(f) && NulFree(f')
    requires NodeKey(t, f, n) == NodeKey(t', f', n')
    ensures t == t' && f == f' && n == n'
  {
    TracksNulFree(t);
    TracksNulFree(t');
    assert NodeKey(t, f, n) == t + "\0" + (f + "\0" + n);
    assert NodeKey(t', f', n') == t' + "\0" + (f' + "\0" + n');
    SplitAtNul(t, f + "\0" + n, t', f' + "\0" + n');
    SplitAtNul(f, n, f', n');
  }

  /** The shorter id followed by a NUL begins the longer one. */
  predicate NulPrefix(f: string, f': string) {
    f + "\0" <= f'
  }

  /**
   * Two different flows can share a node key if and only if one id, followed by a NUL, begins the
   * other; so ids free of NUL never clash.
   */
  lemma FlowsClashExactly(t: string, f: string, f': string)
    requires f != f'
    ensures (exists n, n' :: NodeKey(t, f, n) == NodeKey(t, f', n')) <==> NulPrefix(f, f') || NulPrefix(f', f)
  {
    if NulPrefix(f, f') {
      ClashOfPrefix(t, f, f');
    }
    if NulPrefix(f', f) {
      ClashOfPrefix(t, f', f);
    }
    if n, n' :| NodeKey(t, f, n) == NodeKey(t, f', n') {
      PrefixOfClash(t, f, n, f', n');
    }
  }

  lemma ClashOfPrefix(t: string, f: string, f': string)
    requires NulPrefix(f, f')
    ensures NodeKey(t, f, f'[|f| + 1..] + "\0") == NodeKey(t, f', "")
  {
    assert f' == f + "\0" + f'[|f| + 1..];
  }

  lemma PrefixOfClash(t: string, f: string, n: string, f': string, n': string)
    requires f != f' && NodeKey(t, f, n) == NodeKey(t, f', n')
    ensures NulPrefix(f, f') || NulPrefix(f', f)
  {
    SameRest(t, f + "\0" + n, f' + "\0" + n');
    assert NodeKey(t, f, n) == t + "\0" + (f + "\0" + n);
    assert NodeKey(t, f', n') == t + "\0" + (f' + "\0" + n');
    if |f| < |f'| {
      ShorterBegins(f, n, f', n');
    } else if |f'| < |f| {
      ShorterBegins(f', n', f, n);
    } else {
      assert f + "\0" + n == f + ("\0" + n) && f' + "\0" + n' == f' + ("\0" + n');
      SameLength(f, "\0" + n, f', "\0" + n');
    }
  }

  lemma SameLength(a: string, x: string, b: string, y: string)
    requires |a| == |b|
    ensures a + x == b + y ==> a == b
  {
    assert (a + x)[..|a|] == a && (b + y)[..|b|] == b;
  }

  lemma SameRest(t: string, a: string, b: string)
    ensures t + "\0" + a == t + "\0" + b ==> a == b
  {
    assert (t + "\0" + a)[|t| + 1..] == a && (t + "\0" + b)[|t| + 1..] == b;
  }

  lemma ShorterBegins(f: string, n: string, f': string, n': string)
    requires f + "\0" + n == f' + "\0" + n' && |f| < |f'|
    ensures NulPrefix(f, f')
  {
    var s := f + "\0" + n;
    assert f + "\0" == s[..|f| + 1];
    assert f' == s[..|f'|];
  }
}
