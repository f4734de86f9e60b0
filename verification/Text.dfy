/** The two string trims the server uses, and how they compose. */
module Text {

  predicate IsSpace(c: char) {
    || '\t' <= c <= '\r' || c == ' '
    || c == '\U{0085}' || c == '\U{00A0}' || c == '\U{1680}'
    || '\U{2000}' <= c <= '\U{200A}'
    || c == '\U{2028}' || c == '\U{2029}' || c == '\U{202F}' || c == '\U{205F}' || c == '\U{3000}'
  }

  function TrimLeft(s: string): (t: string)
    ensures |t| <= |s|
    ensures t != "" ==> !IsSpace(t[0])
  {
    if s != "" && IsSpace(s[0]) then TrimLeft(s[1..]) else s
  }

  function TrimEnd(s: string): (t: string)
    ensures t <= s
    ensures t != "" ==> !IsSpace(t[|t| - 1])
  {
    if s != "" && IsSpace(s[|s| - 1]) then TrimEnd(s[..|s| - 1]) else s
  }

  function TrimSpace(s: string): string {
    TrimEnd(TrimLeft(s))
  }

  function TrimSlashes(s: string): (t: string)
    ensures t <= s
    ensures t != "" ==> t[|t| - 1] != '/'
  {
    if s != "" && s[|s| - 1] == '/' then TrimSlashes(s[..|s| - 1]) else s
  }

  lemma TrimSpaceTwice(s: string)
    ensures TrimSpace(TrimSpace(s)) == TrimSpace(s)
  {
    var t := TrimSpace(s);
    if t != "" {
      assert t[0] == TrimLeft(s)[0];
    }
  }

  lemma TrimNothing()
    ensures TrimSpace("") == ""
  {
  }

  predicate AllSpaces(s: string) {
    forall i | 0 <= i < |s| :: IsSpace(s[i])
  }

  predicate AllSlashes(s: string) {
    forall i | 0 <= i < |s| :: s[i] == '/'
  }

  lemma {:induction false} TrimLeftCuts(s: string) returns (a: string)
    ensures s == a + TrimLeft(s) && AllSpaces(a)
    decreases |s|
  {
    a := "";
    if s != "" && IsSpace(s[0]) {
      var rest := TrimLeftCuts(s[1..]);
      a := [s[0]] + rest;
      assert s == [s[0]] + s[1..];
    }
  }

  lemma {:induction false} TrimEndCuts(s: string) returns (b: string)
    ensures s == TrimEnd(s) + b && AllSpaces(b)
    decreases |s|
  {
    b := "";
    if s != "" && IsSpace(s[|s| - 1]) {
      var rest := TrimEndCuts(s[..|s| - 1]);
      b := rest + [s[|s| - 1]];
      assert s == s[..|s| - 1] + [s[|s| - 1]];
    }
  }

  /** Trimming takes spaces off both ends, all of them, and nothing else. */
  lemma TrimSpaceCuts(s: string) returns (a: string, b: string)
    ensures var t := TrimSpace(s);
            && s == a + t + b && AllSpaces(a) && AllSpaces(b)
            && (t != "" ==> !IsSpace(t[0]) && !IsSpace(t[|t| - 1]))
  {
    a := TrimLeftCuts(s);
    b := TrimEndCuts(TrimLeft(s));
    var t := TrimSpace(s);
    assert t != "" ==> t[0] == TrimLeft(s)[0];
  }

  /** Trimming slashes takes them off the end, all of them, and nothing else. */
  lemma {:induction false} TrimSlashesCuts(s: string)
    ensures TrimSlashes(s) <= s && AllSlashes(s[|TrimSlashes(s)|..])
    ensures TrimSlashes(s) != "" ==> TrimSlashes(s)[|TrimSlashes(s)| - 1] != '/'
    decreases |s|
  {
    if s != "" && s[|s| - 1] == '/' {
      var rest := s[..|s| - 1];
      TrimSlashesCuts(rest);
      forall i | 0 <= i < |s[|TrimSlashes(s)|..]| ensures s[|TrimSlashes(s)|..][i] == '/' {
        if |TrimSlashes(s)| + i < |rest| {
          assert rest[|TrimSlashes(s)|..][i] == s[|TrimSlashes(s)| + i];
        }
      }
    }
  }
}
