/** Go's strings.TrimSpace, on ASCII. */
module Whitespace {

  /** What unicode.IsSpace accepts below 0x80. */
  predicate IsSpace(c: char) {
    c == ' ' || '\t' <= c <= '\r'
  }

  predicate Blank(s: string) {
    forall i :: 0 <= i < |s| ==> IsSpace(s[i])
  }

  function TrimRight(s: string): string {
    if s != "" && IsSpace(s[|s| - 1]) then TrimRight(s[..|s| - 1]) else s
  }

  function TrimLeft(s: string): string {
    if s != "" && IsSpace(s[0]) then TrimLeft(s[1..]) else s
  }

  function TrimSpace(s: string): string {
    TrimLeft(TrimRight(s))
  }

  lemma {:induction false} TrimRightMeaning(s: string)
    ensures var r := TrimRight(s);
            r <= s && Blank(s[|r|..]) && (r == "" || !IsSpace(r[|r| - 1]))
  {
    if s != "" && IsSpace(s[|s| - 1]) {
      var t := s[..|s| - 1];
      TrimRightMeaning(t);
      var r := TrimRight(s);
      assert forall i :: |r| <= i < |t| ==> s[i] == t[|r|..][i - |r|];
    }
  }

  lemma {:induction false} TrimLeftMeaning(s: string)
    ensures var r := TrimLeft(s);
            |r| <= |s| && r == s[|s| - |r|..] && Blank(s[..|s| - |r|]) && (r == "" || !IsSpace(r[0]))
  {
    if s != "" && IsSpace(s[0]) {
      var t := s[1..];
      TrimLeftMeaning(t);
      var r := TrimLeft(s);
      assert forall i :: 1 <= i < |s| - |r| ==> s[i] == t[..|t| - |r|][i - 1];
    }
  }

  /** Nothing is trimmed from a text with no white space at its ends. */
  lemma {:induction false} TrimSolid(s: string)
    requires s != "" && !IsSpace(s[0]) && !IsSpace(s[|s| - 1])
    ensures TrimSpace(s) == s
  {
  }

  /** Trimming leaves nothing exactly when there was only white space. */
  lemma {:induction false} TrimSpaceBlank(s: string)
    ensures TrimSpace(s) == "" <==> Blank(s)
  {
    var r := TrimRight(s);
    TrimRightMeaning(s);
    TrimLeftMeaning(r);
    assert r[..|r|] == r;
    assert r != "" ==> s[|r| - 1] == r[|r| - 1];
  }

  /** White space behind a text goes first. */
  lemma {:induction false} TrimRightConcat(a: string, b: string)
    ensures TrimRight(a + b) == if Blank(b) then TrimRight(a) else a + TrimRight(b)
    decreases |b|
  {
    if b == "" {
      assert a + b == a;
    } else {
      var s, rest := a + b, b[..|b| - 1];
      assert b == rest + [b[|b| - 1]];
      if IsSpace(b[|b| - 1]) {
        assert s[..|s| - 1] == a + rest;
        TrimRightConcat(a, rest);
        assert Blank(rest) <==> Blank(b);
      } else {
        assert s[|s| - 1] == b[|b| - 1];
      }
    }
  }

  lemma {:induction false} TrimRightTwice(s: string)
    ensures TrimRight(TrimRight(s)) == TrimRight(s)
  {
    TrimRightMeaning(s);
  }
}
