/** Object identifiers as the SNMP client handles them: dotted text, the numbers
    it denotes, and their lexicographic order. */
module OidText {
  import opened Prelude
  import opened Decimal

  type Oid = seq<int>

  /** strings.TrimLeft(s, "."). */
  function TrimDots(s: string): (r: string)
    ensures r == "" || r[0] != '.'
    ensures s == "" || s[0] != '.' ==> r == s
  {
    if s != "" && s[0] == '.' then TrimDots(s[1..]) else s
  }

  /** strings.Split(s, "."): always at least one part. */
  function Split(s: string): (parts: seq<string>)
    ensures |parts| >= 1
  {
    if s == "" then [""]
    else
      var rest := Split(s[1..]);
      if s[0] == '.' then [""] + rest else [[s[0]] + rest[0]] + rest[1..]
  }

  /** strings.Join(parts, "."). */
  function Join(parts: seq<string>): string {
    if |parts| == 0 then ""
    else if |parts| == 1 then parts[0]
    else parts[0] + "." + Join(parts[1..])
  }

  function ParseParts(parts: seq<string>): Option<Oid> {
    if parts == [] then Some([])
    else
      var n, rest := Atoi(parts[0]), ParseParts(parts[1..]);
      if n.None? || rest.None? then None else Some([n.value] + rest.value)
  }

  /** The numbers of a dotted OID, leading dots aside; None for anything else. */
  function Parse(oid: string): Option<Oid> {
    var text := TrimDots(oid);
    if text == "" then None else ParseParts(Split(text))
  }

  // ------------------------------------------------------------------
  // Rendering
  // ------------------------------------------------------------------

  /** An OID an agent can hold: sub-identifiers that are non-negative and fit. */
  predicate Proper(oid: Oid) {
    oid != [] && forall i :: 0 <= i < |oid| ==> 0 <= oid[i] <= MAX_INT
  }

  function Parts(oid: Oid): seq<string>
    requires forall i :: 0 <= i < |oid| ==> 0 <= oid[i]
  {
    seq(|oid|, i requires 0 <= i < |oid| => Itoa(oid[i]))
  }

  /** The one spelling an agent gives an OID. */
  function Render(oid: Oid): string
    requires Proper(oid)
  {
    Join(Parts(oid))
  }

  predicate NoDot(s: string) {
    '.' !in s
  }

  lemma {:induction false} SplitNoDot(s: string)
    requires NoDot(s)
    ensures Split(s) == [s]
  {
    if s != "" {
      SplitNoDot(s[1..]);
      assert s == [s[0]] + s[1..];
    }
  }

  /** One character in front of some parts. */
  function OneMore(c: char, parts: seq<string>): seq<string>
    requires |parts| >= 1
  {
    if c == '.' then [""] + parts else [[c] + parts[0]] + parts[1..]
  }

  lemma {:induction false} SplitStep(c: char, s: string)
    ensures Split([c] + s) == OneMore(c, Split(s))
  {
    assert ([c] + s)[1..] == s;
  }

  lemma {:induction false} OneMoreConcat(c: char, a: seq<string>, b: seq<string>)
    requires |a| >= 1
    ensures OneMore(c, a + b) == OneMore(c, a) + b
  {
    assert (a + b)[1..] == a[1..] + b;
  }

  lemma {:induction false} SplitConcat(a: string, b: string)
    ensures Split(a + "." + b) == Split(a) + Split(b)
  {
    if a == "" {
      assert a + "." + b == ['.'] + b;
      SplitStep('.', b);
    } else {
      var rest := a[1..];
      assert a == [a[0]] + rest && a + "." + b == [a[0]] + (rest + "." + b);
      SplitConcat(rest, b);
      SplitStep(a[0], rest);
      SplitStep(a[0], rest + "." + b);
      OneMoreConcat(a[0], Split(rest), Split(b));
    }
  }

  lemma {:induction false} JoinSplit(s: string)
    ensures Join(Split(s)) == s
  {
    if s != "" {
      JoinSplit(s[1..]);
      var rest := Split(s[1..]);
      if s[0] == '.' {
        assert ([""] + rest)[1..] == rest;
        assert s == "." + s[1..];
      } else {
        assert ([[s[0]] + rest[0]] + rest[1..])[1..] == rest[1..];
        assert s == [s[0]] + s[1..];
      }
    }
  }

  lemma {:induction false} SplitJoin(parts: seq<string>)
    requires |parts| >= 1
    requires forall i :: 0 <= i < |parts| ==> NoDot(parts[i])
    ensures Split(Join(parts)) == parts
  {
    if |parts| == 1 {
      SplitNoDot(parts[0]);
    } else {
      SplitJoin(parts[1..]);
      SplitConcat(parts[0], Join(parts[1..]));
      SplitNoDot(parts[0]);
    }
  }

  lemma {:induction false} JoinConcat(a: seq<string>, b: seq<string>)
    requires |a| >= 1 && |b| >= 1
    ensures Join(a + b) == Join(a) + "." + Join(b)
  {
    if |a| == 1 {
      assert (a + b)[1..] == b;
    } else {
      assert (a + b)[1..] == a[1..] + b;
      JoinConcat(a[1..], b);
      assert Join(a) == a[0] + "." + Join(a[1..]);
    }
  }

  lemma {:induction false} ParsePartsConcat(a: seq<string>, b: seq<string>)
    ensures ParseParts(a + b).Some? <==> ParseParts(a).Some? && ParseParts(b).Some?
    ensures ParseParts(a + b).Some? ==> ParseParts(a + b).value == ParseParts(a).value + ParseParts(b).value
  {
    if a == [] {
      assert a + b == b;
    } else {
      assert (a + b)[1..] == a[1..] + b;
      ParsePartsConcat(a[1..], b);
    }
  }

  lemma {:induction false} ParsePartsSize(parts: seq<string>)
    ensures ParseParts(parts).Some? ==> |ParseParts(parts).value| == |parts|
  {
    if parts != [] {
      ParsePartsSize(parts[1..]);
    }
  }

  /** walkOIDInts. */
  method WalkOidInts(oid: string) returns (r: Option<Oid>)
    ensures r == Parse(oid)
  {
    var text := TrimDots(oid);
    if text == "" {
      return None;
    }
    var parts := Split(text);
    var out := new int[|parts|];
    for i := 0 to |parts|
      invariant fresh(out)
      invariant ParseParts(parts[..i]) == Some(out[..i])
    {
      var n := Atoi(parts[i]);
      if n.None? {
        ParsePartFails(parts, i);
        return None;
      }
      ParseOneMore(parts[..i], parts[i]);
      SliceStep(parts, i);
      out[i] := n.value;
      assert out[..i + 1] == out[..i] + [n.value];
    }
    WholeSlice(parts);
    r := Some(out[..|parts|]);
  }

  lemma {:induction false} ParsePartFails(parts: seq<string>, i: nat)
    requires i < |parts| && Atoi(parts[i]).None?
    ensures ParseParts(parts).None?
  {
    assert parts == parts[..i] + parts[i..];
    ParsePartsConcat(parts[..i], parts[i..]);
  }

  lemma {:induction false} ParseOneMore(init: seq<string>, last: string)
    requires ParseParts(init).Some? && Atoi(last).Some?
    ensures ParseParts(init + [last]) == Some(ParseParts(init).value + [Atoi(last).value])
  {
    var one := [last];
    ParsePartsConcat(init, one);
    assert one[1..] == [] && ParseParts(one[1..]) == Some([]);
    assert ParseParts(one) == Some([Atoi(last).value] + []);
    assert [Atoi(last).value] + [] == [Atoi(last).value];
  }

  lemma {:induction false} ParseRendered(oid: Oid)
    requires forall i :: 0 <= i < |oid| ==> 0 <= oid[i] <= MAX_INT
    ensures ParseParts(Parts(oid)) == Some(oid)
  {
    if oid != [] {
      assert Parts(oid)[1..] == Parts(oid[1..]);
      ParseRendered(oid[1..]);
      AtoiOfItoa(oid[0]);
      assert oid == [oid[0]] + oid[1..];
    }
  }

  lemma {:induction false} ItoaNoDot(n: nat)
    ensures NoDot(Itoa(n))
  {
    forall c | c in Itoa(n) ensures c != '.' {
      var i :| 0 <= i < |Itoa(n)| && Itoa(n)[i] == c;
      assert IsDigit(Itoa(n)[i]);
    }
  }

  lemma {:induction false} SplitRender(oid: Oid)
    requires Proper(oid)
    ensures Split(Render(oid)) == Parts(oid)
    ensures Render(oid) != "" && Render(oid)[0] != '.'
  {
    forall i | 0 <= i < |oid| ensures NoDot(Parts(oid)[i]) {
      ItoaNoDot(oid[i]);
    }
    SplitJoin(Parts(oid));
    assert Parts(oid)[0] == Itoa(oid[0]) && IsDigit(Itoa(oid[0])[0]);
    assert Render(oid)[0] == Itoa(oid[0])[0];
  }

  /** The agent's spelling, with or without gosnmp's leading dot, denotes the OID. */
  lemma {:induction false} RenderParses(oid: Oid)
    requires Proper(oid)
    ensures TrimDots(Render(oid)) == Render(oid) && TrimDots("." + Render(oid)) == Render(oid)
    ensures Parse(Render(oid)) == Some(oid) && Parse("." + Render(oid)) == Some(oid)
  {
    SplitRender(oid);
    ParseRendered(oid);
    assert ("." + Render(oid))[1..] == Render(oid);
  }

  // ------------------------------------------------------------------
  // Subtrees
  // ------------------------------------------------------------------

  /** `oid` lies strictly below `base`. */
  predicate Below(base: Oid, oid: Oid) {
    base < oid
  }

  /** A name that begins with root and a dot lies below root. */
  lemma {:induction false} PrefixedIsBelow(root: string, name: string)
    requires root != "" && root[0] != '.' && root + "." <= name
    requires Parse(root).Some? && Parse(name).Some?
    ensures Below(Parse(root).value, Parse(name).value)
  {
    var rest := name[|root| + 1..];
    assert name == root + "." + rest;
    assert name[0] == root[0];
    SplitConcat(root, rest);
    ParsePartsConcat(Split(root), Split(rest));
    ParsePartsSize(Split(rest));
  }

  /** Only an agent's own spelling of a base begins the names below it. */
  lemma {:induction false} PrefixOfRendered(root: string, oid: Oid)
    requires root != "" && root[0] != '.' && Parse(root).Some? && Proper(oid)
    requires root + "." <= Render(oid)
    ensures Proper(Parse(root).value) && root == Render(Parse(root).value)
  {
    var base, n, rest := Parse(root).value, |Split(root)|, Render(oid)[|root| + 1..];
    SplitRender(oid);
    RenderParses(oid);
    PrefixedIsBelow(root, Render(oid));
    assert Render(oid) == root + "." + rest;
    SplitConcat(root, rest);
    ParsePartsSize(Split(root));
    assert Parts(oid)[..n] == Split(root);
    assert Parts(oid)[..n] == Parts(base);
    JoinSplit(root);
  }

  lemma {:induction false} RenderedPrefix(base: Oid, oid: Oid)
    requires Proper(oid) && base != [] && Below(base, oid)
    ensures Proper(base) && Render(base) + "." <= Render(oid)
  {
    assert Proper(base) by {
      forall i | 0 <= i < |base| ensures 0 <= base[i] <= MAX_INT {
        assert base[i] == oid[i];
      }
    }
    var tail := oid[|base|..];
    assert Parts(oid) == Parts(base) + Parts(tail);
    JoinConcat(Parts(base), Parts(tail));
  }

  /** For rendered names, the text test is the numeric one, if root is spelt as an
      agent would spell it; spelt otherwise, it never succeeds. */
  lemma {:induction false} PrefixTest(root: string, oid: Oid)
    requires root != "" && root[0] != '.' && Parse(root).Some? && Proper(oid)
    ensures root + "." <= Render(oid) <==> Below(Parse(root).value, oid) && Canonical(root)
  {
    RenderParses(oid);
    if root + "." <= Render(oid) {
      PrefixedIsBelow(root, Render(oid));
      PrefixOfRendered(root, oid);
    }
    if Below(Parse(root).value, oid) && Canonical(root) {
      RenderedPrefix(Parse(root).value, oid);
    }
  }

  /** A base OID spelt as an agent spells it: no sign, no leading zero. */
  predicate Canonical(root: string) {
    Parse(root).Some? && Proper(Parse(root).value) && root == Render(Parse(root).value)
  }

  lemma {:induction false} AtoiPadded()
    ensures Atoi("1") == Some(1) && Atoi("03") == Some(3)
  {
    assert "1"[..0] == "" && "03"[..1] == "0" && "0"[..0] == "";
    assert Value("0") == 0 && Value("03") == 3;
  }

  lemma {:induction false} SplitPadded()
    ensures Split("1.03") == ["1", "03"]
  {
    assert "1.03" == "1" + "." + "03";
    SplitConcat("1", "03");
    SplitNoDot("1");
    SplitNoDot("03");
  }

  /** "1.03" denotes 1.3, but is not how an agent spells it. */
  lemma {:induction false} PaddedIsNotCanonical()
    ensures Parse("1.03") == Some([1, 3]) && !Canonical("1.03")
  {
    SplitPadded();
    AtoiPadded();
    var parts := ["1", "03"];
    assert parts[1..] == ["03"] && ["03"][1..] == [];
    assert ParseParts(["03"]) == Some([3] + []) && [3] + [] == [3];
    assert ParseParts(parts) == Some([1] + [3]) && [1] + [3] == [1, 3];
    RenderedThree();
    assert parts[1] == "03";
  }

  lemma {:induction false} RenderedThree()
    ensures Proper([1, 3]) && |Split(Render([1, 3]))| == 2 && |Split(Render([1, 3]))[1]| == 1
  {
    SplitRender([1, 3]);
    assert Split(Render([1, 3]))[1] == Itoa(3);
  }

  // ------------------------------------------------------------------
  // Lexicographic order
  // ------------------------------------------------------------------

  /** slices.Compare(a, b) < 0. */
  predicate Less(a: Oid, b: Oid) {
    if b == [] then false
    else if a == [] then true
    else if a[0] != b[0] then a[0] < b[0]
    else Less(a[1..], b[1..])
  }

  /** The lower number comes first, where two OIDs part; and an OID comes before those
      below it. */
  lemma {:induction false} LessWhereTheyPart(prefix: Oid, m: int, n: int, a: Oid, b: Oid)
    requires m < n
    ensures Less(prefix + [m] + a, prefix + [n] + b) && Less(prefix, prefix + [m] + a)
  {
    var x, y := prefix + [m] + a, prefix + [n] + b;
    if prefix != [] {
      LessWhereTheyPart(prefix[1..], m, n, a, b);
      assert x[1..] == prefix[1..] + [m] + a && y[1..] == prefix[1..] + [n] + b;
    }
  }

  lemma {:induction false} LessTransitive(a: Oid, b: Oid, c: Oid)
    requires Less(a, b) && Less(b, c)
    ensures Less(a, c)
  {
    if a != [] && a[0] == b[0] == c[0] {
      LessTransitive(a[1..], b[1..], c[1..]);
    }
  }

  lemma {:induction false} LessTotal(a: Oid, b: Oid)
    ensures Less(a, b) || Less(b, a) || a == b
    ensures !(Less(a, b) && Less(b, a))
    ensures !Less(a, a)
  {
    if a != [] && b != [] {
      LessTotal(a[1..], b[1..]);
      LessTotal(a[1..], a[1..]);
      assert a == [a[0]] + a[1..] && b == [b[0]] + b[1..];
    } else if a != [] {
      LessTotal(a[1..], a[1..]);
    }
  }

  lemma {:induction false} BelowIsGreater(base: Oid, oid: Oid)
    requires Below(base, oid)
    ensures Less(base, oid)
  {
    if base != [] {
      BelowIsGreater(base[1..], oid[1..]);
    }
  }

  /** A subtree is contiguous: nothing outside it lies between its root and one of
      its members. */
  lemma {:induction false} SubtreeContiguous(base: Oid, mid: Oid, oid: Oid)
    requires Less(base, mid) && Less(mid, oid) && Below(base, oid)
    ensures Below(base, mid)
  {
    if base != [] {
      assert base[0] == oid[0];
      SubtreeContiguous(base[1..], mid[1..], oid[1..]);
      assert base == [base[0]] + base[1..] && mid == [mid[0]] + mid[1..];
    }
  }
}
