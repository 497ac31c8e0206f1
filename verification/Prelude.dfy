/** Vocabulary shared by the models: fixed-width integers, optional values and
    outcomes, and a few facts about sequences. */
module Prelude {

  /** Go's byte, uint16 and uint32. */
  type Byte = n: int | 0 <= n < 0x100
  type U16 = n: int | 0 <= n < 0x1_0000
  type U32 = n: int | 0 <= n < 0x1_0000_0000

  type Bytes = seq<Byte>

  datatype Option<+T> = None | Some(value: T)

  datatype Result<+T, +E> = Ok(value: T) | Err(error: E)

  /** A port's membership of a VLAN. */
  datatype VlanMode = Untagged | Tagged | Excluded

  /** `n` zero bytes, what Go's make([]byte, n) returns. */
  function Zeros(n: nat): (r: Bytes)
    ensures |r| == n
    ensures forall i :: 0 <= i < n ==> r[i] == 0
  {
    seq(n, i => 0)
  }

  lemma {:induction false} ConcatAssoc<T>(a: seq<T>, b: seq<T>, c: seq<T>)
    ensures a + (b + c) == a + b + c
  {
  }

  /** A prefix grows by its next element, and what is left shrinks by it. */
  lemma {:induction false} SliceStep<T>(s: seq<T>, i: nat)
    requires i < |s|
    ensures s[..i + 1] == s[..i] + [s[i]]
    ensures s[i..] == [s[i]] + s[i + 1..]
  {
  }

  lemma {:induction false} WholeSlice<T>(s: seq<T>)
    ensures s[..|s|] == s && s[|s|..] == [] && s[0..] == s
  {
  }

  /** A slice of a concatenation, by where it starts and ends. */
  lemma {:induction false} SliceWithin<T>(a: seq<T>, b: seq<T>, i: nat, j: nat)
    requires i <= j <= |a|
    ensures (a + b)[i..j] == a[i..j]
  {
  }

  lemma {:induction false} SliceAcross<T>(a: seq<T>, b: seq<T>, i: nat, j: nat)
    requires i <= |a| <= j <= |a| + |b|
    ensures (a + b)[i..j] == a[i..] + b[..j - |a|]
  {
  }

  lemma {:induction false} SliceBeyond<T>(a: seq<T>, b: seq<T>, i: nat, j: nat)
    requires |a| <= i <= j <= |a| + |b|
    ensures (a + b)[i..j] == b[i - |a|..j - |a|]
  {
  }

  /** Whether a sequence has another one in it: Go's strings.Contains. */
  predicate Contains<T(==)>(s: seq<T>, sub: seq<T>)
    decreases |s|
  {
    sub <= s || (s != [] && Contains(s[1..], sub))
  }

  /** Having it in it is having it at some place. */
  lemma {:induction false} ContainsMeaning<T>(s: seq<T>, sub: seq<T>)
    ensures Contains(s, sub) <==> exists i :: 0 <= i <= |s| && sub <= s[i..]
    decreases |s|
  {
    assert s[0..] == s;
    if s != [] {
      ContainsMeaning(s[1..], sub);
      if i :| 0 <= i <= |s[1..]| && sub <= s[1..][i..] {
        assert s[1..][i..] == s[i + 1..];
      }
      if i :| 0 < i <= |s| && sub <= s[i..] {
        assert s[1..][i - 1..] == s[i..];
      }
    }
  }

  lemma {:induction false} Inhabited(s: set<int>)
    ensures s == {} || exists m :: m in s
  {
    if forall x :: x !in s {
      assert s == {};
    }
  }

  lemma {:induction false} GreatestExists(s: set<int>)
    requires s != {}
    ensures exists m :: m in s && forall y :: y in s ==> y <= m
  {
    Inhabited(s);
    var x :| x in s;
    var rest := s - {x};
    if rest == {} {
      assert s == {x};
    } else {
      GreatestExists(rest);
      var m :| m in rest && forall y :: y in rest ==> y <= m;
      assert forall y :: y in s ==> y == x || y in rest;
      assert (if x > m then x else m) in s;
    }
  }

  /** Strictly ascending integers: Go's sorted, duplicate-free slices. */
  ghost predicate Ascending(s: seq<int>) {
    forall i, j :: 0 <= i < j < |s| ==> s[i] < s[j]
  }

  /** The elements of a sequence, as a set. */
  ghost function Elements<T>(s: seq<T>): set<T> {
    set x | x in s
  }

  /** A strictly ascending sequence is determined by its elements. */
  lemma {:induction false} AscendingUnique(s: seq<int>, t: seq<int>)
    requires Ascending(s) && Ascending(t)
    requires forall x :: x in s <==> x in t
    ensures s == t
  {
    assert |s| > 0 ==> s[0] in s && s[0] in t && |t| > 0;
    assert |t| > 0 ==> t[0] in t && t[0] in s && |s| > 0;
    if |s| > 0 {
      forall x ensures x in s[1..] <==> x in t[1..] {
        assert x in s[1..] <==> x in s && x != s[0];
        assert x in t[1..] <==> x in t && x != t[0];
      }
      AscendingUnique(s[1..], t[1..]);
    }
  }
}
