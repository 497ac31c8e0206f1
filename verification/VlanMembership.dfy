/** One port's VLAN membership over SNMP: the read-modify-write of the egress and
    untagged PortLists (snmp/write.go). */
module VlanMembership {
  import opened Prelude
  import opened PortBitmap

  predicate Sorted(s: seq<int>) {
    forall i, j :: 0 <= i < j < |s| ==> s[i] <= s[j]
  }

  /** How many leading elements are below x. */
  function Rank(x: int, s: seq<int>): (k: nat)
    requires Sorted(s)
    ensures k <= |s|
    ensures forall i :: 0 <= i < k ==> s[i] < x
    ensures forall i :: k <= i < |s| ==> x <= s[i]
  {
    if s == [] || s[|s| - 1] < x then |s| else Rank(x, s[..|s| - 1])
  }

  function Insert(x: int, s: seq<int>): (r: seq<int>)
    requires Sorted(s)
    ensures Sorted(r)
  {
    var k := Rank(x, s);
    s[..k] + [x] + s[k..]
  }

  /** sort.Ints. */
  function Sort(s: seq<int>): (r: seq<int>)
    ensures Sorted(r)
  {
    if s == [] then [] else Insert(s[|s| - 1], Sort(s[..|s| - 1]))
  }

  lemma {:induction false} InsertKeeps(x: int, s: seq<int>)
    requires Sorted(s)
    ensures multiset(Insert(x, s)) == multiset(s) + multiset{x}
  {
    var k := Rank(x, s);
    assert s == s[..k] + s[k..];
  }

  lemma {:induction false} SortPermutes(s: seq<int>)
    ensures multiset(Sort(s)) == multiset(s)
  {
    if s != [] {
      SortPermutes(s[..|s| - 1]);
      InsertKeeps(s[|s| - 1], Sort(s[..|s| - 1]));
      assert s == s[..|s| - 1] + [s[|s| - 1]];
    }
  }

  lemma {:induction false} SortKeeps(s: seq<int>, p: int)
    ensures p in Sort(s) <==> p in s
  {
    SortPermutes(s);
    assert p in Sort(s) <==> p in multiset(Sort(s));
  }

  /** The list encoded by a set or clear: the decoded ports without this one, plus it
      when it is set. */
  method Rewrite(current: seq<int>, port: int, on: bool) returns (next: seq<int>)
    requires forall i :: 0 <= i < |current| ==> current[i] >= 1
    requires on ==> port >= -6
    ensures forall p :: p in next <==> if p == port then on else p in current
    ensures Codable(next)
  {
    next := [];
    for i := 0 to |current|
      invariant forall p :: p in next <==> p != port && p in current[..i]
    {
      if current[i] != port {
        next := next + [current[i]];
      }
    }
    assert current[..|current|] == current;
    if on {
      next := next + [port];
      ghost var unsorted := next;
      next := Sort(next);
      forall p ensures p in next <==> p in unsorted {
        SortKeeps(unsorted, p);
      }
    }
    assert forall i :: 0 <= i < |next| ==> next[i] in next;
  }

  /** Sets or clears one port's bit and nothing else. The list never narrows below its
      own width, the width asked for, or 8 bytes, and grows past them only to hold
      the port being set. A port below 1 has no bit: setting it is a silent no-op
      down to -6, and the source panics on setting one below that. */
  method SetPortBit(bitmap: Bytes, port: int, on: bool, width: nat) returns (r: Bytes)
    requires on ==> port >= -6
    ensures forall q :: Has(r, q) <==> if q == port then on && port >= 1 else Has(bitmap, q)
    ensures |r| == Max(TargetWidth(bitmap, width), if on then ByteIndex(port) + 1 else 0)
  {
    var current := DecodeBitmap(bitmap);
    PortsMeaning(bitmap);
    var next := Rewrite(current, port, on);
    var target := |bitmap|;
    if width > target {
      target := width;
    }
    if target < 8 {
      target := 8;
    }
    r := EncodeBitmap(next, target);
    forall q ensures Has(r, q) <==> q >= 1 && q in next {
      BitmapMeaning(next, target, q);
    }
    BitmapLength(next, target);
    forall p | p in next && p != port ensures ByteIndex(p) < |bitmap| {
      assert Has(bitmap, p);
    }
  }

  function TargetWidth(bitmap: Bytes, width: nat): nat {
    Max(8, Max(|bitmap|, width))
  }

  /** The mode a port has in a VLAN, as its two bits say it: no mode when the port is
      untagged without being a member. */
  function ModeOf(egress: Bytes, untagged: Bytes, port: int): (mode: Option<VlanMode>) {
    if Has(egress, port) then Some(if Has(untagged, port) then Untagged else Tagged)
    else if Has(untagged, port) then None
    else Some(Excluded)
  }

  /** Gives one port the mode asked for in both bitmaps, and leaves every other port's
      mode as it was. */
  method MembershipBitmaps(egress: Bytes, untagged: Bytes, port: int, mode: VlanMode, width: nat)
    returns (newEgress: Bytes, newUntagged: Bytes)
    requires mode != Excluded ==> port >= -6
    ensures port >= 1 ==> ModeOf(newEgress, newUntagged, port) == Some(mode)
    ensures forall q :: q != port ==> ModeOf(newEgress, newUntagged, q) == ModeOf(egress, untagged, q)
    ensures forall q :: q != port ==> (Has(newUntagged, q) <==> Has(untagged, q))
    ensures var need := ByteIndex(port) + 1;
            && |newEgress| == Max(TargetWidth(egress, width), if mode == Excluded then 0 else need)
            && |newUntagged| == Max(TargetWidth(untagged, width), if mode == Untagged then need else 0)
  {
    var inEgress := mode == Untagged || mode == Tagged;
    var inUntagged := mode == Untagged;
    newEgress := SetPortBit(egress, port, inEgress, width);
    newUntagged := SetPortBit(untagged, port, inUntagged, width);
  }

  /** The wire width for a model's port count. */
  function VlanBitmapWidth(portCount: int): (w: nat)
    ensures w >= 8 && 8 * w >= portCount
    ensures w == 8 || 8 * (w - 1) < portCount
  {
    var w := Quo(portCount + 7, 8);
    if w < 8 then 8 else w
  }

  /** At the model's width a SET has the length the device expects, whatever mode any
      of its ports is given. */
  method SetWidth(egress: Bytes, untagged: Bytes, port: int, mode: VlanMode, portCount: nat)
    returns (newEgress: Bytes, newUntagged: Bytes)
    requires 1 <= port <= portCount
    requires |egress| <= VlanBitmapWidth(portCount) && |untagged| <= VlanBitmapWidth(portCount)
    ensures |newEgress| == |newUntagged| == VlanBitmapWidth(portCount)
    ensures ModeOf(newEgress, newUntagged, port) == Some(mode)
    ensures forall q :: q != port ==> ModeOf(newEgress, newUntagged, q) == ModeOf(egress, untagged, q)
  {
    newEgress, newUntagged := MembershipBitmaps(egress, untagged, port, mode, VlanBitmapWidth(portCount));
  }
}
