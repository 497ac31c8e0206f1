/** VLAN_MEMBERS values: two bitmaps behind a VLAN id (nsdp/write.go, nsdp/parse.go). */
module NsdpVlan {
  import opened Prelude
  import Bits
  import opened PortBitmap
  import opened NsdpCodec
  import opened NsdpDevice

  // ------------------------------------------------------------------
  // Sets of ports as sorted lists
  // ------------------------------------------------------------------

  /** The keys of a set held in a map, sorted. */
  function SortedSet(s: set<int>): (r: seq<int>)
    ensures Ascending(r)
    ensures forall x :: x in r <==> x in s
  {
    if s == {} then []
    else
      GreatestExists(s);
      var m :| m in s && forall y :: y in s ==> y <= m;
      var rest := SortedSet(s - {m});
      assert forall i :: 0 <= i < |rest| ==> rest[i] in rest;
      rest + [m]
  }

  /** Port numbers a bitmap of some width has bits for. */
  predicate WithinWidth(ports: set<int>, width: nat) {
    forall p :: p in ports ==> 1 <= p <= 8 * width
  }

  lemma {:induction false} SortedCodable(ports: set<int>)
    requires forall p :: p in ports ==> p >= 1
    ensures Codable(SortedSet(ports))
    ensures Elements(SortedSet(ports)) == ports
  {
    var list := SortedSet(ports);
    assert forall i :: 0 <= i < |list| ==> list[i] in list;
  }

  lemma {:induction false} SetRoundTrip(ports: set<int>, width: nat)
    requires WithinWidth(ports, width)
    ensures Codable(SortedSet(ports))
    ensures |Bitmap(SortedSet(ports), width)| == width
    ensures Ports(Bitmap(SortedSet(ports), width)) == SortedSet(ports)
  {
    var list := SortedSet(ports);
    assert forall i :: 0 <= i < |list| ==> list[i] in list;
    BitmapFits(list, width);
    DecodeEncoded(list, width);
  }

  // ------------------------------------------------------------------
  // The value
  // ------------------------------------------------------------------

  function VlanMembersValue(vlan: U16, members: seq<int>, tagged: seq<int>, portCount: nat): Bytes
    requires Codable(members) && Codable(tagged)
  {
    var width := BitmapWidth(portCount);
    Put16(vlan) + Bitmap(members, width) + Bitmap(tagged, width)
  }

  /** VlanMembersTLV: an id that is not a uint16 is an error. */
  function VlanMembersTlv(vlan: int, members: seq<int>, tagged: seq<int>, portCount: nat): Option<Tlv>
    requires Codable(members) && Codable(tagged)
  {
    if vlan < 0 || vlan > 0xFFFF then None
    else Some(Tlv(TAG_VLAN_MEMBERS, VlanMembersValue(vlan, members, tagged, portCount)))
  }

  lemma {:induction false} ParseParts(id: Bytes, a: Bytes, b: Bytes, portCount: nat)
    requires |id| == 2 && |a| == BitmapWidth(portCount) && |a| <= |a + b| - |a|
    ensures ParseVlanMembers(id + a + b, portCount)
         == Some(Membership(Get16(id), Ports(a), Ports(b[..|a|])))
  {
    var v, w := id + a + b, BitmapWidth(portCount);
    assert v[0..2] == id && v[2..2 + w] == a && v[2 + w..2 + 2 * w] == b[..w];
  }

  lemma {:induction false} PortsBound(bitmap: Bytes)
    ensures forall i :: 0 <= i < |Ports(bitmap)| ==> 1 <= Ports(bitmap)[i] <= 8 * |bitmap|
  {
  }

  /** Parsing never reports a port past the width. */
  lemma {:induction false} ParsedWithin(v: Bytes, portCount: nat)
    requires ParseVlanMembers(v, portCount).Some?
    ensures var m := ParseVlanMembers(v, portCount).value;
            WithinWidth(Elements(m.members) + Elements(m.tagged), BitmapWidth(portCount))
  {
    var w := BitmapWidth(portCount);
    PortsBound(v[2..2 + w]);
    PortsBound(v[2 + w..2 + w * 2]);
  }

  /** The value parses back at the same width when every port has a bit. */
  lemma {:induction false} VlanMembersRoundTrip(vlan: U16, members: set<int>, tagged: set<int>, portCount: nat)
    requires WithinWidth(members, BitmapWidth(portCount)) && WithinWidth(tagged, BitmapWidth(portCount))
    ensures Codable(SortedSet(members)) && Codable(SortedSet(tagged))
    ensures var v := VlanMembersValue(vlan, SortedSet(members), SortedSet(tagged), portCount);
            && |v| == 2 + 2 * BitmapWidth(portCount)
            && ParseVlanMembers(v, portCount) == Some(Membership(vlan, SortedSet(members), SortedSet(tagged)))
  {
    var width := BitmapWidth(portCount);
    SetRoundTrip(members, width);
    SetRoundTrip(tagged, width);
    var a, b := Bitmap(SortedSet(members), width), Bitmap(SortedSet(tagged), width);
    ParseParts(Put16(vlan), a, b, portCount);
    assert b[..width] == b;
  }

  /** A port past the width is lost: its bitmap grows by bytes that the parser, whose
      width is fixed, does not expect. So the round trip holds exactly within it. */
  lemma {:induction false} VlanMembersRoundTripIff(vlan: U16, members: set<int>, tagged: set<int>, portCount: nat)
    requires forall p :: p in members ==> p >= 1
    requires forall p :: p in tagged ==> p >= 1
    ensures Codable(SortedSet(members)) && Codable(SortedSet(tagged))
    ensures ParseVlanMembers(VlanMembersValue(vlan, SortedSet(members), SortedSet(tagged), portCount), portCount)
         == Some(Membership(vlan, SortedSet(members), SortedSet(tagged)))
       <==> WithinWidth(members + tagged, BitmapWidth(portCount))
  {
    SortedCodable(members);
    SortedCodable(tagged);
    var v := VlanMembersValue(vlan, SortedSet(members), SortedSet(tagged), portCount);
    if WithinWidth(members + tagged, BitmapWidth(portCount)) {
      assert forall p :: p in members || p in tagged ==> p in members + tagged;
      VlanMembersRoundTrip(vlan, members, tagged, portCount);
    } else if ParseVlanMembers(v, portCount).Some? {
      ParsedWithin(v, portCount);
    }
  }

  lemma {:induction false} FirstBitmap()
    ensures Codable([1]) && Bitmap([1], 1) == [0x80]
  {
    assert [1][..0] == [];
    TopBit(1);
    assert Bitmap([], 1) == [0];
    assert AddPort([0], 1) == [0x80];
  }

  lemma {:induction false} GrownBitmap(before: Bytes)
    requires before == [0x80] || before == [0]
    ensures AddPort(before, 9) == before + [0x80]
  {
    TopBit(9);
    assert Zeros(1) == [0];
    assert before + Zeros(1) == before + [0];
  }

  lemma {:induction false} GrownBitmaps()
    ensures Codable([1, 9]) && Codable([9]) && Codable([1])
    ensures Bitmap([1], 1) == [0x80] && Bitmap([1, 9], 1) == [0x80, 0x80] && Bitmap([9], 1) == [0, 0x80]
  {
    FirstBitmap();
    assert [1, 9][..1] == [1] && [9][..0] == [];
    GrownBitmap([0x80]);
    GrownBitmap([0]);
    assert Bitmap([], 1) == [0];
  }

  /** What goes wrong: on an 8-port switch, adding port 9 tagged to a VLAN whose
      member is port 1 shifts the tagged bitmap out of place. The switch reads back
      port 1 as the only member and port 9 nowhere; its tagged ports come from the
      second byte of the grown member bitmap, and are port 1. */
  lemma {:induction false} PortPastWidthShiftsTagged(vlan: U16)
    ensures Codable([1, 9]) && Codable([9])
    ensures ParseVlanMembers(VlanMembersValue(vlan, [1, 9], [9], 8), 8) == Some(Membership(vlan, [1], [1]))
  {
    GrownBitmaps();
    var v := VlanMembersValue(vlan, [1, 9], [9], 8);
    assert v == Put16(vlan) + [0x80, 0x80, 0, 0x80];
    assert v[2..3] == [0x80] && v[3..4] == [0x80] && v[0..2] == Put16(vlan);
    DecodeEncoded([1], 1);
  }

  /** Ports 1 and 9 are the top bits of their bytes. */
  lemma {:induction false} TopBit(port: int)
    requires port == 1 || port == 9
    ensures OrPort(0, port) == 0x80
  {
    Bits.OrBitOfZero(7);
    Bits.Pow2Eight();
  }
}
