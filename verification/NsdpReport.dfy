/** What a device says of itself, and how it is read: the TLVs of a report, written from
    the protocol's numbers, against the parsers (nsdp/parse.go, nsdp/protocol.go). */
module NsdpReport {
  import opened Prelude
  import opened PortBitmap
  import opened NsdpCodec
  import opened NsdpAuth
  import opened NsdpDevice
  import OidText

  // ------------------------------------------------------------------
  // Saying one thing
  // ------------------------------------------------------------------

  /** A number in a field of some bytes, most significant first. */
  ghost function Big(n: nat, size: nat): (b: Bytes)
    ensures |b| == size
  {
    if size == 0 then [] else Big(n / 0x100, size - 1) + [n % 0x100]
  }

  lemma {:induction false} BigLow(n: nat, size: nat)
    requires n < Pow256(size)
    ensures Low(Big(n, size), size) == n
  {
    if size > 0 {
      BigLow(n / 0x100, size - 1);
      assert Big(n, size)[..size - 1] == Big(n / 0x100, size - 1);
    }
  }

  lemma {:induction false} LowStep(b: Bytes, k: nat)
    requires k < |b|
    ensures Low(b[..k + 1], k + 1) == Low(b[..k], k) * 0x100 + b[k] as int
  {
    assert b[..k + 1][..k] == b[..k];
  }

  /** Big-endian fields read as the numbers they spell. */
  lemma {:induction false} Get16Meaning(b: Bytes)
    requires |b| == 2
    ensures Get16(b) == Low(b, 2)
  {
    LowStep(b, 0);
    LowStep(b, 1);
    assert b[..2] == b;
  }

  lemma {:induction false} Get32Meaning(b: Bytes)
    requires |b| == 4
    ensures Get32(b) == Low(b, 4)
  {
    LowStep(b, 0);
    LowStep(b, 1);
    LowStep(b, 2);
    LowStep(b, 3);
    assert b[..4] == b;
  }

  lemma {:induction false} LowSnoc(s: Bytes, b: Byte)
    ensures Low(s + [b], |s| + 1) == Low(s, |s|) * 0x100 + b as int
  {
    assert (s + [b])[..|s|] == s;
  }

  lemma {:induction false} Spread(x: nat, p: nat, y: nat, b: nat, wide: nat, low: nat, all: nat)
    requires wide == 0x100 * p && low == y * 0x100 + b && all == (x * p + y) * 0x100 + b
    ensures all == x * wide + low
  {
  }

  lemma {:induction false} LowHalves(a: Bytes, b: Bytes)
    ensures Low(a + b, |a| + |b|) == Low(a, |a|) * Pow256(|b|) + Low(b, |b|)
  {
    if b == [] {
      assert a + b == a;
    } else {
      var n := |b| - 1;
      LowHalves(a, b[..n]);
      assert a + b == a + b[..n] + [b[n]] && b == b[..n] + [b[n]];
      LowSnoc(a + b[..n], b[n]);
      LowSnoc(b[..n], b[n]);
      Spread(Low(a, |a|), Pow256(n), Low(b[..n], n), b[n], Pow256(|b|), Low(b, |b|), Low(a + b, |a| + |b|));
    }
  }

  lemma {:induction false} Get64Meaning(b: Bytes)
    requires |b| == 8
    ensures Get64(b) == Low(b, 8)
  {
    Get32Meaning(b[0..4]);
    Get32Meaning(b[4..8]);
    LowHalves(b[0..4], b[4..8]);
    assert b[0..4] + b[4..8] == b;
    assert Pow256(4) == 0x1_0000_0000;
  }

  /** ASCII text that does not end in a NUL. */
  ghost predicate Plain(s: string) {
    && (forall i :: 0 <= i < |s| ==> s[i] as int < 0x80)
    && (s == "" || s[|s| - 1] != '\0')
  }

  ghost function TextBytes(s: string): Bytes
    requires Plain(s)
  {
    seq(|s|, i requires 0 <= i < |s| => s[i] as int)
  }

  lemma {:induction false} TrimZerosMeaning(s: string)
    ensures var r := TrimZeros(s);
            r <= s && (r == "" || r[|r| - 1] != '\0') && forall i :: |r| <= i < |s| ==> s[i] == '\0'
  {
    if s != "" && s[|s| - 1] == '\0' {
      TrimZerosMeaning(s[..|s| - 1]);
    }
  }

  lemma {:induction false} TrimZeroBytesMeaning(v: Bytes)
    ensures var r := TrimZeroBytes(v);
            r <= v && (r == [] || r[|r| - 1] != 0) && forall i :: |r| <= i < |v| ==> v[i] == 0
  {
    if v != [] && v[|v| - 1] == 0 {
      TrimZeroBytesMeaning(v[..|v| - 1]);
    }
  }

  /** Text, whatever the bytes: ASCII as it is, one replacement character for each
      other byte, and no NUL at the end. */
  lemma {:induction false} TextMeaning(v: Bytes)
    ensures ParseText(v).Some?
    ensures var s := ParseText(v).value;
            && |s| <= |v| && (s == "" || s[|s| - 1] != '\0')
            && (forall i :: 0 <= i < |s| ==> s[i] == if v[i] < 0x80 then v[i] as char else '\U{FFFD}')
            && (forall i :: |s| <= i < |v| ==> v[i] == 0)
  {
    TrimZerosMeaning(Ascii(v));
    forall i | |ParseText(v).value| <= i < |v| ensures v[i] == 0 {
      assert Ascii(v)[i] == '\0';
    }
  }

  lemma {:induction false} CharOfByte(c: char)
    requires c as int < 0x80
    ensures c as int as char == c && (c as int == 0 ==> c == '\0')
  {
  }

  lemma {:induction false} TextReads(s: string)
    requires Plain(s)
    ensures ParseText(TextBytes(s)) == Some(s)
  {
    var v := TextBytes(s);
    TextMeaning(v);
    var r := ParseText(v).value;
    if s != "" {
      CharOfByte(s[|s| - 1]);
      assert v[|s| - 1] != 0;
    }
    forall i | 0 <= i < |s| ensures r[i] == s[i] {
      CharOfByte(s[i]);
    }
    assert r == s;
  }

  /** The value of a hexadecimal digit. */
  ghost function HexValue(c: char): nat {
    if '0' <= c <= '9' then c as int - '0' as int
    else if 'a' <= c <= 'f' then c as int - 'a' as int + 10
    else 16
  }

  /** Two lower-case digits for each byte, with colons between them. */
  ghost predicate SpellsHex(t: string, m: Bytes) {
    && m != [] && |t| >= 2
    && HexValue(t[0]) == m[0] / 16 && HexValue(t[1]) == m[0] % 16
    && if |m| == 1 then |t| == 2 else |t| > 2 && t[2] == ':' && SpellsHex(t[3..], m[1..])
  }

  ghost function Colons(m: Bytes): string
    requires m != []
  {
    if |m| == 1 then HexByte(m[0]) else HexByte(m[0]) + ":" + Colons(m[1..])
  }

  lemma {:induction false} HexDigitValue(n: nat)
    requires n < 16
    ensures HexValue(HexDigit(n)) == n
  {
  }

  lemma {:induction false} ColonsSpell(m: Bytes)
    requires m != []
    ensures SpellsHex(Colons(m), m)
  {
    var t := Colons(m);
    HexDigitValue(m[0] / 16);
    HexDigitValue(m[0] % 16);
    if |m| > 1 {
      ColonsSpell(m[1..]);
      assert t[3..] == Colons(m[1..]);
    }
  }

  lemma {:induction false} FiveBetween(sep: string, a: string, b: string, c: string, d: string, e: string, f: string)
    ensures a + sep + b + sep + c + sep + d + sep + e + sep + f
         == a + sep + (b + sep + (c + sep + (d + sep + (e + sep + f))))
  {
    var head := a + sep + b + sep + c + sep;
    ConcatAssoc(head + d + sep, e + sep, f);
    ConcatAssoc(head, d + sep, e + sep + f);
    ConcatAssoc(a + sep + b + sep, c + sep, d + sep + (e + sep + f));
    ConcatAssoc(a + sep, b + sep, c + sep + (d + sep + (e + sep + f)));
    ConcatAssoc(head + d + sep, e, sep);
    ConcatAssoc(head, d, sep);
    ConcatAssoc(a + sep + b + sep, c, sep);
    ConcatAssoc(a + sep, b, sep);
  }

  lemma {:induction false} ColonsStep(m: Bytes, k: nat)
    requires k + 1 < |m|
    ensures Colons(m[k..]) == HexByte(m[k]) + ":" + Colons(m[k + 1..])
  {
    assert m[k..][1..] == m[k + 1..];
  }

  lemma {:induction false} MacSpells(m: Bytes)
    requires |m| == 6
    ensures SpellsHex(MacText(m), m)
  {
    ColonsSpell(m);
    ColonsStep(m, 0);
    ColonsStep(m, 1);
    ColonsStep(m, 2);
    ColonsStep(m, 3);
    ColonsStep(m, 4);
    assert m[0..] == m;
    FiveBetween(":", HexByte(m[0]), HexByte(m[1]), HexByte(m[2]), HexByte(m[3]), HexByte(m[4]), HexByte(m[5]));
  }

  lemma {:induction false} HexValueInjective(a: char, b: char)
    requires HexValue(a) == HexValue(b) < 16
    ensures a == b
  {
  }

  /** There is one spelling only. */
  lemma {:induction false} SpellsOnce(s: string, t: string, m: Bytes)
    requires SpellsHex(s, m) && SpellsHex(t, m)
    ensures s == t
  {
    HexValueInjective(s[0], t[0]);
    HexValueInjective(s[1], t[1]);
    if |m| > 1 {
      SpellsOnce(s[3..], t[3..], m[1..]);
      assert s == [s[0], s[1], s[2]] + s[3..] && t == [t[0], t[1], t[2]] + t[3..];
    } else {
      assert s == [s[0], s[1]] && t == [t[0], t[1]];
    }
  }

  /** A MAC is read exactly from six bytes, as the text that spells them. */
  lemma {:induction false} MacMeaning(v: Bytes, t: string)
    ensures ParseMac(v) == Some(t) <==> |v| == 6 && SpellsHex(t, v)
  {
    if |v| == 6 {
      MacSpells(v);
      if SpellsHex(t, v) {
        SpellsOnce(t, MacText(v), v);
      }
    }
  }

  lemma {:induction false} JoinStep(p: seq<string>, k: nat)
    requires k + 1 < |p|
    ensures OidText.Join(p[k..]) == p[k] + "." + OidText.Join(p[k + 1..])
  {
    assert p[k..][1..] == p[k + 1..];
  }

  lemma {:induction false} ThreeBetween(sep: string, a: string, b: string, c: string, d: string)
    ensures a + sep + b + sep + c + sep + d == a + sep + (b + sep + (c + sep + d))
  {
    ConcatAssoc(a + sep + b + sep, c + sep, d);
    ConcatAssoc(a + sep, b + sep, c + sep + d);
    ConcatAssoc(a + sep + b + sep, c, sep);
    ConcatAssoc(a + sep, b, sep);
  }

  lemma {:induction false} JoinFour(p: seq<string>)
    requires |p| == 4
    ensures OidText.Join(p) == p[0] + "." + p[1] + "." + p[2] + "." + p[3]
  {
    JoinStep(p, 0);
    JoinStep(p, 1);
    JoinStep(p, 2);
    assert p[0..] == p && OidText.Join(p[3..]) == p[3];
    ThreeBetween(".", p[0], p[1], p[2], p[3]);
  }

  /** An address is read exactly from four bytes, as the dotted numbers they are. */
  lemma {:induction false} IPv4Meaning(v: Bytes)
    ensures ParseIPv4(v).Some? <==> |v| == 4
    ensures |v| == 4 ==> OidText.Parse(ParseIPv4(v).value) == Some(v) && ParseIPv4(v).value == OidText.Render(v)
  {
    if |v| == 4 {
      OidText.RenderParses(v);
      JoinFour(OidText.Parts(v));
    }
  }

  /** A flag is any byte: zero for off, and no byte at all is no flag. */
  lemma {:induction false} FlagMeaning(v: Bytes, on: bool)
    ensures ParseFlag(v) == Some(on) <==> |v| >= 1 && (on <==> v[0] != 0)
  {
  }

  /** The serial number is the text after a byte 0x01. */
  lemma {:induction false} SerialMeaning(v: Bytes)
    ensures ParseSerial(v).Some? <==> [0x01] <= v
    ensures ParseSerial(v).Some? ==> ParseSerial(v) == ParseText(v[1..])
  {
  }

  // ------------------------------------------------------------------
  // The values
  // ------------------------------------------------------------------

  ghost function SayText(s: string): Bytes {
    if Plain(s) then TextBytes(s) else []
  }

  ghost function SaySerial(s: string): Bytes {
    [0x01] + SayText(s)
  }

  ghost function SayByte(b: Byte): Bytes {
    [b]
  }

  ghost function SayFlag(on: bool): Bytes {
    [if on then 1 else 0]
  }

  ghost function SayBytes(b: Bytes): Bytes {
    b
  }

  ghost function SayStatus(s: PortStatus): Bytes {
    [s.port, s.speed, if s.flowControl then 1 else 0]
  }

  ghost function SayName(n: PortName): Bytes {
    [n.port] + if n.name.Some? then n.name.value else []
  }

  /** The counters this library does not read are zero. */
  ghost function SayStatistics(s: PortStatistics): Bytes {
    [s.port] + Big(s.received, 8) + Big(s.sent, 8) + Big(s.crcErrors, 8) + Zeros(24)
  }

  ghost function SayPvid(p: PortPvid): Bytes {
    [p.port] + Big(p.vlan, 2)
  }

  /** The octets it takes to give every port a bit. */
  ghost function Octets(portCount: nat): nat {
    if portCount <= 8 then (if portCount == 0 then 0 else 1) else 1 + Octets(portCount - 8)
  }

  ghost function SayPorts(ports: seq<int>, width: nat): Bytes {
    if Codable(ports) then Bitmap(ports, width) else []
  }

  ghost function SayMembers(m: Membership, portCount: nat): Bytes {
    Big(m.vlan, 2) + SayPorts(m.members, Octets(portCount)) + SayPorts(m.tagged, Octets(portCount))
  }

  ghost function MembersSayer(portCount: nat): Membership -> Bytes {
    m => SayMembers(m, portCount)
  }

  ghost function SayMirroring(m: Mirroring): Bytes {
    [m.destination] + SayPorts(m.sources, 0)
  }

  ghost function SayIgmp(g: Igmp): Bytes {
    [0, if g.enabled then 1 else 0, 0, if g.vlan.Some? then g.vlan.value else 0]
  }

  // ------------------------------------------------------------------
  // What can be said
  // ------------------------------------------------------------------

  ghost predicate SpeedCode(b: Byte) {
    b in {0, 1, 2, 3, 4, 5, 6, 0xFF}
  }

  ghost predicate PortList(ports: seq<int>, least: int, most: int) {
    Ascending(ports) && forall i :: 0 <= i < |ports| ==> least <= ports[i] <= most
  }

  lemma {:induction false} OctetsWidth(portCount: nat)
    ensures Octets(portCount) == BitmapWidth(portCount)
  {
    if portCount > 8 {
      OctetsWidth(portCount - 8);
    }
  }

  lemma {:induction false} StatusReads(s: PortStatus)
    requires SpeedCode(s.speed)
    ensures ParsePortStatus(SayStatus(s)) == Some(s)
  {
  }

  lemma {:induction false} NameReads(n: PortName)
    requires n.name.Some? ==> n.name.value != [] && n.name.value[|n.name.value| - 1] != 0
    ensures ParsePortName(SayName(n)) == Some(n)
  {
    assert SayName(n)[1..] == if n.name.Some? then n.name.value else [];
  }

  lemma {:induction false} Big64(n: nat)
    requires n < 0x1_0000_0000_0000_0000
    ensures Get64(Big(n, 8)) == n
  {
    assert Pow256(8) == 0x1_0000_0000_0000_0000 by {
      assert Pow256(4) == 0x1_0000_0000;
    }
    BigLow(n, 8);
    Get64Meaning(Big(n, 8));
  }

  lemma {:induction false} Big16(n: U16)
    ensures Get16(Big(n, 2)) == n
  {
    BigLow(n, 2);
    Get16Meaning(Big(n, 2));
  }

  lemma {:induction false} StatisticsReads(s: PortStatistics)
    requires s.received < 0x1_0000_0000_0000_0000 && s.sent < 0x1_0000_0000_0000_0000
    requires s.crcErrors < 0x1_0000_0000_0000_0000
    ensures ParsePortStatistics(SayStatistics(s)) == Some(s)
  {
    var v := SayStatistics(s);
    Big64(s.received);
    Big64(s.sent);
    Big64(s.crcErrors);
    assert v[1..9] == Big(s.received, 8) && v[9..17] == Big(s.sent, 8) && v[17..25] == Big(s.crcErrors, 8);
  }

  lemma {:induction false} PvidReads(p: PortPvid)
    ensures ParsePortPvid(SayPvid(p)) == Some(p)
  {
    Big16(p.vlan);
    assert SayPvid(p)[1..3] == Big(p.vlan, 2);
  }

  lemma {:induction false} PortsRead(ports: seq<int>, width: nat)
    requires PortList(ports, 1, 8 * width)
    ensures |SayPorts(ports, width)| == width && Ports(SayPorts(ports, width)) == ports
  {
    BitmapFits(ports, width);
    DecodeEncoded(ports, width);
  }

  lemma {:induction false} ThreeParts(a: Bytes, b: Bytes, c: Bytes)
    ensures var v := a + b + c;
            v[0..|a|] == a && v[|a|..|a| + |b|] == b && v[|a| + |b|..|a| + |b| + |c|] == c
  {
  }

  lemma {:induction false} MembersRead(m: Membership, portCount: nat)
    requires PortList(m.members, 1, 8 * Octets(portCount)) && PortList(m.tagged, 1, 8 * Octets(portCount))
    ensures ParseVlanMembers(SayMembers(m, portCount), portCount) == Some(m)
  {
    var v, w := SayMembers(m, portCount), Octets(portCount);
    OctetsWidth(portCount);
    PortsRead(m.members, w);
    PortsRead(m.tagged, w);
    Big16(m.vlan);
    ThreeParts(Big(m.vlan, 2), SayPorts(m.members, w), SayPorts(m.tagged, w));
  }

  /** The sources' bitmap has any width: the value is as long as it is. */
  lemma {:induction false} MirroringReads(m: Mirroring, width: nat)
    requires Ascending(m.sources) && forall i :: 0 <= i < |m.sources| ==> m.sources[i] >= 1
    ensures ParseMirroring([m.destination] + SayPorts(m.sources, width)) == Some(m)
  {
    DecodeEncoded(m.sources, width);
    assert ([m.destination] + SayPorts(m.sources, width))[1..] == SayPorts(m.sources, width);
  }

  lemma {:induction false} IgmpReads(g: Igmp)
    requires g.vlan != Some(0)
    ensures ParseIgmp(SayIgmp(g)) == Some(g)
  {
  }

  /** Which values are refused, by the numbers of the tags: those their parsers refuse,
      except that an empty VLAN engine is passed over. */
  ghost predicate Refused(t: Tlv, portCount: nat) {
    var v := t.value;
    || (t.tag == 0x0004 && ParseMac(v).None?)
    || (t.tag in {0x0006, 0x0007, 0x0008} && ParseIPv4(v).None?)
    || (t.tag == 0x7800 && ParseSerial(v).None?)
    || (t.tag == 0x2000 && ParseVlanEngine(v).None? && v != [])
    || (t.tag == 0x0C00 && ParsePortStatus(v).None?)
    || (t.tag == 0xB000 && ParsePortName(v).None?)
    || (t.tag == 0x1000 && ParsePortStatistics(v).None?)
    || (t.tag == 0x2800 && ParseVlanMembers(v, portCount).None?)
    || (t.tag == 0x3000 && ParsePortPvid(v).None?)
    || (t.tag == 0x5C00 && ParseMirroring(v).None?)
    || (t.tag == 0x6800 && ParseIgmp(v).None?)
  }

  lemma {:induction false} RefusedMeaning(t: Tlv, portCount: nat)
    ensures Malformed(t, portCount) <==> Refused(t, portCount)
  {
  }

  // ------------------------------------------------------------------
  // A report
  // ------------------------------------------------------------------

  /** What is said, one value for each thing there is to say. */
  ghost function Sayings<T>(things: seq<T>, say: T -> Bytes): seq<Bytes> {
    if things == [] then [] else Sayings(things[..|things| - 1], say) + [say(things[|things| - 1])]
  }

  ghost function Tagged(tag: U16, values: seq<Bytes>): seq<Tlv> {
    if values == [] then [] else Tagged(tag, values[..|values| - 1]) + [Tlv(tag, values[|values| - 1])]
  }

  ghost function Listed<T>(x: Option<T>): seq<T> {
    if x.Some? then [x.value] else []
  }

  ghost function Say<T>(tag: U16, things: seq<T>, say: T -> Bytes): seq<Tlv> {
    Tagged(tag, Sayings(things, say))
  }

  lemma {:induction false} TaggedValues(tag: U16, values: seq<Bytes>, other: U16)
    ensures Values(Tagged(tag, values), other) == if other == tag then values else []
  {
    if values != [] {
      var n := |values| - 1;
      TaggedValues(tag, values[..n], other);
      assert Tagged(tag, values)[..|Tagged(tag, values)| - 1] == Tagged(tag, values[..n]);
      assert values == values[..n] + [values[n]];
    }
  }

  /** What is read of a tag when each value reads as what was said. */
  lemma {:induction false} Heard<T>(things: seq<T>, say: T -> Bytes, parse: Bytes -> Option<T>)
    requires forall i :: 0 <= i < |things| ==> parse(say(things[i])) == Some(things[i])
    ensures Parsed(Sayings(things, say), parse) == things
  {
    if things != [] {
      var n := |things| - 1;
      Heard(things[..n], say, parse);
      var vs := Sayings(things[..n], say);
      assert (vs + [say(things[n])])[..|vs|] == vs;
      assert things == things[..n] + [things[n]];
    }
  }

  /** A tag's values in the report, and nothing else under that tag. */
  ghost predicate Says<T>(tlvs: seq<Tlv>, tag: U16, things: seq<T>, say: T -> Bytes) {
    Values(tlvs, tag) == Sayings(things, say)
  }

  lemma {:induction false} AllHeard<T>(tlvs: seq<Tlv>, tag: U16, things: seq<T>, say: T -> Bytes, parse: Bytes -> Option<T>)
    requires Says(tlvs, tag, things, say)
    requires forall i :: 0 <= i < |things| ==> parse(say(things[i])) == Some(things[i])
    ensures All(tlvs, tag, parse) == things
  {
    Heard(things, say, parse);
  }

  lemma {:induction false} OneHeard<T>(tlvs: seq<Tlv>, tag: U16, thing: Option<T>, say: T -> Bytes, parse: Bytes -> Option<T>)
    requires Says(tlvs, tag, Listed(thing), say)
    requires thing.Some? ==> parse(say(thing.value)) == thing
    ensures Newest(tlvs, tag, parse) == thing
  {
    AllHeard(tlvs, tag, Listed(thing), say, parse);
  }

  /** The addresses of a device, as bytes. */
  datatype Addresses = Addresses(mac: Option<Bytes>, ip: Option<Bytes>, netmask: Option<Bytes>, gateway: Option<Bytes>)

  ghost function SayIdentity(f: Identity): seq<Tlv> {
    Say(0x0003, Listed(f.hostname), SayText) + Say(0x000D, Listed(f.firmware), SayText)
    + Say(0x7800, Listed(f.serial), SaySerial) + Say(0x6000, Listed(f.portCount), SayByte)
  }

  ghost function SayNetwork(f: Network, a: Addresses): seq<Tlv> {
    Say(0x0006, Listed(a.ip), SayBytes) + Say(0x0007, Listed(a.netmask), SayBytes)
    + Say(0x0008, Listed(a.gateway), SayBytes) + Say(0x000B, Listed(f.dhcp), SayFlag)
  }

  ghost function SayTables(f: Tables, portCount: nat): seq<Tlv> {
    Say(0x0C00, f.status, SayStatus) + Say(0xB000, f.names, SayName)
    + Say(0x1000, f.statistics, SayStatistics) + Say(0x2800, f.members, MembersSayer(portCount))
    + Say(0x3000, f.pvids, SayPvid)
  }

  ghost function SayFeatures(f: Features): seq<Tlv> {
    Say(0x2000, Listed(f.vlanEngine), SayByte) + Say(0x3400, Listed(f.qosEngine), SayByte)
    + Say(0x5C00, Listed(f.mirroring), SayMirroring) + Say(0x6800, Listed(f.igmp), SayIgmp)
    + Say(0x5400, Listed(f.broadcastFiltering), SayFlag) + Say(0x9000, Listed(f.loopDetection), SayFlag)
  }

  ghost function SayNames(d: Device, a: Addresses): seq<Tlv> {
    Say(0x0001, [d.model], SayText) + Say(0x0004, Listed(a.mac), SayBytes)
  }

  /** The ports there are: what the device says, or eight. */
  ghost function PortsOf(d: Device): nat {
    if d.fields.identity.portCount.Some? then d.fields.identity.portCount.value else 8
  }

  ghost function Report(d: Device, a: Addresses): seq<Tlv> {
    SayNames(d, a) + SayIdentity(d.fields.identity) + SayNetwork(d.fields.network, a)
    + SayTables(d.fields.tables, PortsOf(d)) + SayFeatures(d.fields.features)
  }

  // ------------------------------------------------------------------
  // The values of each tag
  // ------------------------------------------------------------------

  /** What a tag has, if it is this one. */
  ghost function At<T>(other: U16, tag: U16, things: seq<T>, say: T -> Bytes): seq<Bytes> {
    if other == tag then Sayings(things, say) else []
  }

  lemma {:induction false} SayValues<T>(tag: U16, things: seq<T>, say: T -> Bytes, other: U16)
    ensures Values(Say(tag, things, say), other) == At(other, tag, things, say)
  {
    TaggedValues(tag, Sayings(things, say), other);
  }

  lemma {:induction false} TwoValues(a: seq<Tlv>, b: seq<Tlv>, tag: U16, u: seq<Bytes>, v: seq<Bytes>)
    requires Values(a, tag) == u && Values(b, tag) == v
    ensures Values(a + b, tag) == u + v
  {
    ValuesConcat(a, b, tag);
  }

  lemma {:induction false} NamesValues(d: Device, a: Addresses, t: U16)
    ensures Values(SayNames(d, a), t) == At(t, 0x0001, [d.model], SayText) + At(t, 0x0004, Listed(a.mac), SayBytes)
  {
    SayValues(0x0001, [d.model], SayText, t);
    SayValues(0x0004, Listed(a.mac), SayBytes, t);
    ValuesConcat(Say(0x0001, [d.model], SayText), Say(0x0004, Listed(a.mac), SayBytes), t);
  }

  lemma {:induction false} FourValues(a: seq<Tlv>, b: seq<Tlv>, c: seq<Tlv>, d: seq<Tlv>, t: U16)
    ensures Values(a + b + c + d, t) == Values(a, t) + Values(b, t) + Values(c, t) + Values(d, t)
  {
    ValuesConcat(a, b, t);
    ValuesConcat(a + b, c, t);
    ValuesConcat(a + b + c, d, t);
  }

  lemma {:induction false} IdentityValues(f: Identity, t: U16)
    ensures Values(SayIdentity(f), t)
         == At(t, 0x0003, Listed(f.hostname), SayText) + At(t, 0x000D, Listed(f.firmware), SayText)
            + At(t, 0x7800, Listed(f.serial), SaySerial) + At(t, 0x6000, Listed(f.portCount), SayByte)
  {
    SayValues(0x0003, Listed(f.hostname), SayText, t);
    SayValues(0x000D, Listed(f.firmware), SayText, t);
    SayValues(0x7800, Listed(f.serial), SaySerial, t);
    SayValues(0x6000, Listed(f.portCount), SayByte, t);
    FourValues(Say(0x0003, Listed(f.hostname), SayText), Say(0x000D, Listed(f.firmware), SayText),
               Say(0x7800, Listed(f.serial), SaySerial), Say(0x6000, Listed(f.portCount), SayByte), t);
  }

  lemma {:induction false} NetworkValues(f: Network, a: Addresses, t: U16)
    ensures Values(SayNetwork(f, a), t)
         == At(t, 0x0006, Listed(a.ip), SayBytes) + At(t, 0x0007, Listed(a.netmask), SayBytes)
            + At(t, 0x0008, Listed(a.gateway), SayBytes) + At(t, 0x000B, Listed(f.dhcp), SayFlag)
  {
    SayValues(0x0006, Listed(a.ip), SayBytes, t);
    SayValues(0x0007, Listed(a.netmask), SayBytes, t);
    SayValues(0x0008, Listed(a.gateway), SayBytes, t);
    SayValues(0x000B, Listed(f.dhcp), SayFlag, t);
    FourValues(Say(0x0006, Listed(a.ip), SayBytes), Say(0x0007, Listed(a.netmask), SayBytes),
               Say(0x0008, Listed(a.gateway), SayBytes), Say(0x000B, Listed(f.dhcp), SayFlag), t);
  }

  lemma {:induction false} TablesValues(f: Tables, portCount: nat, t: U16)
    ensures Values(SayTables(f, portCount), t)
         == At(t, 0x0C00, f.status, SayStatus) + At(t, 0xB000, f.names, SayName)
            + At(t, 0x1000, f.statistics, SayStatistics) + At(t, 0x2800, f.members, MembersSayer(portCount))
            + At(t, 0x3000, f.pvids, SayPvid)
  {
    SayValues(0x0C00, f.status, SayStatus, t);
    SayValues(0xB000, f.names, SayName, t);
    SayValues(0x1000, f.statistics, SayStatistics, t);
    SayValues(0x2800, f.members, MembersSayer(portCount), t);
    SayValues(0x3000, f.pvids, SayPvid, t);
    var four := Say(0x0C00, f.status, SayStatus) + Say(0xB000, f.names, SayName)
                + Say(0x1000, f.statistics, SayStatistics) + Say(0x2800, f.members, MembersSayer(portCount));
    FourValues(Say(0x0C00, f.status, SayStatus), Say(0xB000, f.names, SayName),
               Say(0x1000, f.statistics, SayStatistics), Say(0x2800, f.members, MembersSayer(portCount)), t);
    ValuesConcat(four, Say(0x3000, f.pvids, SayPvid), t);
  }

  lemma {:induction false} FeaturesValues(f: Features, t: U16)
    ensures Values(SayFeatures(f), t)
         == At(t, 0x2000, Listed(f.vlanEngine), SayByte) + At(t, 0x3400, Listed(f.qosEngine), SayByte)
            + At(t, 0x5C00, Listed(f.mirroring), SayMirroring) + At(t, 0x6800, Listed(f.igmp), SayIgmp)
            + At(t, 0x5400, Listed(f.broadcastFiltering), SayFlag) + At(t, 0x9000, Listed(f.loopDetection), SayFlag)
  {
    SayValues(0x2000, Listed(f.vlanEngine), SayByte, t);
    SayValues(0x3400, Listed(f.qosEngine), SayByte, t);
    SayValues(0x5C00, Listed(f.mirroring), SayMirroring, t);
    SayValues(0x6800, Listed(f.igmp), SayIgmp, t);
    SayValues(0x5400, Listed(f.broadcastFiltering), SayFlag, t);
    SayValues(0x9000, Listed(f.loopDetection), SayFlag, t);
    var four := Say(0x2000, Listed(f.vlanEngine), SayByte) + Say(0x3400, Listed(f.qosEngine), SayByte)
                + Say(0x5C00, Listed(f.mirroring), SayMirroring) + Say(0x6800, Listed(f.igmp), SayIgmp);
    FourValues(Say(0x2000, Listed(f.vlanEngine), SayByte), Say(0x3400, Listed(f.qosEngine), SayByte),
               Say(0x5C00, Listed(f.mirroring), SayMirroring), Say(0x6800, Listed(f.igmp), SayIgmp), t);
    ValuesConcat(four, Say(0x5400, Listed(f.broadcastFiltering), SayFlag), t);
    ValuesConcat(four + Say(0x5400, Listed(f.broadcastFiltering), SayFlag), Say(0x9000, Listed(f.loopDetection), SayFlag), t);
  }

  lemma {:induction false} ReportValues(d: Device, a: Addresses, t: U16)
    ensures Values(Report(d, a), t)
         == Values(SayNames(d, a), t) + Values(SayIdentity(d.fields.identity), t)
            + Values(SayNetwork(d.fields.network, a), t)
            + Values(SayTables(d.fields.tables, PortsOf(d)), t) + Values(SayFeatures(d.fields.features), t)
  {
    FourValues(SayNames(d, a), SayIdentity(d.fields.identity), SayNetwork(d.fields.network, a),
               SayTables(d.fields.tables, PortsOf(d)), t);
    ValuesConcat(SayNames(d, a) + SayIdentity(d.fields.identity) + SayNetwork(d.fields.network, a)
                 + SayTables(d.fields.tables, PortsOf(d)), SayFeatures(d.fields.features), t);
  }

  // ------------------------------------------------------------------
  // Reading it back
  // ------------------------------------------------------------------

  ghost predicate PlainText(s: Option<string>) {
    s.Some? ==> Plain(s.value)
  }

  ghost predicate SayableIdentity(f: Identity) {
    PlainText(f.hostname) && PlainText(f.firmware) && PlainText(f.serial)
  }

  /** The dotted text of four bytes. */
  ghost predicate Addressed(text: Option<string>, b: Option<Bytes>) {
    if b.None? then text.None? else |b.value| == 4 && text == Some(OidText.Render(b.value))
  }

  ghost predicate SayableNetwork(f: Network, a: Addresses) {
    Addressed(f.ip, a.ip) && Addressed(f.netmask, a.netmask) && Addressed(f.gateway, a.gateway)
  }

  ghost predicate SayableName(n: PortName) {
    n.name.Some? ==> n.name.value != [] && n.name.value[|n.name.value| - 1] != 0
  }

  ghost predicate SayableStatistics(s: PortStatistics) {
    s.received < 0x1_0000_0000_0000_0000 && s.sent < 0x1_0000_0000_0000_0000 && s.crcErrors < 0x1_0000_0000_0000_0000
  }

  ghost predicate SayableMembers(m: Membership, portCount: nat) {
    PortList(m.members, 1, 8 * Octets(portCount)) && PortList(m.tagged, 1, 8 * Octets(portCount))
  }

  ghost predicate SayableTables(f: Tables, portCount: nat) {
    && (forall i :: 0 <= i < |f.status| ==> SpeedCode(f.status[i].speed))
    && (forall i :: 0 <= i < |f.names| ==> SayableName(f.names[i]))
    && (forall i :: 0 <= i < |f.statistics| ==> SayableStatistics(f.statistics[i]))
    && (forall i :: 0 <= i < |f.members| ==> SayableMembers(f.members[i], portCount))
  }

  ghost predicate SayableMirroring(m: Mirroring) {
    Ascending(m.sources) && forall i :: 0 <= i < |m.sources| ==> m.sources[i] >= 1
  }

  ghost predicate SayableFeatures(f: Features) {
    && (f.vlanEngine.Some? ==> f.vlanEngine.value <= 4)
    && (f.mirroring.Some? ==> SayableMirroring(f.mirroring.value))
    && (f.igmp.Some? ==> f.igmp.value.vlan != Some(0))
  }

  /** Everything the fields can hold: plain texts, dotted addresses, speeds with a code,
      64-bit counters, ascending port lists within the octets there are. */
  ghost predicate Sayable(d: Device, a: Addresses) {
    && Plain(d.model) && (a.mac.Some? ==> |a.mac.value| == 6)
    && SayableIdentity(d.fields.identity) && SayableNetwork(d.fields.network, a)
    && SayableTables(d.fields.tables, PortsOf(d)) && SayableFeatures(d.fields.features)
  }

  lemma {:induction false} NoNames(d: Device, a: Addresses, t: U16)
    requires t !in {0x0001, 0x0004}
    ensures Values(SayNames(d, a), t) == []
  {
    NamesValues(d, a, t);
  }

  lemma {:induction false} NoIdentity(f: Identity, t: U16)
    requires t !in {0x0003, 0x000D, 0x7800, 0x6000}
    ensures Values(SayIdentity(f), t) == []
  {
    IdentityValues(f, t);
  }

  lemma {:induction false} NoNetwork(f: Network, a: Addresses, t: U16)
    requires t !in {0x0006, 0x0007, 0x0008, 0x000B}
    ensures Values(SayNetwork(f, a), t) == []
  {
    NetworkValues(f, a, t);
  }

  lemma {:induction false} NoTables(f: Tables, portCount: nat, t: U16)
    requires t !in {0x0C00, 0xB000, 0x1000, 0x2800, 0x3000}
    ensures Values(SayTables(f, portCount), t) == []
  {
    TablesValues(f, portCount, t);
  }

  lemma {:induction false} NoFeatures(f: Features, t: U16)
    requires t !in {0x2000, 0x3400, 0x5C00, 0x6800, 0x5400, 0x9000}
    ensures Values(SayFeatures(f), t) == []
  {
    FeaturesValues(f, t);
  }

  lemma {:induction false} OneOfFive<T>(x: seq<T>)
    ensures x + [] + [] + [] + [] == x && [] + x + [] + [] + [] == x && [] + [] + x + [] + [] == x
    ensures [] + [] + [] + x + [] == x && [] + [] + [] + [] + x == x
  {
  }

  lemma {:induction false} OnlyNames(d: Device, a: Addresses, t: U16)
    requires t in {0x0001, 0x0004}
    ensures Values(Report(d, a), t) == Values(SayNames(d, a), t)
  {
    ReportValues(d, a, t);
    NoIdentity(d.fields.identity, t);
    NoNetwork(d.fields.network, a, t);
    NoTables(d.fields.tables, PortsOf(d), t);
    NoFeatures(d.fields.features, t);
    OneOfFive(Values(SayNames(d, a), t));
  }

  lemma {:induction false} OnlyIdentity(d: Device, a: Addresses, t: U16)
    requires t in {0x0003, 0x000D, 0x7800, 0x6000}
    ensures Values(Report(d, a), t) == Values(SayIdentity(d.fields.identity), t)
  {
    ReportValues(d, a, t);
    NoNames(d, a, t);
    NoNetwork(d.fields.network, a, t);
    NoTables(d.fields.tables, PortsOf(d), t);
    NoFeatures(d.fields.features, t);
    OneOfFive(Values(SayIdentity(d.fields.identity), t));
  }

  lemma {:induction false} OnlyNetwork(d: Device, a: Addresses, t: U16)
    requires t in {0x0006, 0x0007, 0x0008, 0x000B}
    ensures Values(Report(d, a), t) == Values(SayNetwork(d.fields.network, a), t)
  {
    ReportValues(d, a, t);
    NoNames(d, a, t);
    NoIdentity(d.fields.identity, t);
    NoTables(d.fields.tables, PortsOf(d), t);
    NoFeatures(d.fields.features, t);
    OneOfFive(Values(SayNetwork(d.fields.network, a), t));
  }

  lemma {:induction false} OnlyTables(d: Device, a: Addresses, t: U16)
    requires t in {0x0C00, 0xB000, 0x1000, 0x2800, 0x3000}
    ensures Values(Report(d, a), t) == Values(SayTables(d.fields.tables, PortsOf(d)), t)
  {
    ReportValues(d, a, t);
    NoNames(d, a, t);
    NoIdentity(d.fields.identity, t);
    NoNetwork(d.fields.network, a, t);
    NoFeatures(d.fields.features, t);
    OneOfFive(Values(SayTables(d.fields.tables, PortsOf(d)), t));
  }

  lemma {:induction false} OnlyFeatures(d: Device, a: Addresses, t: U16)
    requires t in {0x2000, 0x3400, 0x5C00, 0x6800, 0x5400, 0x9000}
    ensures Values(Report(d, a), t) == Values(SayFeatures(d.fields.features), t)
  {
    ReportValues(d, a, t);
    NoNames(d, a, t);
    NoIdentity(d.fields.identity, t);
    NoNetwork(d.fields.network, a, t);
    NoTables(d.fields.tables, PortsOf(d), t);
    OneOfFive(Values(SayFeatures(d.fields.features), t));
  }

  lemma {:induction false} NamesSay(d: Device, a: Addresses)
    ensures Says(Report(d, a), 0x0001, [d.model], SayText) && Says(Report(d, a), 0x0004, Listed(a.mac), SayBytes)
  {
    OnlyNames(d, a, 0x0001);
    NamesValues(d, a, 0x0001);
    OnlyNames(d, a, 0x0004);
    NamesValues(d, a, 0x0004);
  }

  lemma {:induction false} IdentitySays(d: Device, a: Addresses)
    ensures var r, f := Report(d, a), d.fields.identity;
            && Says(r, 0x0003, Listed(f.hostname), SayText) && Says(r, 0x000D, Listed(f.firmware), SayText)
            && Says(r, 0x7800, Listed(f.serial), SaySerial) && Says(r, 0x6000, Listed(f.portCount), SayByte)
  {
    var f := d.fields.identity;
    OnlyIdentity(d, a, 0x0003);
    IdentityValues(f, 0x0003);
    OnlyIdentity(d, a, 0x000D);
    IdentityValues(f, 0x000D);
    OnlyIdentity(d, a, 0x7800);
    IdentityValues(f, 0x7800);
    OnlyIdentity(d, a, 0x6000);
    IdentityValues(f, 0x6000);
  }

  lemma {:induction false} NetworkSays(d: Device, a: Addresses)
    ensures var r, f := Report(d, a), d.fields.network;
            && Says(r, 0x0006, Listed(a.ip), SayBytes) && Says(r, 0x0007, Listed(a.netmask), SayBytes)
            && Says(r, 0x0008, Listed(a.gateway), SayBytes) && Says(r, 0x000B, Listed(f.dhcp), SayFlag)
  {
    var f := d.fields.network;
    OnlyNetwork(d, a, 0x0006);
    NetworkValues(f, a, 0x0006);
    OnlyNetwork(d, a, 0x0007);
    NetworkValues(f, a, 0x0007);
    OnlyNetwork(d, a, 0x0008);
    NetworkValues(f, a, 0x0008);
    OnlyNetwork(d, a, 0x000B);
    NetworkValues(f, a, 0x000B);
  }

  lemma {:induction false} TablesSay(d: Device, a: Addresses)
    ensures var r, f, n := Report(d, a), d.fields.tables, PortsOf(d);
            && Says(r, 0x0C00, f.status, SayStatus) && Says(r, 0xB000, f.names, SayName)
            && Says(r, 0x1000, f.statistics, SayStatistics) && Says(r, 0x2800, f.members, MembersSayer(n))
            && Says(r, 0x3000, f.pvids, SayPvid)
  {
    var f, n := d.fields.tables, PortsOf(d);
    OnlyTables(d, a, 0x0C00);
    TablesValues(f, n, 0x0C00);
    OnlyTables(d, a, 0xB000);
    TablesValues(f, n, 0xB000);
    OnlyTables(d, a, 0x1000);
    TablesValues(f, n, 0x1000);
    OnlyTables(d, a, 0x2800);
    TablesValues(f, n, 0x2800);
    OnlyTables(d, a, 0x3000);
    TablesValues(f, n, 0x3000);
  }

  lemma {:induction false} FeaturesSay(d: Device, a: Addresses)
    ensures var r, f := Report(d, a), d.fields.features;
            && Says(r, 0x2000, Listed(f.vlanEngine), SayByte) && Says(r, 0x3400, Listed(f.qosEngine), SayByte)
            && Says(r, 0x5C00, Listed(f.mirroring), SayMirroring) && Says(r, 0x6800, Listed(f.igmp), SayIgmp)
            && Says(r, 0x5400, Listed(f.broadcastFiltering), SayFlag) && Says(r, 0x9000, Listed(f.loopDetection), SayFlag)
  {
    var f := d.fields.features;
    OnlyFeatures(d, a, 0x2000);
    FeaturesValues(f, 0x2000);
    OnlyFeatures(d, a, 0x3400);
    FeaturesValues(f, 0x3400);
    OnlyFeatures(d, a, 0x5C00);
    FeaturesValues(f, 0x5C00);
    OnlyFeatures(d, a, 0x6800);
    FeaturesValues(f, 0x6800);
    OnlyFeatures(d, a, 0x5400);
    FeaturesValues(f, 0x5400);
    OnlyFeatures(d, a, 0x9000);
    FeaturesValues(f, 0x9000);
  }

  lemma {:induction false} PlainReads(s: Option<string>)
    requires PlainText(s)
    ensures s.Some? ==> ParseText(SayText(s.value)) == s && ParseSerial(SaySerial(s.value)) == s
  {
    if s.Some? {
      TextReads(s.value);
      assert SaySerial(s.value)[1..] == SayText(s.value);
    }
  }

  lemma {:induction false} IdentityHeard(d: Device, a: Addresses)
    requires SayableIdentity(d.fields.identity)
    ensures IdentityOf(Report(d, a)) == d.fields.identity
  {
    var r, f := Report(d, a), d.fields.identity;
    IdentitySays(d, a);
    PlainReads(f.hostname);
    PlainReads(f.firmware);
    PlainReads(f.serial);
    OneHeard(r, TAG_HOSTNAME, f.hostname, SayText, ParseText);
    OneHeard(r, TAG_FIRMWARE_VER_1, f.firmware, SayText, ParseText);
    OneHeard(r, TAG_SERIAL_NUMBER, f.serial, SaySerial, ParseSerial);
    OneHeard(r, TAG_PORT_COUNT, f.portCount, SayByte, ParseByte);
  }

  lemma {:induction false} OneSaying<T>(thing: T, say: T -> Bytes)
    ensures Sayings([thing], say) == [say(thing)]
  {
    assert [thing][..0] == [];
  }

  /** The last reading of a tag with one value at most. */
  lemma {:induction false} OneRead<T>(tlvs: seq<Tlv>, tag: U16, v: Option<Bytes>, parse: Bytes -> Option<T>)
    requires Says(tlvs, tag, Listed(v), SayBytes)
    ensures Newest(tlvs, tag, parse) == if v.Some? then parse(v.value) else None
  {
    if v.Some? {
      OneSaying(v.value, SayBytes);
      assert [v.value][..0] == [];
      assert Parsed([v.value], parse) == Add([], parse(v.value));
    }
  }

  lemma {:induction false} AddressHeard(tlvs: seq<Tlv>, tag: U16, text: Option<string>, b: Option<Bytes>)
    requires Says(tlvs, tag, Listed(b), SayBytes) && Addressed(text, b)
    ensures Newest(tlvs, tag, ParseIPv4) == text
  {
    OneRead(tlvs, tag, b, ParseIPv4);
    if b.Some? {
      IPv4Meaning(b.value);
    }
  }

  lemma {:induction false} FlagReads(on: Option<bool>)
    ensures on.Some? ==> ParseFlag(SayFlag(on.value)) == on
  {
  }

  lemma {:induction false} FlagHeard(tlvs: seq<Tlv>, tag: U16, on: Option<bool>)
    requires Says(tlvs, tag, Listed(on), SayFlag)
    ensures Newest(tlvs, tag, ParseFlag) == on
  {
    FlagReads(on);
    OneHeard(tlvs, tag, on, SayFlag, ParseFlag);
  }

  lemma {:induction false} NetworkHeard(d: Device, a: Addresses)
    requires SayableNetwork(d.fields.network, a)
    ensures NetworkOf(Report(d, a)) == d.fields.network
  {
    var r, f := Report(d, a), d.fields.network;
    NetworkSays(d, a);
    NetworkParts(r, f, a);
  }

  lemma {:induction false} NetworkParts(r: seq<Tlv>, f: Network, a: Addresses)
    requires SayableNetwork(f, a)
    requires Says(r, 0x0006, Listed(a.ip), SayBytes) && Says(r, 0x0007, Listed(a.netmask), SayBytes)
    requires Says(r, 0x0008, Listed(a.gateway), SayBytes) && Says(r, 0x000B, Listed(f.dhcp), SayFlag)
    ensures NetworkOf(r) == f
  {
    AddressHeard(r, TAG_IP_ADDRESS, f.ip, a.ip);
    AddressHeard(r, TAG_NETMASK, f.netmask, a.netmask);
    AddressHeard(r, TAG_GATEWAY, f.gateway, a.gateway);
    FlagHeard(r, TAG_DHCP_MODE, f.dhcp);
  }

  lemma {:induction false} EntriesRead(f: Tables, portCount: nat)
    requires SayableTables(f, portCount)
    ensures forall i :: 0 <= i < |f.status| ==> ParsePortStatus(SayStatus(f.status[i])) == Some(f.status[i])
    ensures forall i :: 0 <= i < |f.names| ==> ParsePortName(SayName(f.names[i])) == Some(f.names[i])
    ensures forall i :: 0 <= i < |f.statistics| ==> ParsePortStatistics(SayStatistics(f.statistics[i])) == Some(f.statistics[i])
    ensures forall i :: 0 <= i < |f.members| ==> ParseVlanMembers(SayMembers(f.members[i], portCount), portCount) == Some(f.members[i])
    ensures forall i :: 0 <= i < |f.pvids| ==> ParsePortPvid(SayPvid(f.pvids[i])) == Some(f.pvids[i])
  {
    forall i | 0 <= i < |f.status| ensures ParsePortStatus(SayStatus(f.status[i])) == Some(f.status[i]) {
      StatusReads(f.status[i]);
    }
    forall i | 0 <= i < |f.names| ensures ParsePortName(SayName(f.names[i])) == Some(f.names[i]) {
      NameReads(f.names[i]);
    }
    forall i | 0 <= i < |f.statistics| ensures ParsePortStatistics(SayStatistics(f.statistics[i])) == Some(f.statistics[i]) {
      StatisticsReads(f.statistics[i]);
    }
    forall i | 0 <= i < |f.members|
      ensures ParseVlanMembers(SayMembers(f.members[i], portCount), portCount) == Some(f.members[i])
    {
      MembersRead(f.members[i], portCount);
    }
    forall i | 0 <= i < |f.pvids| ensures ParsePortPvid(SayPvid(f.pvids[i])) == Some(f.pvids[i]) {
      PvidReads(f.pvids[i]);
    }
  }

  lemma {:induction false} TablesHeard(d: Device, a: Addresses)
    requires SayableTables(d.fields.tables, PortsOf(d))
    ensures TablesOf(Report(d, a), PortsOf(d)) == d.fields.tables
  {
    var r, f, n := Report(d, a), d.fields.tables, PortsOf(d);
    TablesSay(d, a);
    EntriesRead(f, n);
    AllHeard(r, TAG_PORT_STATUS, f.status, SayStatus, ParsePortStatus);
    AllHeard(r, TAG_PORT_NAME, f.names, SayName, ParsePortName);
    AllHeard(r, TAG_PORT_STATISTICS, f.statistics, SayStatistics, ParsePortStatistics);
    AllHeard(r, TAG_VLAN_MEMBERS, f.members, MembersSayer(n), VlanMembersParser(n));
    AllHeard(r, TAG_PORT_PVID, f.pvids, SayPvid, ParsePortPvid);
  }

  lemma {:induction false} FeatureValuesRead(f: Features)
    requires SayableFeatures(f)
    ensures f.vlanEngine.Some? ==> ParseVlanEngine(SayByte(f.vlanEngine.value)) == f.vlanEngine
    ensures f.mirroring.Some? ==> ParseMirroring(SayMirroring(f.mirroring.value)) == f.mirroring
    ensures f.igmp.Some? ==> ParseIgmp(SayIgmp(f.igmp.value)) == f.igmp
  {
    if f.mirroring.Some? {
      MirroringReads(f.mirroring.value, 0);
    }
    if f.igmp.Some? {
      IgmpReads(f.igmp.value);
    }
  }

  lemma {:induction false} FeaturesHeard(d: Device, a: Addresses)
    requires SayableFeatures(d.fields.features)
    ensures FeaturesOf(Report(d, a)) == d.fields.features
  {
    var r, f := Report(d, a), d.fields.features;
    FeaturesSay(d, a);
    FeatureValuesRead(f);
    FeaturesParts(r, f);
  }

  lemma {:induction false} FeaturesParts(r: seq<Tlv>, f: Features)
    requires Says(r, 0x2000, Listed(f.vlanEngine), SayByte) && Says(r, 0x3400, Listed(f.qosEngine), SayByte)
    requires Says(r, 0x5C00, Listed(f.mirroring), SayMirroring) && Says(r, 0x6800, Listed(f.igmp), SayIgmp)
    requires Says(r, 0x5400, Listed(f.broadcastFiltering), SayFlag) && Says(r, 0x9000, Listed(f.loopDetection), SayFlag)
    requires f.vlanEngine.Some? ==> ParseVlanEngine(SayByte(f.vlanEngine.value)) == f.vlanEngine
    requires f.mirroring.Some? ==> ParseMirroring(SayMirroring(f.mirroring.value)) == f.mirroring
    requires f.igmp.Some? ==> ParseIgmp(SayIgmp(f.igmp.value)) == f.igmp
    ensures FeaturesOf(r) == f
  {
    OneHeard(r, TAG_VLAN_ENGINE, f.vlanEngine, SayByte, ParseVlanEngine);
    OneHeard(r, TAG_QOS_ENGINE, f.qosEngine, SayByte, ParseByte);
    OneHeard(r, TAG_PORT_MIRRORING, f.mirroring, SayMirroring, ParseMirroring);
    OneHeard(r, TAG_IGMP_SNOOPING, f.igmp, SayIgmp, ParseIgmp);
    FlagHeard(r, TAG_BROADCAST_FILTERING, f.broadcastFiltering);
    FlagHeard(r, TAG_LOOP_DETECTION, f.loopDetection);
  }

  // ------------------------------------------------------------------
  // None of it is refused
  // ------------------------------------------------------------------

  ghost predicate Fine(tlvs: seq<Tlv>, portCount: nat) {
    forall i :: 0 <= i < |tlvs| ==> !Malformed(tlvs[i], portCount)
  }

  lemma {:induction false} FineSay<T>(tag: U16, things: seq<T>, say: T -> Bytes, portCount: nat)
    requires forall i :: 0 <= i < |things| ==> !Malformed(Tlv(tag, say(things[i])), portCount)
    ensures Fine(Say(tag, things, say), portCount)
  {
    if things != [] {
      var n := |things| - 1;
      FineSay(tag, things[..n], say, portCount);
      var vs := Sayings(things[..n], say);
      assert (vs + [say(things[n])])[..|vs|] == vs;
    }
  }

  lemma {:induction false} FineBoth(a: seq<Tlv>, b: seq<Tlv>, portCount: nat)
    requires Fine(a, portCount) && Fine(b, portCount)
    ensures Fine(a + b, portCount)
  {
  }

  lemma {:induction false} FineFour(a: seq<Tlv>, b: seq<Tlv>, c: seq<Tlv>, d: seq<Tlv>, portCount: nat)
    requires Fine(a, portCount) && Fine(b, portCount) && Fine(c, portCount) && Fine(d, portCount)
    ensures Fine(a + b + c + d, portCount)
  {
    FineBoth(a, b, portCount);
    FineBoth(a + b, c, portCount);
    FineBoth(a + b + c, d, portCount);
  }

  /** Tags that take any value. */
  ghost predicate Free(tag: U16) {
    tag in {0x0001, 0x0003, 0x000B, 0x000D, 0x3400, 0x5400, 0x6000, 0x9000}
  }

  lemma {:induction false} FreeIsFine(tag: U16, v: Bytes, n: nat)
    requires Free(tag)
    ensures !Malformed(Tlv(tag, v), n)
  {
  }

  lemma {:induction false} FineFree<T>(tag: U16, things: seq<T>, say: T -> Bytes, n: nat)
    requires Free(tag)
    ensures Fine(Say(tag, things, say), n)
  {
    forall i | 0 <= i < |things| ensures !Malformed(Tlv(tag, say(things[i])), n) {
      FreeIsFine(tag, say(things[i]), n);
    }
    FineSay(tag, things, say, n);
  }

  lemma {:induction false} FineOne<T>(tag: U16, thing: Option<T>, say: T -> Bytes, n: nat)
    requires thing.Some? ==> !Malformed(Tlv(tag, say(thing.value)), n)
    ensures Fine(Say(tag, Listed(thing), say), n)
  {
    FineSay(tag, Listed(thing), say, n);
  }

  lemma {:induction false} FineNames(d: Device, a: Addresses, n: nat)
    requires a.mac.Some? ==> |a.mac.value| == 6
    ensures Fine(SayNames(d, a), n)
  {
    FineFree(0x0001, [d.model], SayText, n);
    FineOne(0x0004, a.mac, SayBytes, n);
    FineBoth(Say(0x0001, [d.model], SayText), Say(0x0004, Listed(a.mac), SayBytes), n);
  }

  lemma {:induction false} SerialIsFine(s: string, n: nat)
    ensures !Malformed(Tlv(0x7800, SaySerial(s)), n)
  {
  }

  lemma {:induction false} FineIdentity(f: Identity, n: nat)
    ensures Fine(SayIdentity(f), n)
  {
    FineFree(0x0003, Listed(f.hostname), SayText, n);
    FineFree(0x000D, Listed(f.firmware), SayText, n);
    if f.serial.Some? {
      SerialIsFine(f.serial.value, n);
    }
    FineOne(0x7800, f.serial, SaySerial, n);
    FineFree(0x6000, Listed(f.portCount), SayByte, n);
    FineFour(Say(0x0003, Listed(f.hostname), SayText), Say(0x000D, Listed(f.firmware), SayText),
             Say(0x7800, Listed(f.serial), SaySerial), Say(0x6000, Listed(f.portCount), SayByte), n);
  }

  lemma {:induction false} FineAddress(tag: U16, text: Option<string>, b: Option<Bytes>, n: nat)
    requires tag in {0x0006, 0x0007, 0x0008} && Addressed(text, b)
    ensures Fine(Say(tag, Listed(b), SayBytes), n)
  {
    FineOne(tag, b, SayBytes, n);
  }

  lemma {:induction false} FineNetwork(f: Network, a: Addresses, n: nat)
    requires SayableNetwork(f, a)
    ensures Fine(SayNetwork(f, a), n)
  {
    FineAddress(0x0006, f.ip, a.ip, n);
    FineAddress(0x0007, f.netmask, a.netmask, n);
    FineAddress(0x0008, f.gateway, a.gateway, n);
    FineFree(0x000B, Listed(f.dhcp), SayFlag, n);
    FineFour(Say(0x0006, Listed(a.ip), SayBytes), Say(0x0007, Listed(a.netmask), SayBytes),
             Say(0x0008, Listed(a.gateway), SayBytes), Say(0x000B, Listed(f.dhcp), SayFlag), n);
  }

  /** The parser of a table's tag takes the value. */
  ghost predicate Taken(tag: U16, v: Bytes, n: nat) {
    || (tag == 0x0C00 && ParsePortStatus(v).Some?)
    || (tag == 0xB000 && ParsePortName(v).Some?)
    || (tag == 0x1000 && ParsePortStatistics(v).Some?)
    || (tag == 0x2800 && ParseVlanMembers(v, n).Some?)
    || (tag == 0x3000 && ParsePortPvid(v).Some?)
  }

  lemma {:induction false} TakenIsFine(tag: U16, v: Bytes, n: nat)
    requires Taken(tag, v, n)
    ensures !Malformed(Tlv(tag, v), n)
  {
  }

  /** Entries that are read back are not refused. */
  lemma {:induction false} FineEntries<T>(tag: U16, things: seq<T>, say: T -> Bytes, parse: Bytes -> Option<T>, n: nat)
    requires forall i :: 0 <= i < |things| ==> parse(say(things[i])) == Some(things[i])
    requires forall v: Bytes :: parse(v).Some? ==> Taken(tag, v, n)
    ensures Fine(Say(tag, things, say), n)
  {
    forall i | 0 <= i < |things| ensures !Malformed(Tlv(tag, say(things[i])), n) {
      TakenIsFine(tag, say(things[i]), n);
    }
    FineSay(tag, things, say, n);
  }

  lemma {:induction false} EntriesFine(f: Tables, n: nat)
    requires SayableTables(f, n)
    ensures Fine(Say(0x0C00, f.status, SayStatus), n) && Fine(Say(0xB000, f.names, SayName), n)
    ensures Fine(Say(0x1000, f.statistics, SayStatistics), n)
    ensures Fine(Say(0x2800, f.members, MembersSayer(n)), n) && Fine(Say(0x3000, f.pvids, SayPvid), n)
  {
    EntriesRead(f, n);
    FineEntries(0x0C00, f.status, SayStatus, ParsePortStatus, n);
    FineEntries(0xB000, f.names, SayName, ParsePortName, n);
    FineEntries(0x1000, f.statistics, SayStatistics, ParsePortStatistics, n);
    FineEntries(0x2800, f.members, MembersSayer(n), VlanMembersParser(n), n);
    FineEntries(0x3000, f.pvids, SayPvid, ParsePortPvid, n);
  }

  lemma {:induction false} FineTables(f: Tables, n: nat)
    requires SayableTables(f, n)
    ensures Fine(SayTables(f, n), n)
  {
    EntriesFine(f, n);
    var four := Say(0x0C00, f.status, SayStatus) + Say(0xB000, f.names, SayName)
                + Say(0x1000, f.statistics, SayStatistics) + Say(0x2800, f.members, MembersSayer(n));
    FineFour(Say(0x0C00, f.status, SayStatus), Say(0xB000, f.names, SayName),
             Say(0x1000, f.statistics, SayStatistics), Say(0x2800, f.members, MembersSayer(n)), n);
    FineBoth(four, Say(0x3000, f.pvids, SayPvid), n);
  }

  lemma {:induction false} FeaturesAreFine(f: Features, n: nat)
    requires SayableFeatures(f)
    ensures Fine(Say(0x2000, Listed(f.vlanEngine), SayByte), n) && Fine(Say(0x5C00, Listed(f.mirroring), SayMirroring), n)
    ensures Fine(Say(0x6800, Listed(f.igmp), SayIgmp), n)
  {
    FineOne(0x2000, f.vlanEngine, SayByte, n);
    FineOne(0x5C00, f.mirroring, SayMirroring, n);
    FineOne(0x6800, f.igmp, SayIgmp, n);
  }

  lemma {:induction false} FineFeatures(f: Features, n: nat)
    requires SayableFeatures(f)
    ensures Fine(SayFeatures(f), n)
  {
    FeaturesAreFine(f, n);
    FineFree(0x3400, Listed(f.qosEngine), SayByte, n);
    FineFree(0x5400, Listed(f.broadcastFiltering), SayFlag, n);
    FineFree(0x9000, Listed(f.loopDetection), SayFlag, n);
    var four := Say(0x2000, Listed(f.vlanEngine), SayByte) + Say(0x3400, Listed(f.qosEngine), SayByte)
                + Say(0x5C00, Listed(f.mirroring), SayMirroring) + Say(0x6800, Listed(f.igmp), SayIgmp);
    FineFour(Say(0x2000, Listed(f.vlanEngine), SayByte), Say(0x3400, Listed(f.qosEngine), SayByte),
             Say(0x5C00, Listed(f.mirroring), SayMirroring), Say(0x6800, Listed(f.igmp), SayIgmp), n);
    FineBoth(four, Say(0x5400, Listed(f.broadcastFiltering), SayFlag), n);
    FineBoth(four + Say(0x5400, Listed(f.broadcastFiltering), SayFlag), Say(0x9000, Listed(f.loopDetection), SayFlag), n);
  }

  lemma {:induction false} FineReport(d: Device, a: Addresses)
    requires Sayable(d, a)
    ensures FirstMalformed(Report(d, a), PortsOf(d)) == None
  {
    var n := PortsOf(d);
    FineNames(d, a, n);
    FineIdentity(d.fields.identity, n);
    FineNetwork(d.fields.network, a, n);
    FineTables(d.fields.tables, n);
    FineFeatures(d.fields.features, n);
    FineFour(SayNames(d, a), SayIdentity(d.fields.identity), SayNetwork(d.fields.network, a),
             SayTables(d.fields.tables, n), n);
    FineBoth(SayNames(d, a) + SayIdentity(d.fields.identity) + SayNetwork(d.fields.network, a)
             + SayTables(d.fields.tables, n), SayFeatures(d.fields.features), n);
  }

  // ------------------------------------------------------------------
  // The result
  // ------------------------------------------------------------------

  /** Where the MAC is read: its own TLV, or the header. */
  ghost function MacBytes(a: Addresses, p: Packet): Bytes {
    if a.mac.Some? then a.mac.value else p.serverMac
  }

  lemma {:induction false} DraftHeard(d: Device, a: Addresses)
    requires Sayable(d, a)
    ensures PortCount(Report(d, a)) == PortsOf(d)
    ensures DraftOf(Report(d, a), PortsOf(d))
         == Draft(Some(d.model), if a.mac.Some? then ParseMac(a.mac.value) else None, d.fields)
  {
    var r := Report(d, a);
    NamesSay(d, a);
    TextReads(d.model);
    assert Listed(Some(d.model)) == [d.model];
    OneHeard(r, TAG_MODEL, Some(d.model), SayText, ParseText);
    OneRead(r, TAG_MAC, a.mac, ParseMac);
    IdentityHeard(d, a);
    NetworkHeard(d, a);
    TablesHeard(d, a);
    FeaturesHeard(d, a);
  }

  lemma {:induction false} ReportAssembles(d: Device, a: Addresses, p: Packet)
    requires Sayable(d, a) && |MacBytes(a, p)| == 6 && SpellsHex(d.mac, MacBytes(a, p))
    requires p.tlvs == Report(d, a)
    ensures Assemble(p) == Ok(d)
  {
    FineReport(d, a);
    DraftHeard(d, a);
    MacMeaning(MacBytes(a, p), d.mac);
  }

  /** Whatever a device says of itself, in whatever order of tags, is read as it was
      said: every field, every row of every table, and the MAC from its own TLV or from
      the header if there is none. */
  lemma {:induction false} ReportReadsBack(d: Device, a: Addresses, p: Packet)
    requires Sayable(d, a) && |MacBytes(a, p)| == 6 && SpellsHex(d.mac, MacBytes(a, p))
    requires SamePerTag(Report(d, a), p.tlvs)
    ensures Assemble(p) == Ok(d)
  {
    var q := p.(tlvs := Report(d, a));
    ReportAssembles(d, a, q);
    OrderIndependent(q, p);
  }
}
