/** Assembling a device from the TLVs of a read response (nsdp/parse.go). */
module NsdpDevice {
  import opened Prelude
  import opened NsdpCodec
  import opened PortBitmap
  import Decimal

  const TAG_MODEL: U16 := 0x0001
  const TAG_HOSTNAME: U16 := 0x0003
  const TAG_MAC: U16 := 0x0004
  const TAG_IP_ADDRESS: U16 := 0x0006
  const TAG_NETMASK: U16 := 0x0007
  const TAG_GATEWAY: U16 := 0x0008
  const TAG_DHCP_MODE: U16 := 0x000B
  const TAG_FIRMWARE_VER_1: U16 := 0x000D
  const TAG_PORT_STATUS: U16 := 0x0C00
  const TAG_PORT_STATISTICS: U16 := 0x1000
  const TAG_VLAN_ENGINE: U16 := 0x2000
  const TAG_VLAN_MEMBERS: U16 := 0x2800
  const TAG_PORT_PVID: U16 := 0x3000
  const TAG_QOS_ENGINE: U16 := 0x3400
  const TAG_BROADCAST_FILTERING: U16 := 0x5400
  const TAG_PORT_MIRRORING: U16 := 0x5C00
  const TAG_PORT_COUNT: U16 := 0x6000
  const TAG_IGMP_SNOOPING: U16 := 0x6800
  const TAG_SERIAL_NUMBER: U16 := 0x7800
  const TAG_LOOP_DETECTION: U16 := 0x9000
  const TAG_PORT_NAME: U16 := 0xB000

  datatype PortStatus = PortStatus(port: Byte, speed: Byte, flowControl: bool)
  datatype PortStatistics = PortStatistics(port: Byte, received: nat, sent: nat, crcErrors: nat)
  datatype PortName = PortName(port: Byte, name: Option<Bytes>)
  datatype PortPvid = PortPvid(port: Byte, vlan: U16)
  datatype Membership = Membership(vlan: U16, members: seq<int>, tagged: seq<int>)
  datatype Mirroring = Mirroring(destination: Byte, sources: seq<int>)
  datatype Igmp = Igmp(enabled: bool, vlan: Option<Byte>)

  datatype Identity = Identity(
    hostname: Option<string>,
    firmware: Option<string>,
    serial: Option<string>,
    portCount: Option<Byte>)

  datatype Network = Network(
    ip: Option<string>,
    netmask: Option<string>,
    gateway: Option<string>,
    dhcp: Option<bool>)

  datatype Tables = Tables(
    status: seq<PortStatus>,
    names: seq<PortName>,
    statistics: seq<PortStatistics>,
    members: seq<Membership>,
    pvids: seq<PortPvid>)

  datatype Features = Features(
    vlanEngine: Option<Byte>,
    qosEngine: Option<Byte>,
    mirroring: Option<Mirroring>,
    igmp: Option<Igmp>,
    broadcastFiltering: Option<bool>,
    loopDetection: Option<bool>)

  /** The optional and repeated fields of a device. */
  datatype Fields = Fields(identity: Identity, network: Network, tables: Tables, features: Features)

  datatype Device = Device(model: string, mac: string, fields: Fields)

  datatype DeviceError = BadTlv(tag: U16) | NoModel | BadServerMac

  // ------------------------------------------------------------------
  // One value
  // ------------------------------------------------------------------

  function HexDigit(n: nat): char
    requires n < 16
  {
    "0123456789abcdef"[n]
  }

  function HexByte(b: Byte): string {
    [HexDigit(b / 16), HexDigit(b % 16)]
  }

  function MacText(b: Bytes): string
    requires |b| == 6
  {
    HexByte(b[0]) + ":" + HexByte(b[1]) + ":" + HexByte(b[2]) + ":"
    + HexByte(b[3]) + ":" + HexByte(b[4]) + ":" + HexByte(b[5])
  }

  function ParseMac(v: Bytes): Option<string> {
    if |v| == 6 then Some(MacText(v)) else None
  }

  function ParseIPv4(v: Bytes): Option<string> {
    if |v| != 4 then None
    else Some(Decimal.Itoa(v[0]) + "." + Decimal.Itoa(v[1]) + "." + Decimal.Itoa(v[2]) + "." + Decimal.Itoa(v[3]))
  }

  /** Bytes above ASCII become the replacement character. */
  function Ascii(v: Bytes): (s: string)
    ensures |s| == |v|
  {
    seq(|v|, i requires 0 <= i < |v| => if v[i] < 0x80 then v[i] as char else '\U{FFFD}')
  }

  function TrimZeros(s: string): string {
    if s != [] && s[|s| - 1] == '\0' then TrimZeros(s[..|s| - 1]) else s
  }

  function TrimZeroBytes(v: Bytes): Bytes {
    if v != [] && v[|v| - 1] == 0 then TrimZeroBytes(v[..|v| - 1]) else v
  }

  /** decodeASCII. */
  function ParseText(v: Bytes): Option<string> {
    Some(TrimZeros(Ascii(v)))
  }

  function ParseFlag(v: Bytes): Option<bool> {
    if v == [] then None else Some(v[0] != 0)
  }

  function ParseByte(v: Bytes): Option<Byte> {
    if v == [] then None else Some(v[0])
  }

  function ParseSerial(v: Bytes): Option<string> {
    if v == [] || v[0] != 0x01 then None else ParseText(v[1..])
  }

  function ParseVlanEngine(v: Bytes): Option<Byte> {
    if v == [] || v[0] > 0x04 then None else Some(v[0])
  }

  /** An unassigned speed code reads as link down. */
  function LinkSpeed(b: Byte): Byte {
    if b <= 0x06 || b == 0xFF then b else 0x00
  }

  function ParsePortStatus(v: Bytes): Option<PortStatus> {
    if |v| != 3 then None else Some(PortStatus(v[0], LinkSpeed(v[1]), v[2] != 0))
  }

  function Get64(b: Bytes): nat
    requires |b| == 8
  {
    Get32(b[0..4]) as int * 0x1_0000_0000 + Get32(b[4..8]) as int
  }

  function ParsePortStatistics(v: Bytes): Option<PortStatistics> {
    if |v| != 49 then None
    else Some(PortStatistics(v[0], Get64(v[1..9]), Get64(v[9..17]), Get64(v[17..25])))
  }

  function ParsePortPvid(v: Bytes): Option<PortPvid> {
    if |v| != 3 then None else Some(PortPvid(v[0], Get16(v[1..3])))
  }

  function ParsePortName(v: Bytes): Option<PortName> {
    if v == [] then None
    else
      var text := TrimZeroBytes(v[1..]);
      Some(PortName(v[0], if text == [] then None else Some(text)))
  }

  /** Bytes per bitmap for a port count. */
  function BitmapWidth(portCount: nat): nat {
    (portCount + 7) / 8
  }

  /** A bit for every port, and no byte to spare. */
  lemma {:induction false} WidthMeaning(portCount: nat)
    ensures portCount <= 8 * BitmapWidth(portCount) < portCount + 8
  {
  }

  function ParseVlanMembers(v: Bytes, portCount: nat): Option<Membership> {
    var w := BitmapWidth(portCount);
    if |v| < 2 + w * 2 then None
    else Some(Membership(Get16(v[0..2]), Ports(v[2..2 + w]), Ports(v[2 + w..2 + w * 2])))
  }

  function VlanMembersParser(portCount: nat): Bytes -> Option<Membership> {
    v => ParseVlanMembers(v, portCount)
  }

  function ParseMirroring(v: Bytes): Option<Mirroring> {
    if v == [] then None else Some(Mirroring(v[0], Ports(v[1..])))
  }

  function ParseIgmp(v: Bytes): Option<Igmp> {
    if |v| < 2 then None
    else Some(Igmp(v[1] != 0, if |v| >= 4 && v[3] != 0 then Some(v[3]) else None))
  }

  // ------------------------------------------------------------------
  // The loops
  // ------------------------------------------------------------------

  datatype Draft = Draft(model: Option<string>, mac: Option<string>, fields: Fields)

  const BLANK := Draft(None, None,
    Fields(Identity(None, None, None, None), Network(None, None, None, None), Tables([], [], [], [], []),
           Features(None, None, None, None, None, None)))

  function Or<T>(x: Option<T>, old_: Option<T>): Option<T> {
    if x.Some? then x else old_
  }

  function Add<T>(s: seq<T>, x: Option<T>): seq<T> {
    if x.Some? then s + [x.value] else s
  }

  /** The tags whose values must parse; an empty value of any other known tag is
      passed over. */
  predicate Malformed(t: Tlv, portCount: nat) {
    var v := t.value;
    if t.tag == TAG_MAC then |v| != 6
    else if t.tag == TAG_IP_ADDRESS || t.tag == TAG_NETMASK || t.tag == TAG_GATEWAY then |v| != 4
    else if t.tag == TAG_SERIAL_NUMBER then v == [] || v[0] != 0x01
    else if t.tag == TAG_VLAN_ENGINE then v != [] && v[0] > 0x04
    else if t.tag == TAG_PORT_STATUS || t.tag == TAG_PORT_PVID then |v| != 3
    else if t.tag == TAG_PORT_NAME || t.tag == TAG_PORT_MIRRORING then v == []
    else if t.tag == TAG_PORT_STATISTICS then |v| != 49
    else if t.tag == TAG_VLAN_MEMBERS then |v| < 2 + 2 * BitmapWidth(portCount)
    else if t.tag == TAG_IGMP_SNOOPING then |v| < 2
    else false
  }

  /** The switch on the tag of one TLV that is not malformed. */
  function Accept(d: Draft, t: Tlv, portCount: nat): Draft {
    var f := d.fields;
    Draft(if t.tag == TAG_MODEL then Or(ParseText(t.value), d.model) else d.model,
          if t.tag == TAG_MAC then Or(ParseMac(t.value), d.mac) else d.mac,
          Fields(AcceptIdentity(f.identity, t), AcceptNetwork(f.network, t),
                 AcceptTable(f.tables, t, portCount), AcceptFeature(f.features, t)))
  }

  function AcceptIdentity(f: Identity, t: Tlv): Identity {
    var v := t.value;
    if t.tag == TAG_HOSTNAME then f.(hostname := Or(ParseText(v), f.hostname))
    else if t.tag == TAG_FIRMWARE_VER_1 then f.(firmware := Or(ParseText(v), f.firmware))
    else if t.tag == TAG_SERIAL_NUMBER then f.(serial := Or(ParseSerial(v), f.serial))
    else if t.tag == TAG_PORT_COUNT then f.(portCount := Or(ParseByte(v), f.portCount))
    else f
  }

  function AcceptNetwork(f: Network, t: Tlv): Network {
    var v := t.value;
    if t.tag == TAG_IP_ADDRESS then f.(ip := Or(ParseIPv4(v), f.ip))
    else if t.tag == TAG_NETMASK then f.(netmask := Or(ParseIPv4(v), f.netmask))
    else if t.tag == TAG_GATEWAY then f.(gateway := Or(ParseIPv4(v), f.gateway))
    else if t.tag == TAG_DHCP_MODE then f.(dhcp := Or(ParseFlag(v), f.dhcp))
    else f
  }

  function AcceptTable(f: Tables, t: Tlv, portCount: nat): Tables {
    var v := t.value;
    if t.tag == TAG_PORT_STATUS then f.(status := Add(f.status, ParsePortStatus(v)))
    else if t.tag == TAG_PORT_NAME then f.(names := Add(f.names, ParsePortName(v)))
    else if t.tag == TAG_PORT_STATISTICS then f.(statistics := Add(f.statistics, ParsePortStatistics(v)))
    else if t.tag == TAG_VLAN_MEMBERS then f.(members := Add(f.members, ParseVlanMembers(v, portCount)))
    else if t.tag == TAG_PORT_PVID then f.(pvids := Add(f.pvids, ParsePortPvid(v)))
    else f
  }

  function AcceptFeature(f: Features, t: Tlv): Features {
    var v := t.value;
    if t.tag == TAG_VLAN_ENGINE then f.(vlanEngine := Or(ParseVlanEngine(v), f.vlanEngine))
    else if t.tag == TAG_QOS_ENGINE then f.(qosEngine := Or(ParseByte(v), f.qosEngine))
    else if t.tag == TAG_PORT_MIRRORING then f.(mirroring := Or(ParseMirroring(v), f.mirroring))
    else if t.tag == TAG_IGMP_SNOOPING then f.(igmp := Or(ParseIgmp(v), f.igmp))
    else if t.tag == TAG_BROADCAST_FILTERING then f.(broadcastFiltering := Or(ParseFlag(v), f.broadcastFiltering))
    else if t.tag == TAG_LOOP_DETECTION then f.(loopDetection := Or(ParseFlag(v), f.loopDetection))
    else f
  }

  /** The first pass of ParseDevice: the last port count wins, wherever it stands. */
  method FindPortCount(tlvs: seq<Tlv>) returns (portCount: nat)
    ensures portCount == PortCount(tlvs)
  {
    portCount := 8;
    for i := 0 to |tlvs|
      invariant portCount == PortCount(tlvs[..i])
    {
      NewestStep(tlvs[..i], tlvs[i], TAG_PORT_COUNT, ParseByte);
      SliceStep(tlvs, i);
      if tlvs[i].tag == TAG_PORT_COUNT && |tlvs[i].value| > 0 {
        portCount := tlvs[i].value[0];
      }
    }
    WholeSlice(tlvs);
  }

  /** ParseDevice: the second pass dispatches on the tags, with the port count known. */
  method ParseDevice(packet: Packet) returns (r: Result<Device, DeviceError>)
    ensures r == Assemble(packet)
  {
    var tlvs := packet.tlvs;
    var portCount := FindPortCount(tlvs);
    var d := BLANK;
    for i := 0 to |tlvs|
      invariant FirstMalformed(tlvs, portCount) == FirstMalformed(tlvs[i..], portCount)
      invariant d == DraftOf(tlvs[..i], portCount)
    {
      SliceStep(tlvs, i);
      if Malformed(tlvs[i], portCount) {
        return Err(BadTlv(tlvs[i].tag));
      }
      DraftStep(tlvs[..i], tlvs[i], portCount);
      d := Accept(d, tlvs[i], portCount);
    }
    WholeSlice(tlvs);
    if d.model.None? {
      return Err(NoModel);
    }
    if d.mac.None? {
      var mac := ParseMac(packet.serverMac);
      if mac.None? {
        return Err(BadServerMac);
      }
      d := d.(mac := mac);
    }
    r := Ok(Device(d.model.value, d.mac.value, d.fields));
  }

  // ------------------------------------------------------------------
  // What the loops compute, tag by tag
  // ------------------------------------------------------------------

  /** The values of the TLVs with a tag, in their order. */
  function Values(tlvs: seq<Tlv>, tag: U16): (vs: seq<Bytes>) {
    if tlvs == [] then []
    else
      var n := |tlvs| - 1;
      Values(tlvs[..n], tag) + if tlvs[n].tag == tag then [tlvs[n].value] else []
  }

  /** What the values that parse, parse to. */
  function Parsed<T>(vs: seq<Bytes>, parse: Bytes -> Option<T>): seq<T> {
    if vs == [] then [] else Add(Parsed(vs[..|vs| - 1], parse), parse(vs[|vs| - 1]))
  }

  /** Every reading of a tag. */
  function All<T>(tlvs: seq<Tlv>, tag: U16, parse: Bytes -> Option<T>): seq<T> {
    Parsed(Values(tlvs, tag), parse)
  }

  function Last<T>(s: seq<T>): Option<T> {
    if s == [] then None else Some(s[|s| - 1])
  }

  /** The last reading of a tag. */
  function Newest<T>(tlvs: seq<Tlv>, tag: U16, parse: Bytes -> Option<T>): Option<T> {
    Last(All(tlvs, tag, parse))
  }

  /** The port count the bitmaps are read with: 8 unless a TLV says otherwise. */
  function PortCount(tlvs: seq<Tlv>): nat {
    var c := Newest(tlvs, TAG_PORT_COUNT, ParseByte);
    if c.Some? then c.value else 8
  }

  function FirstMalformed(tlvs: seq<Tlv>, portCount: nat): (r: Option<U16>)
    ensures r.Some? <==> exists i :: 0 <= i < |tlvs| && Malformed(tlvs[i], portCount)
  {
    if tlvs == [] then None
    else if Malformed(tlvs[0], portCount) then Some(tlvs[0].tag)
    else
      assert forall i :: 0 < i < |tlvs| ==> tlvs[i] == tlvs[1..][i - 1];
      FirstMalformed(tlvs[1..], portCount)
  }

  function IdentityOf(tlvs: seq<Tlv>): Identity {
    Identity(
      Newest(tlvs, TAG_HOSTNAME, ParseText),
      Newest(tlvs, TAG_FIRMWARE_VER_1, ParseText),
      Newest(tlvs, TAG_SERIAL_NUMBER, ParseSerial),
      Newest(tlvs, TAG_PORT_COUNT, ParseByte))
  }

  function NetworkOf(tlvs: seq<Tlv>): Network {
    Network(
      Newest(tlvs, TAG_IP_ADDRESS, ParseIPv4),
      Newest(tlvs, TAG_NETMASK, ParseIPv4),
      Newest(tlvs, TAG_GATEWAY, ParseIPv4),
      Newest(tlvs, TAG_DHCP_MODE, ParseFlag))
  }

  function TablesOf(tlvs: seq<Tlv>, portCount: nat): Tables {
    Tables(
      All(tlvs, TAG_PORT_STATUS, ParsePortStatus),
      All(tlvs, TAG_PORT_NAME, ParsePortName),
      All(tlvs, TAG_PORT_STATISTICS, ParsePortStatistics),
      All(tlvs, TAG_VLAN_MEMBERS, VlanMembersParser(portCount)),
      All(tlvs, TAG_PORT_PVID, ParsePortPvid))
  }

  function FeaturesOf(tlvs: seq<Tlv>): Features {
    Features(
      Newest(tlvs, TAG_VLAN_ENGINE, ParseVlanEngine),
      Newest(tlvs, TAG_QOS_ENGINE, ParseByte),
      Newest(tlvs, TAG_PORT_MIRRORING, ParseMirroring),
      Newest(tlvs, TAG_IGMP_SNOOPING, ParseIgmp),
      Newest(tlvs, TAG_BROADCAST_FILTERING, ParseFlag),
      Newest(tlvs, TAG_LOOP_DETECTION, ParseFlag))
  }

  function DraftOf(tlvs: seq<Tlv>, portCount: nat): Draft {
    Draft(Newest(tlvs, TAG_MODEL, ParseText), Newest(tlvs, TAG_MAC, ParseMac),
          Fields(IdentityOf(tlvs), NetworkOf(tlvs), TablesOf(tlvs, portCount), FeaturesOf(tlvs)))
  }

  /** The device of a packet, stated tag by tag: each field is the last reading, or the
      list of all readings, of its own tag. */
  function Assemble(packet: Packet): Result<Device, DeviceError> {
    var tlvs := packet.tlvs;
    var portCount := PortCount(tlvs);
    var bad := FirstMalformed(tlvs, portCount);
    if bad.Some? then Err(BadTlv(bad.value))
    else
      var d := DraftOf(tlvs, portCount);
      var mac := Or(d.mac, ParseMac(packet.serverMac));
      if d.model.None? then Err(NoModel)
      else if mac.None? then Err(BadServerMac)
      else Ok(Device(d.model.value, mac.value, d.fields))
  }

  lemma {:induction false} AllStep<T>(tlvs: seq<Tlv>, t: Tlv, tag: U16, parse: Bytes -> Option<T>)
    ensures All(tlvs + [t], tag, parse) ==
            if t.tag == tag then Add(All(tlvs, tag, parse), parse(t.value)) else All(tlvs, tag, parse)
  {
    assert (tlvs + [t])[..|tlvs|] == tlvs;
    var vs := Values(tlvs, tag);
    assert (vs + [t.value])[..|vs|] == vs && vs + [] == vs;
  }

  lemma {:induction false} NewestStep<T>(tlvs: seq<Tlv>, t: Tlv, tag: U16, parse: Bytes -> Option<T>)
    ensures Newest(tlvs + [t], tag, parse) ==
            if t.tag == tag then Or(parse(t.value), Newest(tlvs, tag, parse)) else Newest(tlvs, tag, parse)
  {
    AllStep(tlvs, t, tag, parse);
  }

  lemma {:induction false} IdentityStep(tlvs: seq<Tlv>, t: Tlv)
    ensures IdentityOf(tlvs + [t]) == AcceptIdentity(IdentityOf(tlvs), t)
  {
    NewestStep(tlvs, t, TAG_HOSTNAME, ParseText);
    NewestStep(tlvs, t, TAG_FIRMWARE_VER_1, ParseText);
    NewestStep(tlvs, t, TAG_SERIAL_NUMBER, ParseSerial);
    NewestStep(tlvs, t, TAG_PORT_COUNT, ParseByte);
  }

  lemma {:induction false} NetworkStep(tlvs: seq<Tlv>, t: Tlv)
    ensures NetworkOf(tlvs + [t]) == AcceptNetwork(NetworkOf(tlvs), t)
  {
    NewestStep(tlvs, t, TAG_IP_ADDRESS, ParseIPv4);
    NewestStep(tlvs, t, TAG_NETMASK, ParseIPv4);
    NewestStep(tlvs, t, TAG_GATEWAY, ParseIPv4);
    NewestStep(tlvs, t, TAG_DHCP_MODE, ParseFlag);
  }

  lemma {:induction false} TablesStep(tlvs: seq<Tlv>, t: Tlv, portCount: nat)
    ensures TablesOf(tlvs + [t], portCount) == AcceptTable(TablesOf(tlvs, portCount), t, portCount)
  {
    AllStep(tlvs, t, TAG_PORT_STATUS, ParsePortStatus);
    AllStep(tlvs, t, TAG_PORT_NAME, ParsePortName);
    AllStep(tlvs, t, TAG_PORT_STATISTICS, ParsePortStatistics);
    AllStep(tlvs, t, TAG_VLAN_MEMBERS, VlanMembersParser(portCount));
    AllStep(tlvs, t, TAG_PORT_PVID, ParsePortPvid);
  }

  lemma {:induction false} FeaturesStep(tlvs: seq<Tlv>, t: Tlv)
    ensures FeaturesOf(tlvs + [t]) == AcceptFeature(FeaturesOf(tlvs), t)
  {
    NewestStep(tlvs, t, TAG_VLAN_ENGINE, ParseVlanEngine);
    NewestStep(tlvs, t, TAG_QOS_ENGINE, ParseByte);
    NewestStep(tlvs, t, TAG_PORT_MIRRORING, ParseMirroring);
    NewestStep(tlvs, t, TAG_IGMP_SNOOPING, ParseIgmp);
    NewestStep(tlvs, t, TAG_BROADCAST_FILTERING, ParseFlag);
    NewestStep(tlvs, t, TAG_LOOP_DETECTION, ParseFlag);
  }

  lemma {:induction false} DraftStep(tlvs: seq<Tlv>, t: Tlv, portCount: nat)
    ensures DraftOf(tlvs + [t], portCount) == Accept(DraftOf(tlvs, portCount), t, portCount)
  {
    NewestStep(tlvs, t, TAG_MODEL, ParseText);
    NewestStep(tlvs, t, TAG_MAC, ParseMac);
    IdentityStep(tlvs, t);
    NetworkStep(tlvs, t);
    TablesStep(tlvs, t, portCount);
    FeaturesStep(tlvs, t);
  }

  // ------------------------------------------------------------------
  // Order independence
  // ------------------------------------------------------------------

  /** One packet's TLVs are the other's in another order, which keeps the order of
      those with the same tag. */
  ghost predicate SamePerTag(a: seq<Tlv>, b: seq<Tlv>) {
    forall tag: U16 :: Values(a, tag) == Values(b, tag)
  }

  lemma {:induction false} ValuesHold(tlvs: seq<Tlv>, tag: U16, v: Bytes)
    ensures v in Values(tlvs, tag) <==> Tlv(tag, v) in tlvs
  {
    if tlvs != [] {
      var n := |tlvs| - 1;
      ValuesHold(tlvs[..n], tag, v);
      assert tlvs == tlvs[..n] + [tlvs[n]];
    }
  }

  lemma {:induction false} MalformedMoves(a: seq<Tlv>, b: seq<Tlv>, portCount: nat)
    requires SamePerTag(a, b) && FirstMalformed(a, portCount).Some?
    ensures FirstMalformed(b, portCount).Some?
  {
    var i :| 0 <= i < |a| && Malformed(a[i], portCount);
    ValuesHold(a, a[i].tag, a[i].value);
    ValuesHold(b, a[i].tag, a[i].value);
    assert a[i] in b;
  }

  lemma {:induction false} SameDraft(a: seq<Tlv>, b: seq<Tlv>, portCount: nat)
    requires SamePerTag(a, b)
    ensures DraftOf(a, portCount) == DraftOf(b, portCount)
  {
  }

  /** The order of a packet's TLVs does not matter, except among those with the same
      tag: it is accepted in either order or in neither, and gives the same device.
      In particular VLAN_MEMBERS may come before the PORT_COUNT that sets its width. */
  lemma {:induction false} OrderIndependent(a: Packet, b: Packet)
    requires SamePerTag(a.tlvs, b.tlvs) && a.serverMac == b.serverMac
    ensures Assemble(a).Ok? <==> Assemble(b).Ok?
    ensures Assemble(a).Ok? ==> Assemble(a) == Assemble(b)
  {
    var portCount := PortCount(a.tlvs);
    assert portCount == PortCount(b.tlvs);
    if FirstMalformed(a.tlvs, portCount).Some? {
      MalformedMoves(a.tlvs, b.tlvs, portCount);
    }
    if FirstMalformed(b.tlvs, portCount).Some? {
      MalformedMoves(b.tlvs, a.tlvs, portCount);
    }
    SameDraft(a.tlvs, b.tlvs, portCount);
  }

  lemma {:induction false} ValuesConcat(a: seq<Tlv>, b: seq<Tlv>, tag: U16)
    ensures Values(a + b, tag) == Values(a, tag) + Values(b, tag)
  {
    if b == [] {
      assert a + b == a;
    } else {
      var n := |b| - 1;
      ValuesConcat(a, b[..n], tag);
      assert (a + b)[..|a| + n] == a + b[..n];
    }
  }

  /** Two neighbours with different tags may change places. */
  lemma {:induction false} SwapNeighbours(before: seq<Tlv>, x: Tlv, y: Tlv, after: seq<Tlv>)
    requires x.tag != y.tag
    ensures SamePerTag(before + [x, y] + after, before + [y, x] + after)
  {
    forall tag: U16 ensures Values(before + [x, y] + after, tag) == Values(before + [y, x] + after, tag) {
      ValuesConcat(before + [x, y], after, tag);
      ValuesConcat(before + [y, x], after, tag);
      ValuesConcat(before, [x, y], tag);
      ValuesConcat(before, [y, x], tag);
      assert [x, y][..1] == [x] && [y, x][..1] == [y];
      assert Values([x, y], tag) == Values([y, x], tag);
    }
  }
}
