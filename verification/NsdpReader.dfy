/** Reading tables back from the switch (nsdp/reader.go). */
module NsdpReader {
  import opened Prelude
  import opened NsdpCodec
  import opened NsdpDevice
  import opened NsdpVlan
  import opened NsdpAuth
  import opened NsdpSwitch
  import opened NsdpClient

  datatype ReadError = Transport(client: ClientError) | Parse(device: DeviceError)

  /** withModel: the model tag comes first unless it is there already. */
  function WithModel(tags: seq<U16>): seq<U16> {
    if TAG_MODEL in tags then tags else [TAG_MODEL] + tags
  }

  /** device: the model tag is always asked for. An end marker among the tags would cut
      the request short. */
  method ReadDevice(client: Client, tags: seq<U16>) returns (r: Result<Device, ReadError>)
    requires client.Valid()
    modifies client`sequence, client.wire
    ensures client.Valid()
    ensures old(client.wire.log) <= client.wire.log && ReadsOnly(client.wire.log, |old(client.wire.log)|)
    ensures r.Ok? ==> AllBounded(r.value.fields.tables.members)
    ensures TAG_END_OF_MARK !in tags ==>
              var req := ReadRequest(client.clientMac, client.sequence, WithModel(tags));
              var d := client.wire.network(old(client.wire.exchanges));
              && client.wire.face == (if Reaches(d) then ServeRead(old(client.wire.face), req).face else old(client.wire.face))
              && (!d.Stray? ==> r == if d.Delivered? then AsDevice(Assemble(ServeRead(old(client.wire.face), req).reply.value))
                                     else Err(Transport(TimedOut)))
  {
    var resp := client.Read(WithModel(tags));
    if resp.Err? {
      return Err(Transport(resp.error));
    }
    var device := ParseDevice(resp.value);
    AssembledBounded(resp.value);
    r := AsDevice(device);
  }

  /** No packet makes a VLAN report a port past the widest bitmap there is. */
  ghost predicate AllBounded(rows: seq<Membership>) {
    rows == [] || (AllBounded(rows[..|rows| - 1]) && Bounded(rows[|rows| - 1]))
  }

  lemma {:induction false} BoundedRow(rows: seq<Membership>, m: Membership)
    requires AllBounded(rows) && m in rows
    ensures Bounded(m)
  {
    if m != rows[|rows| - 1] {
      BoundedRow(rows[..|rows| - 1], m);
    }
  }

  ghost predicate Bounded(m: Membership) {
    WithinWidth(Elements(m.members) + Elements(m.tagged), 32)
  }

  lemma {:induction false} ParsedBounded(vs: seq<Bytes>, portCount: nat)
    requires portCount <= 0xFF
    ensures AllBounded(Parsed(vs, VlanMembersParser(portCount)))
  {
    if vs != [] {
      ParsedBounded(vs[..|vs| - 1], portCount);
      ParseBounded(vs[|vs| - 1], portCount);
      AddBounded(Parsed(vs[..|vs| - 1], VlanMembersParser(portCount)), ParseVlanMembers(vs[|vs| - 1], portCount));
    }
  }

  lemma {:induction false} ParseBounded(v: Bytes, portCount: nat)
    requires portCount <= 0xFF
    ensures ParseVlanMembers(v, portCount).Some? ==> Bounded(ParseVlanMembers(v, portCount).value)
  {
    if ParseVlanMembers(v, portCount).Some? {
      ParsedWithin(v, portCount);
    }
  }

  lemma {:induction false} AddBounded(rows: seq<Membership>, m: Option<Membership>)
    requires AllBounded(rows) && (m.Some? ==> Bounded(m.value))
    ensures AllBounded(Add(rows, m))
  {
    if m.Some? {
      assert (rows + [m.value])[..|rows|] == rows;
    }
  }

  lemma {:induction false} AssembledBounded(p: Packet)
    ensures Assemble(p).Ok? ==> AllBounded(Assemble(p).value.fields.tables.members)
  {
    ParsedBounded(Values(p.tlvs, TAG_VLAN_MEMBERS), PortCount(p.tlvs));
  }

  function ReadRequest(clientMac: Bytes, sequence: U32, tags: seq<U16>): Packet {
    Request(OP_READ_REQUEST, clientMac, sequence, Ask(tags))
  }

  function AsDevice(r: Result<Device, DeviceError>): Result<Device, ReadError> {
    if r.Ok? then Ok(r.value) else Err(Parse(r.error))
  }

  // ------------------------------------------------------------------
  // VLANs
  // ------------------------------------------------------------------

  function MembershipOf(s: State, vid: U16): Membership
    requires vid in s.vlans
  {
    Membership(vid, SortedSet(s.vlans[vid].member), SortedSet(TaggedPorts(s.vlans[vid])))
  }

  function Memberships(s: State, vids: seq<int>): (r: seq<Membership>)
    requires forall i :: 0 <= i < |vids| ==> vids[i] in s.vlans
    ensures |r| == |vids|
  {
    if vids == [] then []
    else Memberships(s, vids[..|vids| - 1]) + [MembershipOf(s, vids[|vids| - 1])]
  }

  /** The whole table, by VLAN id. */
  function VlanRows(s: State): seq<Membership> {
    Memberships(s, Vids(s))
  }

  /** The first record of a VLAN. */
  function Find(vlans: seq<Membership>, vid: int): (r: Option<Membership>)
    ensures r.Some? ==> r.value in vlans && r.value.vlan == vid
    ensures r.None? ==> forall m :: m in vlans ==> m.vlan != vid
  {
    if vlans == [] then None
    else
      assert vlans == [vlans[0]] + vlans[1..];
      if vlans[0].vlan == vid then Some(vlans[0]) else Find(vlans[1..], vid)
  }

  lemma {:induction false} MembershipsHold(s: State, vids: seq<int>)
    requires forall j :: 0 <= j < |vids| ==> vids[j] in s.vlans
    ensures forall m :: m in Memberships(s, vids) ==> m.vlan in s.vlans && m == MembershipOf(s, m.vlan)
    ensures forall v: U16 :: v in vids ==> MembershipOf(s, v) in Memberships(s, vids)
  {
    if vids != [] {
      var n := |vids| - 1;
      MembershipsHold(s, vids[..n]);
      assert vids == vids[..n] + [vids[n]];
    }
  }

  /** Looking a VLAN up in the table gives what the switch holds for it. */
  lemma {:induction false} FindMeaning(s: State, vid: int)
    ensures var r := Find(VlanRows(s), vid);
            if 0 <= vid <= 0xFFFF && vid in s.vlans then r == Some(MembershipOf(s, vid)) else r == None
  {
    MembershipsHold(s, Vids(s));
    if 0 <= vid <= 0xFFFF && vid in s.vlans {
      assert MembershipOf(s, vid) in VlanRows(s);
    }
  }

  lemma {:induction false} TailOther<T>(head: seq<Tlv>, tail: seq<Tlv>, tag: U16, parse: Bytes -> Option<T>)
    requires forall i :: 0 <= i < |tail| ==> tail[i].tag != tag
    ensures All(head + tail, tag, parse) == All(head, tag, parse)
  {
    if tail == [] {
      assert head + tail == head;
    } else {
      var n := |tail| - 1;
      TailOther(head, tail[..n], tag, parse);
      AllStep(head + tail[..n], tail[n], tag, parse);
      assert tail == tail[..n] + [tail[n]];
      ConcatAssoc(head, tail[..n], [tail[n]]);
    }
  }

  lemma {:induction false} VlanTlvsParse(head: seq<Tlv>, s: State, vids: seq<int>)
    requires Projectable(s) && forall i :: 0 <= i < |vids| ==> vids[i] in s.vlans
    ensures All(head + VlanTlvs(s, vids), TAG_VLAN_MEMBERS, VlanMembersParser(s.portCount))
         == All(head, TAG_VLAN_MEMBERS, VlanMembersParser(s.portCount)) + Memberships(s, vids)
  {
    var parse := VlanMembersParser(s.portCount);
    if vids == [] {
      assert head + VlanTlvs(s, vids) == head;
      assert All(head, TAG_VLAN_MEMBERS, parse) + [] == All(head, TAG_VLAN_MEMBERS, parse);
    } else {
      var rest := vids[..|vids| - 1];
      var vid: U16 := vids[|vids| - 1];
      VlanTlvsParse(head, s, rest);
      VlanMembersRoundTrip(vid, s.vlans[vid].member, TaggedPorts(s.vlans[vid]), s.portCount);
      assert parse(VlanTlv(s, vid).value) == Some(MembershipOf(s, vid));
      AllStep(head + VlanTlvs(s, rest), VlanTlv(s, vid), TAG_VLAN_MEMBERS, parse);
      ConcatAssoc(head, VlanTlvs(s, rest), [VlanTlv(s, vid)]);
      ConcatAssoc(All(head, TAG_VLAN_MEMBERS, parse), Memberships(s, rest), [MembershipOf(s, vid)]);
    }
  }

  /** Nothing in the list is malformed. */
  ghost predicate WellFormed(tlvs: seq<Tlv>, portCount: nat) {
    forall i :: 0 <= i < |tlvs| ==> !Malformed(tlvs[i], portCount)
  }

  lemma {:induction false} FullWidthFits(t: Tlv, portCount: nat)
    requires t.tag == TAG_VLAN_MEMBERS && |t.value| == 2 + 2 * BitmapWidth(portCount)
    ensures WellFormed([t], portCount)
  {
  }

  lemma {:induction false} ConcatWellFormed(a: seq<Tlv>, b: seq<Tlv>, portCount: nat)
    requires WellFormed(a, portCount) && WellFormed(b, portCount)
    ensures WellFormed(a + b, portCount)
  {
  }

  lemma {:induction false} VlanTlvsWellFormed(s: State, vids: seq<int>)
    requires Projectable(s) && forall i :: 0 <= i < |vids| ==> vids[i] in s.vlans
    ensures WellFormed(VlanTlvs(s, vids), s.portCount)
    ensures forall i :: 0 <= i < |vids| ==> VlanTlvs(s, vids)[i].tag == TAG_VLAN_MEMBERS
  {
    if vids != [] {
      var rest := vids[..|vids| - 1];
      var vid: U16 := vids[|vids| - 1];
      VlanTlvsWellFormed(s, rest);
      VlanMembersRoundTrip(vid, s.vlans[vid].member, TaggedPorts(s.vlans[vid]), s.portCount);
      FullWidthFits(VlanTlv(s, vid), s.portCount);
      ConcatWellFormed(VlanTlvs(s, rest), [VlanTlv(s, vid)], s.portCount);
    }
  }

  /** The identity a table read always carries. */
  function TableHead(s: State): seq<Tlv> {
    [Tlv(TAG_MODEL, s.model), Tlv(TAG_PORT_COUNT, [s.portCount])]
  }

  lemma {:induction false} HeadReadings(s: State)
    ensures Newest(TableHead(s), TAG_MODEL, ParseText).Some?
    ensures Newest(TableHead(s), TAG_PORT_COUNT, ParseByte) == Some(s.portCount)
    ensures Newest(TableHead(s), TAG_MAC, ParseMac) == None
    ensures All(TableHead(s), TAG_VLAN_MEMBERS, VlanMembersParser(s.portCount)) == []
  {
    var a, b := Tlv(TAG_MODEL, s.model), Tlv(TAG_PORT_COUNT, [s.portCount]);
    assert TableHead(s) == [] + [a] + [b];
    NewestStep([], a, TAG_MODEL, ParseText);
    NewestStep([] + [a], b, TAG_MODEL, ParseText);
    NewestStep([], a, TAG_PORT_COUNT, ParseByte);
    NewestStep([] + [a], b, TAG_PORT_COUNT, ParseByte);
    NewestStep([], a, TAG_MAC, ParseMac);
    NewestStep([] + [a], b, TAG_MAC, ParseMac);
    AllStep([], a, TAG_VLAN_MEMBERS, VlanMembersParser(s.portCount));
    AllStep([] + [a], b, TAG_VLAN_MEMBERS, VlanMembersParser(s.portCount));
  }

  /** What it takes for a packet to make a device. */
  lemma {:induction false} Assembles(p: Packet, portCount: nat)
    requires PortCount(p.tlvs) == portCount && WellFormed(p.tlvs, portCount)
    requires Newest(p.tlvs, TAG_MODEL, ParseText).Some?
    requires Newest(p.tlvs, TAG_MAC, ParseMac) == None && |p.serverMac| == MAC_SIZE
    ensures Assemble(p).Ok? && Assemble(p).value.fields.tables == TablesOf(p.tlvs, portCount)
  {
  }

  lemma {:induction false} HeadWellFormed(s: State)
    ensures WellFormed(TableHead(s), s.portCount)
  {
  }

  /** The device assembled from a reply that carries the VLAN table. */
  lemma {:induction false} TableAssembles(s: State, p: Packet)
    requires SaneState(s) && p.serverMac == s.mac
    requires p.tlvs == TableHead(s) + VlanTable(s)
    ensures Assemble(p).Ok? && Assemble(p).value.fields.tables.members == VlanRows(s)
  {
    var tail := VlanTable(s);
    HeadWellFormed(s);
    VlanTlvsWellFormed(s, Vids(s));
    ConcatWellFormed(TableHead(s), tail, s.portCount);
    HeadReadings(s);
    TailOther(TableHead(s), tail, TAG_MODEL, ParseText);
    TailOther(TableHead(s), tail, TAG_PORT_COUNT, ParseByte);
    TailOther(TableHead(s), tail, TAG_MAC, ParseMac);
    VlanTlvsParse(TableHead(s), s, Vids(s));
    assert [] + VlanRows(s) == VlanRows(s);
    Assembles(p, s.portCount);
  }

  lemma {:induction false} DropEmpty<T>(a: T, b: T, c: seq<T>)
    ensures [a] + [] + [b] + [] + c + [] == [a, b] + c
  {
    assert [a] + [] + [b] + [] == [a, b];
    assert [a, b] + c + [] == [a, b] + c;
  }

  lemma {:induction false} TableTlvs(s: State, tags: set<U16>)
    requires Projectable(s) && tags == {TAG_MODEL, TAG_PORT_COUNT, TAG_VLAN_MEMBERS}
    ensures NsdpTlvs(s, tags) == TableHead(s) + VlanTable(s)
  {
    assert TAG_MODEL in tags && TAG_PORT_COUNT in tags && TAG_VLAN_MEMBERS in tags;
    assert TAG_MAC !in tags && TAG_HOSTNAME !in tags && TAG_PORT_PVID !in tags;
    DropEmpty(Tlv(TAG_MODEL, s.model), Tlv(TAG_PORT_COUNT, [s.portCount]), VlanTable(s));
  }

  lemma {:induction false} TableReply(f: Face, req: Packet)
    requires Sane(f) && req.tlvs == Ask([TAG_MODEL, TAG_PORT_COUNT, TAG_VLAN_MEMBERS])
    ensures var s := ServeRead(f, req);
            s.face == f && s.reply == Some(Response(f, req, OP_READ_RESPONSE, RESULT_SUCCESS, 0, TableHead(f.state) + VlanTable(f.state)))
  {
    TagsOfAsk([TAG_MODEL, TAG_PORT_COUNT, TAG_VLAN_MEMBERS]);
    TableTlvs(f.state, Tags(req.tlvs));
    var tlvs := NsdpTlvs(f.state, Tags(req.tlvs));
    assert tlvs + [] + [] == tlvs;
  }

  /** Reading the VLAN table changes nothing and gives the switch's own. */
  lemma {:induction false} TableAnswer(f: Face, req: Packet)
    requires Sane(f) && req.tlvs == Ask([TAG_MODEL, TAG_PORT_COUNT, TAG_VLAN_MEMBERS])
    ensures var s := ServeRead(f, req);
            && s.face == f
            && Assemble(s.reply.value).Ok?
            && Assemble(s.reply.value).value.fields.tables.members == VlanRows(f.state)
  {
    TableReply(f, req);
    TableAssembles(f.state, ServeRead(f, req).reply.value);
  }

  lemma {:induction false} EncodedSnoc(tlvs: seq<Tlv>, t: Tlv)
    ensures |EncodeTlvs(tlvs + [t])| == |EncodeTlvs(tlvs)| + |EncodeTlv(t)|
  {
    if tlvs == [] {
      assert tlvs + [t] == [t] && [t][1..] == [];
    } else {
      assert (tlvs + [t])[1..] == tlvs[1..] + [t];
      EncodedSnoc(tlvs[1..], t);
    }
  }

  lemma {:induction false} TimesOneMore(n: nat, size: nat)
    ensures (n + 1) * size == n * size + size
  {
  }

  /** Each VLAN takes as much: a TLV header, its id and two bitmaps. */
  lemma {:induction false} TableLength(head: seq<Tlv>, s: State, vids: seq<int>)
    requires Projectable(s) && forall i :: 0 <= i < |vids| ==> vids[i] in s.vlans
    ensures |EncodeTlvs(head + VlanTlvs(s, vids))| == |EncodeTlvs(head)| + |vids| * (6 + 2 * BitmapWidth(s.portCount))
  {
    if vids == [] {
      assert head + VlanTlvs(s, vids) == head;
    } else {
      var rest := vids[..|vids| - 1];
      assert vids[|vids| - 1] in s.vlans;
      var vid: U16 := vids[|vids| - 1];
      TableLength(head, s, rest);
      VlanMembersRoundTrip(vid, s.vlans[vid].member, TaggedPorts(s.vlans[vid]), s.portCount);
      ConcatAssoc(head, VlanTlvs(s, rest), [VlanTlv(s, vid)]);
      EncodedSnoc(head + VlanTlvs(s, rest), VlanTlv(s, vid));
      TimesOneMore(|rest|, 6 + 2 * BitmapWidth(s.portCount));
    }
  }

  lemma {:induction false} HeadLength(s: State)
    ensures |EncodeTlvs(TableHead(s))| == 9 + |s.model|
  {
    var a, b := Tlv(TAG_MODEL, s.model), Tlv(TAG_PORT_COUNT, [s.portCount]);
    assert TableHead(s) == [] + [a] + [b];
    EncodedSnoc([], a);
    EncodedSnoc([] + [a], b);
  }

  lemma {:induction false} PacketLength(p: Packet)
    requires |p.clientMac| == MAC_SIZE && |p.serverMac| == MAC_SIZE
    ensures Encode(p).Ok? && |Encode(p).value| == HEADER_SIZE + |EncodeTlvs(p.tlvs)| + 4
  {
  }

  /** The size of the reply with the table. */
  function TableSize(model: nat, vlans: nat, portCount: nat): nat {
    45 + model + vlans * (6 + 2 * BitmapWidth(portCount))
  }

  lemma {:induction false} TableTlvsLength(s: State)
    requires Projectable(s)
    ensures |EncodeTlvs(TableHead(s) + VlanTable(s))| == TableSize(|s.model|, |Vids(s)|, s.portCount) - 36
  {
    HeadLength(s);
    TableLength(TableHead(s), s, Vids(s));
  }

  lemma {:induction false} TablePacketLength(s: State, p: Packet)
    requires Projectable(s) && |p.clientMac| == MAC_SIZE && |p.serverMac| == MAC_SIZE
    requires p.tlvs == TableHead(s) + VlanTable(s)
    ensures Encode(p).Ok? && |Encode(p).value| == TableSize(|s.model|, |Vids(s)|, s.portCount)
  {
    PacketLength(p);
    TableTlvsLength(s);
  }

  /** The reply with the table fits the client's buffer, of 4096 bytes, if and only if there are few
      enough VLANs for the switch's width. */
  lemma {:induction false} TableFits(f: Face, req: Packet, reply: Packet)
    requires Sane(f) && |req.clientMac| == MAC_SIZE && req.tlvs == Ask([TAG_MODEL, TAG_PORT_COUNT, TAG_VLAN_MEMBERS])
    requires ServeRead(f, req).reply == Some(reply)
    ensures Encode(reply).Ok?
    ensures |Encode(reply).value| <= 4096
            <==> TableSize(|f.state.model|, |Vids(f.state)|, f.state.portCount) <= 4096
  {
    TableReply(f, req);
    TablePacketLength(f.state, reply);
  }

  /** GetVLANs. */
  method GetVlans(client: Client) returns (r: Result<seq<Membership>, ReadError>)
    requires client.Valid()
    modifies client`sequence, client.wire
    ensures client.Valid()
    ensures old(client.wire.log) <= client.wire.log && ReadsOnly(client.wire.log, |old(client.wire.log)|)
    ensures client.wire.face == old(client.wire.face)
    ensures r.Ok? ==> AllBounded(r.value)
    ensures client.wire.Honest() && r.Ok? ==>
              r.value == VlanRows(client.wire.face.state)
    ensures client.wire.Reliable() ==> r.Ok?
  {
    ghost var before := client.wire.face;
    var tags := [TAG_PORT_COUNT, TAG_VLAN_MEMBERS];
    assert TAG_END_OF_MARK !in tags && WithModel(tags) == [TAG_MODEL, TAG_PORT_COUNT, TAG_VLAN_MEMBERS];
    var device := ReadDevice(client, tags);
    TableAnswer(before, ReadRequest(client.clientMac, client.sequence, [TAG_MODEL, TAG_PORT_COUNT, TAG_VLAN_MEMBERS]));
    if device.Err? {
      return Err(device.error);
    }
    r := Ok(device.value.fields.tables.members);
  }

  // ------------------------------------------------------------------
  // PVIDs
  // ------------------------------------------------------------------

  function PvidList(s: State, ports: seq<int>): (r: seq<PortPvid>)
    requires forall i :: 0 <= i < |ports| ==> ports[i] in s.pvids
    ensures |r| == |ports|
  {
    if ports == [] then []
    else
      assert ports[|ports| - 1] in s.pvids;
      var port: Byte := ports[|ports| - 1];
      PvidList(s, ports[..|ports| - 1]) + [PortPvid(port, s.pvids[port])]
  }

  function PvidRows(s: State): seq<PortPvid> {
    PvidList(s, PvidPorts(s))
  }

  /** pvidMap, looked up: a later entry for a port hides an earlier one. */
  function PvidOf(pvids: seq<PortPvid>, port: int): Option<U16> {
    if pvids == [] then None
    else if pvids[|pvids| - 1].port == port then Some(pvids[|pvids| - 1].vlan)
    else PvidOf(pvids[..|pvids| - 1], port)
  }

  lemma {:induction false} PvidOfList(s: State, ports: seq<int>, port: int)
    requires forall i :: 0 <= i < |ports| ==> ports[i] in s.pvids
    ensures PvidOf(PvidList(s, ports), port) == if port in ports then Some(s.pvids[port]) else None
  {
    if ports != [] {
      var n := |ports| - 1;
      PvidOfList(s, ports[..n], port);
      assert ports == ports[..n] + [ports[n]];
      assert PvidList(s, ports)[..n] == PvidList(s, ports[..n]);
    }
  }

  lemma {:induction false} PvidTlvsParse(head: seq<Tlv>, s: State, ports: seq<int>)
    requires forall i :: 0 <= i < |ports| ==> ports[i] in s.pvids
    ensures All(head + PvidTlvs(s, ports), TAG_PORT_PVID, ParsePortPvid)
         == All(head, TAG_PORT_PVID, ParsePortPvid) + PvidList(s, ports)
    ensures WellFormed(PvidTlvs(s, ports), 8)
    ensures forall i :: 0 <= i < |ports| ==> PvidTlvs(s, ports)[i].tag == TAG_PORT_PVID
  {
    if ports == [] {
      assert head + PvidTlvs(s, ports) == head;
      assert All(head, TAG_PORT_PVID, ParsePortPvid) + [] == All(head, TAG_PORT_PVID, ParsePortPvid);
    } else {
      var rest := ports[..|ports| - 1];
      var port: Byte := ports[|ports| - 1];
      var t := Tlv(TAG_PORT_PVID, [port] + Put16(s.pvids[port]));
      PvidTlvsParse(head, s, rest);
      PvidValueParses(port, s.pvids[port]);
      AllStep(head + PvidTlvs(s, rest), t, TAG_PORT_PVID, ParsePortPvid);
      ConcatAssoc(head, PvidTlvs(s, rest), [t]);
      ConcatAssoc(All(head, TAG_PORT_PVID, ParsePortPvid), PvidList(s, rest), [PortPvid(port, s.pvids[port])]);
      ConcatWellFormed(PvidTlvs(s, rest), [t], 8);
    }
  }

  lemma {:induction false} PvidValueParses(port: Byte, vlan: U16)
    ensures ParsePortPvid([port] + Put16(vlan)) == Some(PortPvid(port, vlan))
    ensures WellFormed([Tlv(TAG_PORT_PVID, [port] + Put16(vlan))], 8)
  {
    assert ([port] + Put16(vlan))[1..3] == Put16(vlan);
  }

  function PvidHead(s: State): seq<Tlv> {
    [Tlv(TAG_MODEL, s.model)]
  }

  lemma {:induction false} PvidHeadReadings(s: State)
    ensures Newest(PvidHead(s), TAG_MODEL, ParseText).Some?
    ensures Newest(PvidHead(s), TAG_PORT_COUNT, ParseByte) == None
    ensures Newest(PvidHead(s), TAG_MAC, ParseMac) == None
    ensures All(PvidHead(s), TAG_PORT_PVID, ParsePortPvid) == []
    ensures WellFormed(PvidHead(s), 8)
  {
    var a := Tlv(TAG_MODEL, s.model);
    assert PvidHead(s) == [] + [a];
    NewestStep([], a, TAG_MODEL, ParseText);
    NewestStep([], a, TAG_PORT_COUNT, ParseByte);
    NewestStep([], a, TAG_MAC, ParseMac);
    AllStep([], a, TAG_PORT_PVID, ParsePortPvid);
  }

  ghost predicate AllTagged(tlvs: seq<Tlv>, tag: U16) {
    forall i :: 0 <= i < |tlvs| ==> tlvs[i].tag == tag
  }

  lemma {:induction false} PvidTableTagged(s: State)
    ensures AllTagged(PvidTable(s), TAG_PORT_PVID)
  {
    PvidTlvsParse([], s, PvidPorts(s));
  }

  lemma {:induction false} BehindPvids<T>(head: seq<Tlv>, tail: seq<Tlv>, tag: U16, parse: Bytes -> Option<T>)
    requires AllTagged(tail, TAG_PORT_PVID) && tag != TAG_PORT_PVID
    ensures Newest(head + tail, tag, parse) == Newest(head, tag, parse)
  {
    TailOther(head, tail, tag, parse);
  }

  /** The PVIDs behind them leave the readings of the other tags as they are. */
  lemma {:induction false} PvidTailOther(s: State)
    ensures var tlvs := PvidHead(s) + PvidTable(s);
            && PortCount(tlvs) == 8
            && Newest(tlvs, TAG_MODEL, ParseText).Some? && Newest(tlvs, TAG_MAC, ParseMac) == None
  {
    PvidHeadReadings(s);
    PvidTableTagged(s);
    BehindPvids(PvidHead(s), PvidTable(s), TAG_MODEL, ParseText);
    BehindPvids(PvidHead(s), PvidTable(s), TAG_PORT_COUNT, ParseByte);
    BehindPvids(PvidHead(s), PvidTable(s), TAG_MAC, ParseMac);
  }

  lemma {:induction false} PvidReadings(s: State)
    ensures WellFormed(PvidHead(s) + PvidTable(s), 8)
    ensures All(PvidHead(s) + PvidTable(s), TAG_PORT_PVID, ParsePortPvid) == PvidRows(s)
  {
    PvidHeadReadings(s);
    PvidTlvsParse(PvidHead(s), s, PvidPorts(s));
    ConcatWellFormed(PvidHead(s), PvidTable(s), 8);
    assert [] + PvidRows(s) == PvidRows(s);
  }

  lemma {:induction false} PvidsAssemble(s: State, p: Packet)
    requires SaneState(s) && p.serverMac == s.mac
    requires p.tlvs == PvidHead(s) + PvidTable(s)
    ensures Assemble(p).Ok? && Assemble(p).value.fields.tables.pvids == PvidRows(s)
  {
    PvidReadings(s);
    PvidTailOther(s);
    Assembles(p, 8);
  }

  lemma {:induction false} PvidTags(s: State, tags: set<U16>)
    requires Projectable(s) && tags == {TAG_MODEL, TAG_PORT_PVID}
    ensures NsdpTlvs(s, tags) == PvidHead(s) + PvidTable(s)
  {
    assert TAG_MODEL in tags && TAG_PORT_PVID in tags;
    assert TAG_MAC !in tags && TAG_HOSTNAME !in tags && TAG_PORT_COUNT !in tags && TAG_VLAN_MEMBERS !in tags;
    assert PvidHead(s) + [] == PvidHead(s);
  }

  /** Reading the PVIDs changes nothing and gives the switch's own. */
  lemma {:induction false} PvidAnswer(f: Face, req: Packet)
    requires Sane(f) && req.tlvs == Ask([TAG_MODEL, TAG_PORT_PVID])
    ensures var s := ServeRead(f, req);
            && s.face == f
            && Assemble(s.reply.value).Ok?
            && Assemble(s.reply.value).value.fields.tables.pvids == PvidRows(f.state)
  {
    TagsOfAsk([TAG_MODEL, TAG_PORT_PVID]);
    PvidTags(f.state, Tags(req.tlvs));
    var tlvs := NsdpTlvs(f.state, Tags(req.tlvs));
    assert tlvs + [] + [] == tlvs;
    PvidsAssemble(f.state, ServeRead(f, req).reply.value);
  }

  /** GetPVIDs. */
  method GetPvids(client: Client) returns (r: Result<seq<PortPvid>, ReadError>)
    requires client.Valid()
    modifies client`sequence, client.wire
    ensures client.Valid()
    ensures old(client.wire.log) <= client.wire.log && ReadsOnly(client.wire.log, |old(client.wire.log)|)
    ensures client.wire.face == old(client.wire.face)
    ensures client.wire.Honest() && r.Ok? ==>
              r.value == PvidRows(client.wire.face.state)
    ensures client.wire.Reliable() ==> r.Ok?
  {
    ghost var before := client.wire.face;
    assert [TAG_MODEL] + [TAG_PORT_PVID] == [TAG_MODEL, TAG_PORT_PVID];
    var device := ReadDevice(client, [TAG_PORT_PVID]);
    PvidAnswer(before, ReadRequest(client.clientMac, client.sequence, [TAG_MODEL, TAG_PORT_PVID]));
    if device.Err? {
      return Err(device.error);
    }
    r := Ok(device.value.fields.tables.pvids);
  }
}
