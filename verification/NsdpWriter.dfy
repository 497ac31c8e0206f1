/** Read-modify-write-verify over NSDP (nsdp/writer.go), end to end: through the
    client, the codec, the network and the switch, and back. */
module NsdpWriter {
  import opened Prelude
  import opened PortBitmap
  import opened NsdpCodec
  import opened NsdpDevice
  import opened NsdpVlan
  import opened NsdpAuth
  import opened NsdpSwitch
  import opened NsdpClient
  import opened NsdpReader

  datatype WriteError =
    | ProtectedPort
    | ReadFailed(read: ReadError)
    | WriteFailed(write: ClientError)
    | OutOfRange
    | NoSuchVlan
    | NotVerified

  // ------------------------------------------------------------------
  // What a membership change means
  // ------------------------------------------------------------------

  /** A port's mode in a VLAN. */
  function ModeIn(v: Vlan, port: int): VlanMode {
    if port !in v.member then Excluded else if port in v.untagged then Untagged else Tagged
  }

  function MembersWith(members: set<int>, port: int, mode: VlanMode): set<int> {
    if mode == Excluded then members - {port} else members + {port}
  }

  function TaggedWith(tagged: set<int>, port: int, mode: VlanMode): set<int> {
    if mode == Tagged then tagged + {port} else tagged - {port}
  }

  /** What the switch holds for a VLAN, an absent one being empty. */
  function VlanAt(s: State, vid: int): Vlan {
    if 0 <= vid <= 0xFFFF && vid in s.vlans then s.vlans[vid] else Vlan({}, {})
  }

  function Changed(v: Vlan, port: int, mode: VlanMode): Vlan {
    var member := MembersWith(v.member, port, mode);
    Vlan(member, member - TaggedWith(TaggedPorts(v), port, mode))
  }

  /** The configuration after the change: one entry of one table. */
  function AfterMembership(s: State, vid: U16, port: int, mode: VlanMode): State {
    s.(vlans := s.vlans[vid := Changed(VlanAt(s, vid), port, mode)])
  }

  /** The change gives the port its mode, and no other port and no other VLAN changes;
      a VLAN that was absent is present afterwards. */
  lemma {:induction false} MembershipChange(s: State, vid: U16, port: int, mode: VlanMode)
    ensures var after := AfterMembership(s, vid, port, mode);
            && vid in after.vlans && ModeIn(after.vlans[vid], port) == mode
            && (forall q :: q != port ==> ModeIn(after.vlans[vid], q) == ModeIn(VlanAt(s, vid), q))
            && (forall v: U16 :: v != vid ==> (v in after.vlans <==> v in s.vlans))
            && (forall v: U16 :: v != vid && v in s.vlans ==> after.vlans[v] == s.vlans[v])
            && after.pvids == s.pvids && after.hostname == s.hostname && SameIdentity(s, after)
  {
  }

  // ------------------------------------------------------------------
  // The operations
  // ------------------------------------------------------------------

  function SeqSet(s: seq<int>): (r: set<int>)
    ensures r == Elements(s)
  {
    set x | x in s
  }

  /** membersAfter: both sets start from what was read, and are sorted at the end. */
  method MembersAfter(current: Option<Membership>, port: int, mode: VlanMode)
    returns (members: seq<int>, tagged: seq<int>)
    ensures var m := if current.Some? then SeqSet(current.value.members) else {};
            members == SortedSet(MembersWith(m, port, mode))
    ensures var t := if current.Some? then SeqSet(current.value.tagged) else {};
            tagged == SortedSet(TaggedWith(t, port, mode))
  {
    var memberSet, taggedSet := {}, {};
    if current.Some? {
      memberSet := Collect(current.value.members);
      taggedSet := Collect(current.value.tagged);
    }
    if mode == Excluded {
      memberSet, taggedSet := memberSet - {port}, taggedSet - {port};
    } else {
      memberSet := memberSet + {port};
      if mode == Tagged {
        taggedSet := taggedSet + {port};
      } else {
        taggedSet := taggedSet - {port};
      }
    }
    members, tagged := SortedSet(memberSet), SortedSet(taggedSet);
  }

  method Collect(ports: seq<int>) returns (s: set<int>)
    ensures s == SeqSet(ports)
  {
    s := {};
    for i := 0 to |ports|
      invariant s == SeqSet(ports[..i])
    {
      SliceStep(ports, i);
      s := s + {ports[i]};
    }
    WholeSlice(ports);
  }

  /** membershipOK: a VLAN that is gone is fine only for an exclusion. */
  predicate MembershipOk(after: Option<Membership>, port: int, mode: VlanMode) {
    if after.None? then mode == Excluded
    else if mode == Excluded then port !in after.value.members
    else port in after.value.members && (port in after.value.tagged <==> mode == Tagged)
  }

  lemma {:induction false} MembershipOkMeaning(s: State, vid: U16, port: int, mode: VlanMode)
    requires vid in s.vlans
    ensures MembershipOk(Some(MembershipOf(s, vid)), port, mode) <==> ModeIn(s.vlans[vid], port) == mode
  {
  }

  /** The ports a model has bits for, an octet for every eight ports or fewer. */
  predicate HasBit(portCount: nat, port: int)
    decreases portCount
  {
    portCount > 0
    && if port <= 8 then port >= 1 else HasBit(if portCount < 8 then 0 else portCount - 8, port - 8)
  }

  /** A change the model's bitmaps can carry: an exclusion, or a port with a bit. */
  predicate Expressible(portCount: nat, port: int, mode: VlanMode) {
    mode == Excluded || HasBit(portCount, port)
  }

  lemma {:induction false} HasBitFits(portCount: nat, port: int)
    ensures HasBit(portCount, port) <==> 1 <= port <= 8 * BitmapWidth(portCount)
    ensures 1 <= port <= portCount ==> HasBit(portCount, port)
    decreases portCount
  {
    WidthMeaning(portCount);
    if portCount > 0 {
      var rest := if portCount < 8 then 0 else portCount - 8;
      WidthMeaning(rest);
      HasBitFits(rest, port - 8);
    }
  }

  /** The model's bitmaps are as wide as the switch's. */
  predicate SameWidth(s: State, portCount: nat) {
    BitmapWidth(portCount) == BitmapWidth(s.portCount)
  }

  lemma {:induction false} SameReach(s: State, portCount: nat, port: int, mode: VlanMode)
    ensures SameWidth(s, portCount) ==> (Expressible(s.portCount, port, mode) <==> Expressible(portCount, port, mode))
  {
    HasBitFits(portCount, port);
    HasBitFits(s.portCount, port);
  }

  lemma {:induction false} ChangeFits(s: State, vid: int, port: int, mode: VlanMode, portCount: nat)
    requires SaneState(s) && SameWidth(s, portCount) && Expressible(portCount, port, mode)
    ensures WithinWidth(MembersWith(VlanAt(s, vid).member, port, mode), BitmapWidth(portCount))
    ensures WithinWidth(TaggedWith(TaggedPorts(VlanAt(s, vid)), port, mode), BitmapWidth(portCount))
  {
    HasBitFits(portCount, port);
    if 0 <= vid <= 0xFFFF && vid in s.vlans {
      assert WithinWidth(s.vlans[vid].member, BitmapWidth(s.portCount));
    }
  }

  lemma {:induction false} AppliesOne(s: State, t: Tlv)
    requires t.tag != TAG_AUTH_V2_PASSWORD && t.tag != TAG_PASSWORD
    ensures Applied(s, [t]) == ApplyWrite(s, t)
  {
    var credential := if s.authV2 then TAG_AUTH_V2_PASSWORD else TAG_PASSWORD;
    assert [t][1..] == [];
    assert ApplyWrites(ApplyWrite(s, t), [], credential) == ApplyWrite(s, t);
  }

  lemma {:induction false} StoresMembers(s: State, vid: U16, m: set<int>, t: set<int>, value: Bytes)
    requires ParseVlanMembers(value, s.portCount) == Some(Membership(vid, SortedSet(m), SortedSet(t)))
    ensures ApplyWrite(s, Tlv(TAG_VLAN_MEMBERS, value)) == s.(vlans := s.vlans[vid := Vlan(m, m - t)])
  {
    SortedElements(m);
    SortedElements(t);
  }

  /** What the switch does with the TLV of two port sets. */
  lemma {:induction false} MembersApply(s: State, vid: U16, m: set<int>, t: set<int>, portCount: nat)
    requires BitmapWidth(portCount) == BitmapWidth(s.portCount)
    requires WithinWidth(m, BitmapWidth(portCount)) && WithinWidth(t, BitmapWidth(portCount))
    ensures Codable(SortedSet(m)) && Codable(SortedSet(t))
    ensures var tlv := VlanMembersTlv(vid, SortedSet(m), SortedSet(t), portCount).value;
            && EncodableTlvs([tlv])
            && Applied(s, [tlv]) == s.(vlans := s.vlans[vid := Vlan(m, m - t)])
  {
    VlanMembersRoundTrip(vid, m, t, portCount);
    var value := VlanMembersValue(vid, SortedSet(m), SortedSet(t), portCount);
    SameWidthParses(value, portCount, s.portCount);
    StoresMembers(s, vid, m, t, value);
    AppliesOne(s, Tlv(TAG_VLAN_MEMBERS, value));
  }

  lemma {:induction false} SameWidthParses(v: Bytes, a: nat, b: nat)
    requires BitmapWidth(a) == BitmapWidth(b)
    ensures ParseVlanMembers(v, a) == ParseVlanMembers(v, b)
  {
  }

  lemma {:induction false} SortedElements(s: set<int>)
    ensures PortSet(SortedSet(s)) == s && SeqSet(SortedSet(s)) == s
  {
  }

  class Writer {
    const client: Client
    const portCount: nat
    const password: Bytes
    const protectedPorts: set<int>

    ghost predicate Valid()
      reads client, client.wire
    {
      client.Valid()
    }

    constructor (client: Client, portCount: nat, password: Bytes, protectedPorts: set<int>)
      requires client.Valid()
      ensures Valid() && this.client == client && this.portCount == portCount
      ensures this.password == password && this.protectedPorts == protectedPorts
    {
      this.client := client;
      this.portCount := portCount;
      this.password := password;
      this.protectedPorts := protectedPorts;
    }

    /** vlan: one VLAN of the table, or none. */
    method ReadVlan(vid: int) returns (r: Result<Option<Membership>, WriteError>)
      requires Valid()
      modifies client`sequence, client.wire
      ensures Valid() && client.wire.face == old(client.wire.face)
      ensures old(client.wire.log) <= client.wire.log && ReadsOnly(client.wire.log, |old(client.wire.log)|)
      ensures r.Ok? && r.value.Some? ==> Bounded(r.value.value)
      ensures client.wire.Honest() && r.Ok? ==>
                r.value == LookedUp(client.wire.face.state, vid)
      ensures client.wire.Reliable() ==> r.Ok?
    {
      var vlans := GetVlans(client);
      if vlans.Err? {
        return Err(ReadFailed(vlans.error));
      }
      FindMeaning(client.wire.face.state, vid);
      r := Ok(Find(vlans.value, vid));
      if r.value.Some? {
        BoundedRow(vlans.value, r.value.value);
      }
    }

    /** The switch will take this writer's writes. */
    ghost predicate Accepted()
      reads client, client.wire
    {
      client.WillAccept(client.wire.face, password)
    }

    /** SetVlanMembership. Whatever the network loses, the switch's configuration is
        afterwards either what it was or exactly what was asked for, and success
        means the latter; and over a network that loses nothing it succeeds exactly
        when the bitmaps can carry the change. Even stray datagrams, which may be taken
        for the switch's, cannot make it change anything but this one VLAN. */
    method SetVlanMembership(vid: int, port: int, mode: VlanMode, force: bool) returns (r: Result<(), WriteError>)
      requires Valid()
      requires mode == Excluded || port >= -6
      modifies client, client.wire
      ensures Valid()
      ensures port in protectedPorts && !force ==> r == Err(ProtectedPort) && client.wire.exchanges == old(client.wire.exchanges)
      ensures Modest(port, mode) ==> OnlyVlan(old(client.wire.face.state), client.wire.face.state, vid)
      ensures client.wire.Honest() && r.Ok? ==> ModeIn(VlanAt(client.wire.face.state, vid), port) == mode && 0 <= vid <= 0xFFFF
      ensures client.wire.Honest() && old(Carries(port, mode)) ==>
                Either(old(client.wire.face.state), client.wire.face.state, vid, port, mode, r.Ok?)
      ensures client.wire.Reliable() && old(Accepted()) && (port !in protectedPorts || force)
              && old(SameWidth(client.wire.face.state, portCount)) && |password| <= 0xFFFF ==>
                (r.Ok? <==> 0 <= vid <= 0xFFFF && Expressible(portCount, port, mode))
      ensures client.wire.Reliable() && old(Accepted()) && (port !in protectedPorts || force)
              && portCount == old(client.wire.face.state.portCount as nat) && |password| <= 0xFFFF
              && 0 <= vid <= 0xFFFF && 1 <= port <= portCount ==>
                r.Ok?
    {
      if port in protectedPorts && !force {
        return Err(ProtectedPort);
      }
      HasBitFits(portCount, port);
      r := ChangeMembership(vid, port, mode);
    }

    /** What it does once the guard has let it pass. */
    method ChangeMembership(vid: int, port: int, mode: VlanMode) returns (r: Result<(), WriteError>)
      requires Valid()
      requires mode == Excluded || port >= -6
      modifies client, client.wire
      ensures Valid()
      ensures Modest(port, mode) ==> OnlyVlan(old(client.wire.face.state), client.wire.face.state, vid)
      ensures client.wire.Honest() && r.Ok? ==> ModeIn(VlanAt(client.wire.face.state, vid), port) == mode && 0 <= vid <= 0xFFFF
      ensures client.wire.Honest() && old(Carries(port, mode)) ==>
                Either(old(client.wire.face.state), client.wire.face.state, vid, port, mode, r.Ok?)
      ensures client.wire.Reliable() && old(Accepted())
              && old(SameWidth(client.wire.face.state, portCount)) && |password| <= 0xFFFF ==>
                (r.Ok? <==> 0 <= vid <= 0xFFFF && Expressible(portCount, port, mode))
    {
      var before := ReadVlan(vid);
      if before.Err? {
        return Err(before.error);
      }
      ghost var start := client.wire.face.state;
      var written := WriteMembers(vid, port, mode, before.value);
      if written.Err? {
        return written;
      }
      var after := ReadVlan(vid);
      if after.Err? {
        return Err(after.error);
      }
      SameReach(client.wire.face.state, portCount, port, mode);
      MembershipChange(start, vid, port, mode);
      VerifiedMeaning(client.wire.face.state, vid, port, mode);
      if !MembershipOk(after.value, port, mode) {
        return Err(NotVerified);
      }
      r := Ok(());
    }

    /** The bitmaps and the password field can carry the change. */
    ghost predicate Carries(port: int, mode: VlanMode)
      reads client, client.wire
    {
      SameWidth(client.wire.face.state, portCount) && Expressible(portCount, port, mode) && |password| <= 0xFFFF
    }

    /** What is sent fits the packet's length fields, whatever was read. */
    predicate Modest(port: int, mode: VlanMode) {
      portCount <= 0xFFFF && (mode == Excluded || port <= 0xFFFF) && |password| <= 0xFFFF
    }

    /** The write in the middle of SetVlanMembership. */
    method WriteMembers(vid: int, port: int, mode: VlanMode, before: Option<Membership>) returns (r: Result<(), WriteError>)
      requires Valid()
      requires mode == Excluded || port >= -6
      requires before.Some? ==> Bounded(before.value)
      modifies client, client.wire
      ensures Valid()
      ensures r.Ok? ==> 0 <= vid <= 0xFFFF
      ensures SameIdentity(old(client.wire.face.state), client.wire.face.state)
      ensures Modest(port, mode) ==> OnlyVlan(old(client.wire.face.state), client.wire.face.state, vid)
      ensures client.wire.Honest() && old(Carries(port, mode)) && before == old(LookedUp(client.wire.face.state, vid)) ==>
                Either(old(client.wire.face.state), client.wire.face.state, vid, port, mode, r.Ok?)
      ensures client.wire.Reliable() && old(Accepted()) && 0 <= vid <= 0xFFFF && old(Carries(port, mode))
              && before == old(LookedUp(client.wire.face.state, vid)) ==>
                r.Ok?
    {
      ghost var start := client.wire.face.state;
      var members, tagged := MembersAfter(before, port, mode);
      if vid < 0 || vid > 0xFFFF {
        return Err(OutOfRange);
      }
      ChangeCodable(before, port, mode);
      var tlv := VlanMembersTlv(vid, members, tagged, portCount);
      if Carries(port, mode) && before == LookedUp(start, vid) {
        SetsRead(start, vid, before);
        ChangeFits(start, vid, port, mode, portCount);
        MembersApply(start, vid, MembersWith(VlanAt(start, vid).member, port, mode),
                     TaggedWith(TaggedPorts(VlanAt(start, vid)), port, mode), portCount);
      }
      if Modest(port, mode) {
        ModestFits(vid, members, tagged, portCount);
        MembersAlone(start, vid, members, tagged, portCount);
      }
      var written := client.Write([tlv.value], password);
      r := if written.Ok? then Ok(()) else Err(WriteFailed(written.error));
    }

    /** One write between reads: applied whole or not at all, and accepted when the
        switch takes this writer's password. */
    method WriteOne(tlv: Tlv) returns (r: Result<(), WriteError>)
      requires Valid() && EncodableTlv(tlv)
      requires tlv.tag != TAG_AUTH_V2_PASSWORD && tlv.tag != TAG_PASSWORD
      modifies client, client.wire
      ensures Valid()
      ensures |password| <= 0xFFFF ==>
                (client.wire.face.state == old(client.wire.face.state) && (client.wire.Honest() ==> r.Err?))
                || client.wire.face.state == ApplyWrite(old(client.wire.face.state), tlv)
      ensures client.wire.Reliable() && old(Accepted()) && |password| <= 0xFFFF ==> r.Ok?
    {
      AppliesOne(client.wire.face.state, tlv);
      var written := client.Write([tlv], password);
      r := if written.Ok? then Ok(()) else Err(WriteFailed(written.error));
    }

    /** SetPVID: the VLAN must exist before anything is written, and the new PVID must
        read back. Whatever the network does, nothing changes but the port's PVID. */
    method SetPvid(port: int, vlan: int, force: bool) returns (r: Result<(), WriteError>)
      requires Valid()
      modifies client, client.wire
      ensures Valid()
      ensures port in protectedPorts && !force ==> r == Err(ProtectedPort) && client.wire.exchanges == old(client.wire.exchanges)
      ensures client.wire.Honest() && !old(Exists(vlan)) ==>
                r.Err? && client.wire.face.state == old(client.wire.face.state)
                && ReadsOnly(client.wire.log, |old(client.wire.log)|)
      ensures |password| <= 0xFFFF ==>
                (client.wire.face.state == old(client.wire.face.state) && (client.wire.Honest() ==> r.Err?))
                || ((client.wire.Honest() ==> old(Exists(vlan))) && 0 <= port <= 0xFF && 0 <= vlan <= 0xFFFF
                    && client.wire.face.state == AfterPvid(old(client.wire.face.state), port, vlan))
      ensures client.wire.Reliable() && old(Accepted()) && (port !in protectedPorts || force) && |password| <= 0xFFFF ==>
                (r.Ok? <==> old(Exists(vlan)) && 0 <= port <= 0xFF)
    {
      if port in protectedPorts && !force {
        return Err(ProtectedPort);
      }
      var target := ReadVlan(vlan);
      if target.Err? {
        return Err(target.error);
      }
      if target.value.None? {
        return Err(NoSuchVlan);
      }
      var before := GetPvids(client);
      if before.Err? {
        return Err(ReadFailed(before.error));
      }
      if !(0 <= port <= 0xFF) || !(0 <= vlan <= 0xFFFF) {
        return Err(OutOfRange);
      }
      PvidApplies(client.wire.face.state, port, vlan);
      r := WriteOne(Tlv(TAG_PORT_PVID, [port] + Put16(vlan)));
      if r.Ok? {
        var after := GetPvids(client);
        PvidOfList(client.wire.face.state, PvidPorts(client.wire.face.state), port);
        if after.Err? {
          r := Err(ReadFailed(after.error));
        } else if PvidOf(after.value, port) != Some(vlan) {
          r := Err(NotVerified);
        }
      }
    }

    ghost predicate Exists(vid: int)
      reads client, client.wire
    {
      0 <= vid <= 0xFFFF && vid in client.wire.face.state.vlans
    }

    /** CreateVlan: writing an empty record is the create; an id that is already there
        is left alone. Whatever the network does, nothing changes but that entry. */
    method CreateVlan(vid: int) returns (r: Result<(), WriteError>)
      requires Valid()
      modifies client, client.wire
      ensures Valid()
      ensures client.wire.Honest() && old(Exists(vid)) ==>
                client.wire.face.state == old(client.wire.face.state) && ReadsOnly(client.wire.log, |old(client.wire.log)|)
      ensures old(SameWidth(client.wire.face.state, portCount)) && |password| <= 0xFFFF ==>
                (client.wire.face.state == old(client.wire.face.state) && (client.wire.Honest() ==> r.Err? || old(Exists(vid))))
                || (0 <= vid <= 0xFFFF && client.wire.face.state == AfterCreate(old(client.wire.face.state), vid))
      ensures client.wire.Reliable() && old(Accepted())
              && old(SameWidth(client.wire.face.state, portCount)) && |password| <= 0xFFFF ==>
                (r.Ok? <==> 0 <= vid <= 0xFFFF)
    {
      ghost var start := client.wire.face.state;
      var existing := ReadVlan(vid);
      if existing.Err? {
        return Err(existing.error);
      }
      if existing.value.Some? {
        return Ok(());
      }
      var tlv := VlanMembersTlv(vid, [], [], portCount);
      if tlv.None? {
        return Err(OutOfRange);
      }
      var written := client.Write([tlv.value], password);
      if SameWidth(start, portCount) {
        EmptyApplies(start, vid, portCount);
      }
      if written.Err? {
        return Err(WriteFailed(written.error));
      }
      var after := ReadVlan(vid);
      if after.Err? {
        return Err(after.error);
      }
      r := if after.value.Some? then Ok(()) else Err(NotVerified);
    }

    /** The write in the middle of DeleteVlan. */
    method Destroy(vid: U16) returns (r: Result<(), WriteError>)
      requires Valid()
      modifies client, client.wire
      ensures Valid()
      ensures |password| <= 0xFFFF ==>
                (client.wire.face.state == old(client.wire.face.state) && (client.wire.Honest() ==> r.Err?))
                || client.wire.face.state == AfterDelete(old(client.wire.face.state), vid)
      ensures client.wire.Reliable() && old(Accepted()) && |password| <= 0xFFFF ==> r.Ok?
    {
      DestroyApplies(client.wire.face.state, vid);
      r := WriteOne(Tlv(TAG_VLAN_DESTROY, Put16(vid)));
    }

    /** DeleteVlan. The id is truncated to 16 bits when it is written, but not when it
        is looked for afterwards. */
    method DeleteVlan(vid: int, force: bool) returns (r: Result<(), WriteError>)
      requires Valid()
      modifies client, client.wire
      ensures Valid()
      ensures !force ==> r == Err(ProtectedPort) && client.wire.exchanges == old(client.wire.exchanges)
      ensures |password| <= 0xFFFF ==>
                (client.wire.face.state == old(client.wire.face.state) && (client.wire.Honest() ==> r.Err?))
                || client.wire.face.state == AfterDelete(old(client.wire.face.state), vid % 0x1_0000)
      ensures client.wire.Honest() && r.Ok? ==> !Exists(vid)
      ensures client.wire.Reliable() && old(Accepted()) && force && |password| <= 0xFFFF ==> r.Ok?
    {
      if !force {
        return Err(ProtectedPort);
      }
      var before := ReadVlan(vid);
      if before.Err? {
        return Err(before.error);
      }
      DeletedIsGone(client.wire.face.state, vid);
      r := Destroy(vid % 0x1_0000);
      if r.Ok? {
        var after := ReadVlan(vid);
        if after.Err? {
          r := Err(after.error);
        } else if after.value.Some? {
          r := Err(NotVerified);
        }
      }
    }
  }

  function AfterPvid(s: State, port: Byte, vlan: U16): State {
    s.(pvids := s.pvids[port := vlan])
  }

  lemma {:induction false} PvidApplies(s: State, port: Byte, vlan: U16)
    ensures ApplyWrite(s, Tlv(TAG_PORT_PVID, [port] + Put16(vlan))) == AfterPvid(s, port, vlan)
  {
    assert ([port] + Put16(vlan))[1..3] == Put16(vlan);
  }

  function AfterCreate(s: State, vid: U16): State {
    s.(vlans := s.vlans[vid := Vlan({}, {})])
  }

  lemma {:induction false} EmptyApplies(s: State, vid: U16, portCount: nat)
    requires SaneState(s) && SameWidth(s, portCount)
    ensures EncodableTlvs([VlanMembersTlv(vid, [], [], portCount).value])
    ensures Applied(s, [VlanMembersTlv(vid, [], [], portCount).value]) == AfterCreate(s, vid)
  {
    var none: set<int> := {};
    MembersApply(s, vid, none, none, portCount);
    assert none - none == none;
  }

  /** A destroyed VLAN is gone, and the ports whose PVID it was fall back to VLAN 1. */
  function AfterDelete(s: State, vid: U16): State {
    if vid in s.vlans then s.(vlans := s.vlans - {vid}, pvids := Repoint(s.pvids, vid)) else s
  }

  /** What is looked for after a delete is not found. */
  lemma {:induction false} DeletedIsGone(s: State, vid: int)
    ensures LookedUp(AfterDelete(s, vid % 0x1_0000), vid) == None
  {
  }

  lemma {:induction false} DestroyApplies(s: State, vid: U16)
    ensures ApplyWrite(s, Tlv(TAG_VLAN_DESTROY, Put16(vid))) == AfterDelete(s, vid)
  {
    assert Put16(vid)[0..2] == Put16(vid);
  }

  /** Deleting removes the VLAN asked for, and no other, exactly when the id fits 16
      bits or its low 16 bits name no VLAN. Otherwise another VLAN is destroyed, and
      success is reported: an id of 65537 destroys VLAN 1. */
  lemma {:induction false} DeleteIsExact(s: State, vid: int)
    ensures AfterDelete(s, vid % 0x1_0000).vlans == (if 0 <= vid <= 0xFFFF then s.vlans - {vid} else s.vlans)
       <==> 0 <= vid <= 0xFFFF || vid % 0x1_0000 !in s.vlans
  {
    var low: U16 := vid % 0x1_0000;
    if low in s.vlans {
      assert low !in (s.vlans - {low});
    } else {
      assert s.vlans - {low} == s.vlans;
    }
  }

  /** Nothing happened, or exactly the change did; if it is done, then the change. */
  ghost predicate Either(before: State, after: State, vid: int, port: int, mode: VlanMode, done: bool) {
    || (!done && after == before)
    || (0 <= vid <= 0xFFFF && after == AfterMembership(before, vid, port, mode))
  }

  /** Nothing changed but one VLAN. */
  ghost predicate OnlyVlan(before: State, after: State, vid: int) {
    && after.pvids == before.pvids && after.hostname == before.hostname && SameIdentity(before, after)
    && forall v: U16 :: v != vid ==>
         && (v in after.vlans <==> v in before.vlans)
         && (v in before.vlans ==> after.vlans[v] == before.vlans[v])
  }

  /** The ports of a list, and one more, can be encoded. */
  lemma {:induction false} PortsCodable(ports: seq<int>, after: set<int>, port: int)
    requires forall p :: p in ports ==> 1 <= p <= 256
    requires port >= -6 || port !in after
    requires forall p :: p in after ==> p in ports || p == port
    ensures Codable(SortedSet(after)) && forall p :: p in SortedSet(after) ==> p <= 256 || (p == port && port in after)
  {
    CodableSet(after);
  }

  lemma {:induction false} BoundedPorts(m: Membership)
    requires Bounded(m)
    ensures forall p :: p in m.members ==> 1 <= p <= 256
    ensures forall p :: p in m.tagged ==> 1 <= p <= 256
  {
    assert forall p :: p in m.members || p in m.tagged ==> p in Elements(m.members) + Elements(m.tagged);
  }

  /** The sets a change may leave can be encoded, and hold no port out of bounds. */
  lemma {:induction false} ChangeCodable(current: Option<Membership>, port: int, mode: VlanMode)
    requires (current.Some? ==> Bounded(current.value)) && (mode == Excluded || port >= -6)
    ensures var m := SortedSet(MembersWith(if current.Some? then SeqSet(current.value.members) else {}, port, mode));
            Codable(m) && forall p :: p in m ==> p <= 256 || (p == port && mode != Excluded)
    ensures var t := SortedSet(TaggedWith(if current.Some? then SeqSet(current.value.tagged) else {}, port, mode));
            Codable(t) && forall p :: p in t ==> p <= 256 || (p == port && mode != Excluded)
  {
    if current.Some? {
      BoundedPorts(current.value);
    }
    var members: seq<int> := if current.Some? then current.value.members else [];
    var tagged: seq<int> := if current.Some? then current.value.tagged else [];
    assert SeqSet([]) == {};
    PortsCodable(members, MembersWith(SeqSet(members), port, mode), port);
    PortsCodable(tagged, TaggedWith(SeqSet(tagged), port, mode), port);
  }

  lemma {:induction false} ModestBitmap(ports: seq<int>, width: nat)
    requires Codable(ports) && width <= 0x2000 && forall p :: p in ports ==> p <= 0xFFFF
    ensures |Bitmap(ports, width)| <= 0x2000
  {
    BitmapLength(ports, width);
  }

  lemma {:induction false} ModestFits(vid: U16, members: seq<int>, tagged: seq<int>, portCount: nat)
    requires Codable(members) && Codable(tagged) && portCount <= 0xFFFF
    requires (forall p :: p in members ==> p <= 0xFFFF) && (forall p :: p in tagged ==> p <= 0xFFFF)
    ensures EncodableTlvs([VlanMembersTlv(vid, members, tagged, portCount).value])
  {
    ModestBitmap(members, BitmapWidth(portCount));
    ModestBitmap(tagged, BitmapWidth(portCount));
  }

  /** Whatever its bitmaps are, the TLV of a VLAN is about no other. */
  lemma {:induction false} MembersAlone(s: State, vid: U16, members: seq<int>, tagged: seq<int>, portCount: nat)
    requires Codable(members) && Codable(tagged)
    ensures OnlyVlan(s, s, vid)
    ensures OnlyVlan(s, Applied(s, [VlanMembersTlv(vid, members, tagged, portCount).value]), vid)
  {
    var tlv := VlanMembersTlv(vid, members, tagged, portCount).value;
    assert tlv.value[0..2] == Put16(vid);
    AppliesOne(s, tlv);
  }

  lemma {:induction false} CodableSet(s: set<int>)
    requires forall p :: p in s ==> p >= -6
    ensures Codable(SortedSet(s))
  {
    var list := SortedSet(s);
    assert forall i :: 0 <= i < |list| ==> list[i] in list;
  }

  /** What the read-back shows: the mode the switch now has for the port, which must
      have a bit to be a member. */
  lemma {:induction false} VerifiedMeaning(s: State, vid: U16, port: int, mode: VlanMode)
    requires SaneState(s)
    ensures MembershipOk(LookedUp(s, vid), port, mode) <==> ModeIn(VlanAt(s, vid), port) == mode
    ensures ModeIn(VlanAt(s, vid), port) == mode ==> Expressible(s.portCount, port, mode)
  {
    HasBitFits(s.portCount, port);
    if vid in s.vlans {
      MembershipOkMeaning(s, vid, port, mode);
      assert WithinWidth(s.vlans[vid].member, BitmapWidth(s.portCount));
    }
  }

  /** What a VLAN's record reads as. */
  function LookedUp(s: State, vid: int): Option<Membership> {
    if 0 <= vid <= 0xFFFF && vid in s.vlans then Some(MembershipOf(s, vid)) else None
  }

  /** The sets a change starts from are the switch's own. */
  lemma {:induction false} SetsRead(s: State, vid: int, current: Option<Membership>)
    requires current == LookedUp(s, vid)
    ensures (if current.Some? then SeqSet(current.value.members) else {}) == VlanAt(s, vid).member
    ensures (if current.Some? then SeqSet(current.value.tagged) else {}) == TaggedPorts(VlanAt(s, vid))
  {
    if current.Some? {
      SortedElements(s.vlans[vid].member);
      SortedElements(TaggedPorts(s.vlans[vid]));
    }
  }

  /** On a network that loses nothing, deleting VLAN 65537 deletes VLAN 1, and says it
      has succeeded. */
  method DeletesVlanOne(w: Writer) returns (r: Result<(), WriteError>)
    requires w.Valid() && w.client.wire.Reliable() && w.Accepted() && |w.password| <= 0xFFFF
    requires w.Exists(1)
    modifies w.client, w.client.wire
    ensures r.Ok? && !w.Exists(1)
  {
    assert 65537 % 0x1_0000 == 1;
    r := w.DeleteVlan(65537, true);
    assert w.client.wire.Honest();
  }
}
