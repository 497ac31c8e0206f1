/** The switch's side of NSDP by the numbers on the wire (nsdp/protocol.go,
    virtual/nsdpface.go, virtual/state.go). */
module NsdpProtocol {
  import opened Prelude
  import opened NsdpCodec
  import opened NsdpDevice
  import opened NsdpAuth
  import opened NsdpSwitch
  import opened NsdpReport

  // ------------------------------------------------------------------
  // Operations
  // ------------------------------------------------------------------

  /** The operations there are. */
  lemma {:induction false} OperationNumbers(op: Byte)
    ensures ValidOp(op) <==> 1 <= op <= 4
  {
  }

  /** Operation 1 is answered by 2 and operation 3 by 4, to the client that asked and
      with its sequence number; anything else is dropped, and changes nothing. */
  lemma {:induction false} ServedOperations(f: Face, req: Packet)
    requires Projectable(f.state)
    ensures var s := Serve(f, req);
            && (req.op == 1 ==> s.reply.Some?)
            && (req.op != 1 && req.op != 3 ==> s == Served(f, None))
            && (s.reply.Some? ==>
                  s.reply.value.op == req.op + 1 && s.reply.value.clientMac == req.clientMac
                  && s.reply.value.serverMac == f.state.mac && s.reply.value.sequence == req.sequence)
  {
  }

  // ------------------------------------------------------------------
  // Reading
  // ------------------------------------------------------------------

  lemma {:induction false} SoleTag(req: Packet, t: Tlv)
    requires req.tlvs == [t]
    ensures Tags(req.tlvs) == {t.tag}
  {
    assert req.tlvs[0].tag in Tags(req.tlvs);
  }

  /** The reply to a request for one tag. */
  ghost function ReadTlvs(f: Face, req: Packet): seq<Tlv>
    requires Projectable(f.state)
  {
    ServeRead(f, req).reply.value.tlvs
  }

  lemma {:induction false} OnlyPart(a: seq<Tlv>, b: seq<Tlv>, c: seq<Tlv>, d: seq<Tlv>)
    ensures a + [] + [] + [] + [] + [] == a && [] + b + [] + [] + [] + [] == b
    ensures [] + [] + c + [] + [] + [] == c && [] + [] + [] + d + [] + [] == d
  {
  }

  /** What identifies the switch, one tag at a time. */
  lemma {:induction false} IdentityTlvs(s: State, tag: U16)
    requires Projectable(s)
    ensures tag == 0x0001 ==> NsdpTlvs(s, {tag}) == [Tlv(0x0001, s.model)]
    ensures tag == 0x0004 ==> NsdpTlvs(s, {tag}) == [Tlv(0x0004, s.mac)]
    ensures tag == 0x6000 ==> NsdpTlvs(s, {tag}) == [Tlv(0x6000, [s.portCount])]
    ensures tag == 0x0003 && s.hostname != [] ==> NsdpTlvs(s, {tag}) == [Tlv(0x0003, s.hostname)]
  {
    OnlyPart([Tlv(0x0001, s.model)], [Tlv(0x0004, s.mac)], [Tlv(0x6000, [s.portCount])], [Tlv(0x0003, s.hostname)]);
  }

  lemma {:induction false} NothingMore(a: seq<Tlv>)
    ensures a + [] + [] == a
  {
  }

  /** A switch asked for what it is and holds says that, and does not change. */
  lemma {:induction false} PlainRead(f: Face, req: Packet, tags: set<U16>)
    requires Projectable(f.state) && tags == Tags(req.tlvs) && tags !! {0x0014, 0x0017, 0x001A}
    ensures ReadTlvs(f, req) == NsdpTlvs(f.state, tags) && ServeRead(f, req).face == f
  {
    assert TAG_AUTH_V2_ENCPASS !in tags && TAG_AUTH_V2_SALT !in tags && TAG_AUTH_V2_PASSWORD !in tags;
    NothingMore(NsdpTlvs(f.state, tags));
  }

  /** The scheme selector: 0x10 at the end for version 2, 1 for version 1. */
  lemma {:induction false} SelectorRead(f: Face, req: Packet, t: Tlv)
    requires Projectable(f.state) && req.tlvs == [t] && t.tag == 0x0014
    ensures ServeRead(f, req).face == f
    ensures ReadTlvs(f, req) == [Tlv(0x0014, [0, 0, 0, if f.state.authV2 then 0x10 else 0x01])]
  {
    SoleTag(req, t);
  }

  /** The challenge: a new one for each time it is read, and it is what the switch
      holds from then on. */
  lemma {:induction false} SaltRead(f: Face, req: Packet, t: Tlv)
    requires Projectable(f.state) && req.tlvs == [t] && t.tag == 0x0017
    ensures ReadTlvs(f, req) == [Tlv(0x0017, ServeRead(f, req).face.salt)]
    ensures ServeRead(f, req).face.state == f.state && ServeRead(f, req).face == NextSalt(f)
  {
    SoleTag(req, t);
  }

  /** A tag that cannot be read is refused by name, with error 3, if it is the only one
      asked for, and so is a request for the token itself. */
  lemma {:induction false} UnreadableRefused(f: Face, req: Packet, t: Tlv)
    requires Projectable(f.state) && req.tlvs == [t]
    requires t.tag !in {0x0001, 0x0003, 0x0004, 0x0014, 0x0017, 0x2800, 0x3000, 0x6000, 0xFFFF}
    ensures ServeRead(f, req) == Served(f, ServeRead(f, req).reply)
    ensures var reply := ServeRead(f, req).reply.value;
            reply.result == 0x0300 && reply.errorAttr == t.tag && reply.tlvs == []
  {
    SoleTag(req, t);
    assert t.tag != TAG_AUTH_V2_PASSWORD ==> NsdpTlvs(f.state, Tags(req.tlvs)) == [];
  }

  // ------------------------------------------------------------------
  // The challenge
  // ------------------------------------------------------------------

  /** Multiplying by the odd number 2654435761 is undone by multiplying by another. */
  lemma {:induction false} Unhash(c: nat)
    requires c < 0x1_0000_0000
    ensures c * 2654435761 % 0x1_0000_0000 * 244002641 % 0x1_0000_0000 == c
  {
    var q := c * 2654435761 / 0x1_0000_0000;
    var r := c * 2654435761 % 0x1_0000_0000;
    assert c * 2654435761 == 0x1_0000_0000 * q + r;
    assert r * 244002641 == c * (2654435761 * 244002641) - 0x1_0000_0000 * (q * 244002641);
    assert 2654435761 * 244002641 == 0x1_0000_0000 * 150801925 + 1;
    assert r * 244002641 == 0x1_0000_0000 * (c * 150801925 - q * 244002641) + c;
    Remainder(c * 150801925 - q * 244002641, c);
  }

  lemma {:induction false} Remainder(k: int, c: nat)
    requires c < 0x1_0000_0000
    ensures (0x1_0000_0000 * k + c) % 0x1_0000_0000 == c
  {
  }

  lemma {:induction false} HashInjective(a: U32, b: U32, x: int, y: int)
    requires x == a as int * 2654435761 % 0x1_0000_0000 && y == b as int * 2654435761 % 0x1_0000_0000
    ensures x == y ==> a == b
  {
    Unhash(a);
    Unhash(b);
  }

  lemma {:induction false} NextCounter(a: U32, b: U32)
    ensures (a as int + 1) % 0x1_0000_0000 == (b as int + 1) % 0x1_0000_0000 ==> a == b
  {
  }

  lemma {:induction false} PutOnce(x: U32, y: U32)
    ensures Put32(x) == Put32(y) ==> x == y
  {
    assert Get32(Put32(x)) == x && Get32(Put32(y)) == y;
  }

  /** No challenge comes twice before the counter does: two are the same only if the
      counter was the same. */
  lemma {:induction false} SaltsDiffer(f: Face, g: Face)
    ensures NextSalt(f).salt == NextSalt(g).salt <==> f.saltCounter == g.saltCounter
  {
    var a, b := NextSalt(f).saltCounter, NextSalt(g).saltCounter;
    var x, y := a as int * 2654435761 % 0x1_0000_0000, b as int * 2654435761 % 0x1_0000_0000;
    NextCounter(f.saltCounter, g.saltCounter);
    HashInjective(a, b, x, y);
    PutOnce(x, y);
  }

  // ------------------------------------------------------------------
  // Writing
  // ------------------------------------------------------------------

  /** Tag 0x000A carries the version 1 password, tag 0x001A the version 2 token: it is
      what the switch holds them to. */
  lemma {:induction false} CredentialsByNumber(f: Face, req: Packet, rest: seq<Tlv>, value: Bytes)
    requires Sane(f) && IsAscii(f.state.password) && f.authFailures <= 5
    ensures f.state.authV2 && req.tlvs == [Tlv(0x001A, value)] + rest ==>
              (ServeWrite(f, req).reply.value.result == 0
               <==> f.saltCounter != 0 && value == Token(f.state.password, f.state.mac, f.salt))
    ensures !f.state.authV2 && req.tlvs == [Tlv(0x000A, value)] + rest && value == XorKey(f.state.password) ==>
              ServeWrite(f, req).reply.value.result == 0
    ensures !f.state.authV2 && (forall v: Bytes :: Tlv(0x000A, v) !in req.tlvs) ==>
              ServeWrite(f, req).reply.value.result == 0x0700 && ServeWrite(f, req).face == f
  {
    if !f.state.authV2 && req.tlvs == [Tlv(0x000A, value)] + rest {
      assert req.tlvs[0] in req.tlvs;
    }
  }

  /** The answer to a write carries nothing, and blames a tag only where a version 2
      credential is refused: the first tag there is. */
  lemma {:induction false} WriteReplyBare(f: Face, req: Packet)
    requires ServeWrite(f, req).reply.Some?
    ensures var reply := ServeWrite(f, req).reply.value;
            && reply.tlvs == []
            && reply.errorAttr == if f.state.authV2 && reply.result != 0 && req.tlvs != [] then req.tlvs[0].tag else 0
  {
  }

  /** Tag 0x3000: a port's PVID, and no other's. */
  lemma {:induction false} PvidWritten(s: State, port: Byte, id: Bytes, vid: U16, rest: Bytes)
    requires |id| == 2 && vid == Low(id, 2)
    ensures ApplyWrite(s, Tlv(0x3000, [port] + id + rest)) == s.(pvids := s.pvids[port := vid])
  {
    var v := [port] + id + rest;
    assert v[1..3] == id;
    Get16Meaning(id);
  }

  /** Tag 0x2C00: the VLAN is gone, and the ports that had it as their PVID are back on
      VLAN 1. A VLAN that is not there is left at that. */
  lemma {:induction false} VlanDestroyed(s: State, id: Bytes, rest: Bytes)
    requires |id| == 2
    ensures var vid, r := Low(id, 2), ApplyWrite(s, Tlv(0x2C00, id + rest));
            && (forall v: U16 :: v in r.vlans <==> v in s.vlans && v != vid)
            && (forall v: U16 :: v in r.vlans ==> r.vlans[v] == s.vlans[v])
            && r.pvids.Keys == s.pvids.Keys
            && (forall p: Byte :: p in s.pvids ==>
                  r.pvids[p] == if vid in s.vlans && s.pvids[p] == vid then 1 else s.pvids[p])
            && r.hostname == s.hostname && SameIdentity(s, r)
  {
    assert (id + rest)[0..2] == id;
    Get16Meaning(id);
  }

  /** Tag 0x0003: the hostname, taken as it is. */
  lemma {:induction false} HostnameWritten(s: State, name: Bytes)
    ensures ApplyWrite(s, Tlv(0x0003, name)) == s.(hostname := name)
  {
  }

  /** Tag 0x2800: the whole of one VLAN; a member that is not tagged is untagged. */
  lemma {:induction false} VlanWritten(s: State, v: Bytes)
    ensures var m, r := ParseVlanMembers(v, s.portCount), ApplyWrite(s, Tlv(0x2800, v));
            && (m.None? ==> r == s)
            && (m.Some? ==>
                  && r == s.(vlans := s.vlans[m.value.vlan := r.vlans[m.value.vlan]])
                  && (forall p: int :: p in r.vlans[m.value.vlan].member <==> p in m.value.members)
                  && (forall p: int :: p in r.vlans[m.value.vlan].untagged <==> p in m.value.members && p !in m.value.tagged))
  {
  }

  /** Any other tag, and any value too short for its own, is passed over. */
  lemma {:induction false} OthersPassedOver(s: State, t: Tlv)
    requires t.tag !in {0x0003, 0x2800, 0x2C00, 0x3000} || (t.tag == 0x3000 && |t.value| < 3) || (t.tag == 0x2C00 && |t.value| < 2)
    ensures ApplyWrite(s, t) == s
  {
  }
}
