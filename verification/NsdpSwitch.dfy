/** The switch at the other end: the NSDP face of the virtual switch
    (virtual/nsdpface.go, virtual/state.go), as a step function on decoded packets. */
module NsdpSwitch {
  import opened Prelude
  import opened NsdpCodec
  import opened NsdpDevice
  import opened NsdpVlan
  import opened NsdpAuth

  const TAG_VLAN_DESTROY: U16 := 0x2C00

  const RESULT_SUCCESS: U16 := 0x0000
  const RESULT_READ_ONLY: U16 := 0x0300
  const RESULT_BAD_PASSWORD: U16 := 0x0700
  const RESULT_BAD_PASSWORD_V2: U16 := 0x0D00
  const RESULT_LOCKED_V2: U16 := 0x0E00

  const ESCALATE_AT: nat := 3
  const SILENCE_AT: nat := 5

  datatype Vlan = Vlan(member: set<int>, untagged: set<int>)

  datatype State = State(
    password: Bytes,
    mac: Bytes,
    authV2: bool,
    model: Bytes,
    portCount: Byte,
    hostname: Bytes,
    vlans: map<U16, Vlan>,
    pvids: map<Byte, U16>)

  datatype Face = Face(state: State, salt: Bytes, saltCounter: U32, authFailures: nat)

  datatype Served = Served(face: Face, reply: Option<Packet>)

  // ------------------------------------------------------------------
  // Reading
  // ------------------------------------------------------------------

  function TaggedPorts(v: Vlan): set<int> {
    v.member - v.untagged
  }

  /** A VLAN can be projected: its ports have byte indices. */
  ghost predicate Projectable(s: State) {
    forall vid :: vid in s.vlans ==> WithinWidth(s.vlans[vid].member, BitmapWidth(s.portCount))
  }

  function VlanTlv(s: State, vid: U16): Tlv
    requires vid in s.vlans && Projectable(s)
  {
    var v := s.vlans[vid];
    SetRoundTrip(v.member, BitmapWidth(s.portCount));
    SetRoundTrip(TaggedPorts(v), BitmapWidth(s.portCount));
    VlanMembersTlv(vid, SortedSet(v.member), SortedSet(TaggedPorts(v)), s.portCount).value
  }

  function VlanTlvs(s: State, vids: seq<int>): (r: seq<Tlv>)
    requires Projectable(s)
    requires forall i :: 0 <= i < |vids| ==> vids[i] in s.vlans
    ensures |r| == |vids|
  {
    if vids == [] then []
    else VlanTlvs(s, vids[..|vids| - 1]) + [VlanTlv(s, vids[|vids| - 1])]
  }

  function PvidTlvs(s: State, ports: seq<int>): (r: seq<Tlv>)
    requires forall i :: 0 <= i < |ports| ==> ports[i] in s.pvids
    ensures |r| == |ports|
  {
    if ports == [] then []
    else
      assert ports[|ports| - 1] in s.pvids;
      var port: Byte := ports[|ports| - 1];
      PvidTlvs(s, ports[..|ports| - 1]) + [Tlv(TAG_PORT_PVID, [port] + Put16(s.pvids[port]))]
  }

  function Vids(s: State): (r: seq<int>)
    ensures Ascending(r)
    ensures forall i :: 0 <= i < |r| ==> r[i] in s.vlans
    ensures forall v :: v in s.vlans ==> v in r
  {
    var r := SortedSet(set v | v in s.vlans :: v as int);
    assert forall i :: 0 <= i < |r| ==> r[i] in r;
    r
  }

  function PvidPorts(s: State): (r: seq<int>)
    ensures Ascending(r)
    ensures forall i :: 0 <= i < |r| ==> r[i] in s.pvids
    ensures forall p :: p in s.pvids ==> p in r
  {
    var r := SortedSet(set p | p in s.pvids :: p as int);
    assert forall i :: 0 <= i < |r| ==> r[i] in r;
    r
  }

  /** The VLAN table, by id, and the PVID table, by port. */
  function VlanTable(s: State): seq<Tlv>
    requires Projectable(s)
  {
    VlanTlvs(s, Vids(s))
  }

  function PvidTable(s: State): seq<Tlv> {
    PvidTlvs(s, PvidPorts(s))
  }

  function When(asked: bool, t: seq<Tlv>): seq<Tlv> {
    if asked then t else []
  }

  /** NsdpTlvs: the tags asked for and no others, in a fixed order. */
  function NsdpTlvs(s: State, tags: set<U16>): seq<Tlv>
    requires Projectable(s)
  {
    When(TAG_MODEL in tags, [Tlv(TAG_MODEL, s.model)])
    + When(TAG_MAC in tags, [Tlv(TAG_MAC, s.mac)])
    + When(TAG_PORT_COUNT in tags, [Tlv(TAG_PORT_COUNT, [s.portCount])])
    + When(TAG_HOSTNAME in tags && s.hostname != [], [Tlv(TAG_HOSTNAME, s.hostname)])
    + When(TAG_VLAN_MEMBERS in tags, VlanTable(s))
    + When(TAG_PORT_PVID in tags, PvidTable(s))
  }

  /** nextSalt: Knuth's multiplicative hash of a counter that wraps. */
  function NextSalt(f: Face): Face {
    var counter := (f.saltCounter + 1) % 0x1_0000_0000;
    f.(saltCounter := counter, salt := Put32(counter * 2654435761 % 0x1_0000_0000))
  }

  function Tags(tlvs: seq<Tlv>): set<U16> {
    set i | 0 <= i < |tlvs| :: tlvs[i].tag
  }

  function EncpassTlv(s: State): Tlv {
    Tlv(TAG_AUTH_V2_ENCPASS, [0, 0, 0, if s.authV2 then ENCPASS_V2 else ENCPASS_V1])
  }

  function Response(f: Face, req: Packet, op: Byte, result: U16, errorAttr: U16, tlvs: seq<Tlv>): Packet {
    Packet(op, req.clientMac, f.state.mac, req.sequence, result, errorAttr, tlvs)
  }

  /** readResponse. */
  function ServeRead(f: Face, req: Packet): Served
    requires Projectable(f.state)
  {
    var tags := Tags(req.tlvs);
    if TAG_AUTH_V2_PASSWORD in tags then
      Served(f, Some(Response(f, req, OP_READ_RESPONSE, RESULT_READ_ONLY, TAG_AUTH_V2_PASSWORD, [])))
    else
      var salted := if TAG_AUTH_V2_SALT in tags then NextSalt(f) else f;
      var tlvs := NsdpTlvs(f.state, tags)
                  + When(TAG_AUTH_V2_ENCPASS in tags, [EncpassTlv(f.state)])
                  + When(TAG_AUTH_V2_SALT in tags, [Tlv(TAG_AUTH_V2_SALT, salted.salt)]);
      if tlvs == [] && |req.tlvs| == 1 && req.tlvs[0].tag != TAG_END_OF_MARK then
        Served(salted, Some(Response(f, req, OP_READ_RESPONSE, RESULT_READ_ONLY, req.tlvs[0].tag, [])))
      else
        Served(salted, Some(Response(f, req, OP_READ_RESPONSE, RESULT_SUCCESS, 0, tlvs)))
  }

  // ------------------------------------------------------------------
  // Writing
  // ------------------------------------------------------------------

  function Repoint(pvids: map<Byte, U16>, vid: U16): map<Byte, U16> {
    map p | p in pvids :: if pvids[p] == vid then 1 else pvids[p]
  }

  function PortSet(ports: seq<int>): (r: set<int>)
    ensures r == Elements(ports)
  {
    set p | p in ports
  }

  /** ApplyNsdpWrite. A value too short for its tag is ignored, as is any other tag. */
  function ApplyWrite(s: State, t: Tlv): State {
    var v := t.value;
    if t.tag == TAG_PORT_PVID then
      if |v| < 3 then s else s.(pvids := s.pvids[v[0] := Get16(v[1..3])])
    else if t.tag == TAG_VLAN_MEMBERS then
      var m := ParseVlanMembers(v, s.portCount);
      if m.None? then s
      else
        var member := PortSet(m.value.members);
        s.(vlans := s.vlans[m.value.vlan := Vlan(member, member - PortSet(m.value.tagged))])
    else if t.tag == TAG_HOSTNAME then s.(hostname := v)
    else if t.tag == TAG_VLAN_DESTROY then
      if |v| < 2 then s
      else
        var vid := Get16(v[0..2]);
        if vid in s.vlans then s.(vlans := s.vlans - {vid}, pvids := Repoint(s.pvids, vid)) else s
    else s
  }

  /** Every TLV but the credential, in order. */
  function ApplyWrites(s: State, tlvs: seq<Tlv>, credential: U16): State
    decreases |tlvs|
  {
    if tlvs == [] then s
    else ApplyWrites(if tlvs[0].tag == credential then s else ApplyWrite(s, tlvs[0]), tlvs[1..], credential)
  }

  /** The value of the first TLV with a tag. */
  function FirstValue(tlvs: seq<Tlv>, tag: U16): Option<Bytes> {
    if tlvs == [] then None
    else if tlvs[0].tag == tag then Some(tlvs[0].value)
    else FirstValue(tlvs[1..], tag)
  }

  /** writeResponse. A switch whose own password is not ASCII never answers. */
  function ServeWrite(f: Face, req: Packet): Served {
    if f.state.authV2 then ServeWriteV2(f, req) else ServeWriteV1(f, req)
  }

  function ServeWriteV2(f: Face, req: Packet): Served {
    if f.authFailures > SILENCE_AT then Served(f, None)
    else
      var expected := AuthV2Password(f.state.password, f.state.mac, f.salt);
      if expected.Err? then Served(f, None)
      else
        var token := FirstValue(req.tlvs, TAG_AUTH_V2_PASSWORD);
        if token == Some(expected.value) && f.saltCounter != 0 then
          Served(f.(state := ApplyWrites(f.state, req.tlvs, TAG_AUTH_V2_PASSWORD), authFailures := 0),
                 Some(Response(f, req, OP_WRITE_RESPONSE, RESULT_SUCCESS, 0, [])))
        else
          var failures := f.authFailures + 1;
          Served(f.(authFailures := failures),
                 Some(Response(f, req, OP_WRITE_RESPONSE,
                               if failures > ESCALATE_AT then RESULT_LOCKED_V2 else RESULT_BAD_PASSWORD_V2,
                               if req.tlvs != [] then req.tlvs[0].tag else 0, [])))
  }

  function ServeWriteV1(f: Face, req: Packet): Served {
    if !IsAscii(f.state.password) then Served(f, None)
    else if Tlv(TAG_PASSWORD, XorKey(f.state.password)) in req.tlvs then
      Served(f.(state := ApplyWrites(f.state, req.tlvs, TAG_PASSWORD)),
             Some(Response(f, req, OP_WRITE_RESPONSE, RESULT_SUCCESS, 0, [])))
    else
      Served(f, Some(Response(f, req, OP_WRITE_RESPONSE, RESULT_BAD_PASSWORD, 0, [])))
  }

  /** handle: any other operation is dropped. */
  function Serve(f: Face, req: Packet): Served
    requires Projectable(f.state)
  {
    if req.op == OP_READ_REQUEST then ServeRead(f, req)
    else if req.op == OP_WRITE_REQUEST then ServeWrite(f, req)
    else Served(f, None)
  }

  // ------------------------------------------------------------------
  // What every step keeps
  // ------------------------------------------------------------------

  /** The switch's own invariant. */
  ghost predicate Sane(f: Face) {
    && SaneState(f.state)
    && |f.salt| == 4
  }

  ghost predicate SaneState(s: State) {
    && |s.mac| == MAC_SIZE
    && |s.model| <= 0xFFFF && |s.hostname| <= 0xFFFF
    && Projectable(s)
  }

  predicate SameIdentity(s: State, r: State) {
    r.password == s.password && r.mac == s.mac && r.authV2 == s.authV2
    && r.model == s.model && r.portCount == s.portCount
  }

  lemma {:induction false} ApplyWriteSane(s: State, t: Tlv)
    requires SaneState(s) && |t.value| <= 0xFFFF
    ensures SaneState(ApplyWrite(s, t))
    ensures SameIdentity(s, ApplyWrite(s, t))
  {
    if t.tag == TAG_VLAN_MEMBERS && ParseVlanMembers(t.value, s.portCount).Some? {
      ParsedWithin(t.value, s.portCount);
    }
  }

  lemma {:induction false} ApplyWritesSane(s: State, tlvs: seq<Tlv>, credential: U16)
    requires SaneState(s) && forall i :: 0 <= i < |tlvs| ==> |tlvs[i].value| <= 0xFFFF
    ensures SaneState(ApplyWrites(s, tlvs, credential))
    ensures SameIdentity(s, ApplyWrites(s, tlvs, credential))
    decreases |tlvs|
  {
    if tlvs != [] {
      ApplyWriteSane(s, tlvs[0]);
      ApplyWritesSane(if tlvs[0].tag == credential then s else ApplyWrite(s, tlvs[0]), tlvs[1..], credential);
    }
  }

  /** Whatever packet arrives, the switch stays sane and keeps its identity, its
      password and its scheme. */
  lemma {:induction false} ServeSane(f: Face, req: Packet)
    requires Sane(f) && Encodable(req)
    ensures Sane(Serve(f, req).face)
    ensures SameIdentity(f.state, Serve(f, req).face.state)
  {
    ApplyWritesSane(f.state, req.tlvs, TAG_AUTH_V2_PASSWORD);
    ApplyWritesSane(f.state, req.tlvs, TAG_PASSWORD);
  }

  /** Reading never changes the configuration. */
  lemma {:induction false} ReadKeepsState(f: Face, req: Packet)
    requires Sane(f)
    ensures ServeRead(f, req).face.state == f.state && ServeRead(f, req).face.authFailures == f.authFailures
  {
  }

  // ------------------------------------------------------------------
  // Replies survive the wire
  // ------------------------------------------------------------------

  lemma {:induction false} VlanTlvsEncodable(s: State, vids: seq<int>)
    requires Projectable(s) && forall i :: 0 <= i < |vids| ==> vids[i] in s.vlans
    ensures EncodableTlvs(VlanTlvs(s, vids))
  {
    if vids != [] {
      VlanTlvsEncodable(s, vids[..|vids| - 1]);
      var vid: U16 := vids[|vids| - 1];
      var v := s.vlans[vid];
      VlanMembersRoundTrip(vid, v.member, TaggedPorts(v), s.portCount);
    }
  }

  lemma {:induction false} PvidTlvsEncodable(s: State, ports: seq<int>)
    requires forall i :: 0 <= i < |ports| ==> ports[i] in s.pvids
    ensures EncodableTlvs(PvidTlvs(s, ports))
  {
    if ports != [] {
      PvidTlvsEncodable(s, ports[..|ports| - 1]);
    }
  }

  lemma {:induction false} ConcatEncodable(a: seq<Tlv>, b: seq<Tlv>)
    requires EncodableTlvs(a) && EncodableTlvs(b)
    ensures EncodableTlvs(a + b)
  {
  }

  lemma {:induction false} NsdpTlvsEncodable(s: State, tags: set<U16>)
    requires SaneState(s)
    ensures EncodableTlvs(NsdpTlvs(s, tags))
  {
    var a := When(TAG_MODEL in tags, [Tlv(TAG_MODEL, s.model)]);
    var b := When(TAG_MAC in tags, [Tlv(TAG_MAC, s.mac)]);
    var c := When(TAG_PORT_COUNT in tags, [Tlv(TAG_PORT_COUNT, [s.portCount])]);
    var d := When(TAG_HOSTNAME in tags && s.hostname != [], [Tlv(TAG_HOSTNAME, s.hostname)]);
    ConcatEncodable(a, b);
    ConcatEncodable(a + b, c);
    ConcatEncodable(a + b + c, d);
    VlanTlvsEncodable(s, Vids(s));
    var e := When(TAG_VLAN_MEMBERS in tags, VlanTable(s));
    ConcatEncodable(a + b + c + d, e);
    PvidTlvsEncodable(s, PvidPorts(s));
    ConcatEncodable(a + b + c + d + e, When(TAG_PORT_PVID in tags, PvidTable(s)));
  }

  lemma {:induction false} ReadReplyEncodable(f: Face, req: Packet)
    requires Sane(f) && Encodable(req)
    ensures Encodable(ServeRead(f, req).reply.value)
  {
    var tags := Tags(req.tlvs);
    NsdpTlvsEncodable(f.state, tags);
    var a := When(TAG_AUTH_V2_ENCPASS in tags, [EncpassTlv(f.state)]);
    var b := When(TAG_AUTH_V2_SALT in tags, [Tlv(TAG_AUTH_V2_SALT, NextSalt(f).salt)]);
    ConcatEncodable(NsdpTlvs(f.state, tags), a);
    ConcatEncodable(NsdpTlvs(f.state, tags) + a, b);
  }

  /** Every reply can be encoded. */
  lemma {:induction false} ReplyEncodable(f: Face, req: Packet)
    requires Sane(f) && Encodable(req) && Serve(f, req).reply.Some?
    ensures Encodable(Serve(f, req).reply.value)
  {
    if req.op == OP_READ_REQUEST {
      ReadReplyEncodable(f, req);
    }
  }

  // ------------------------------------------------------------------
  // Authentication
  // ------------------------------------------------------------------

  /** The write presents the token for the salt last issued. */
  predicate RightToken(f: Face, req: Packet)
    requires |f.state.mac| == MAC_SIZE && |f.salt| == 4
  {
    f.saltCounter != 0 && FirstValue(req.tlvs, TAG_AUTH_V2_PASSWORD) == Some(Token(f.state.password, f.state.mac, f.salt))
  }

  /** A write with the right token is applied and acknowledged, unless the switch has
      locked itself; the failures start over. */
  lemma {:induction false} TokenAccepted(f: Face, req: Packet)
    requires f.state.authV2 && IsAscii(f.state.password) && |f.state.mac| == MAC_SIZE && |f.salt| == 4
    requires RightToken(f, req) && f.authFailures <= SILENCE_AT
    ensures var s := ServeWrite(f, req);
            && s.face == f.(state := ApplyWrites(f.state, req.tlvs, TAG_AUTH_V2_PASSWORD), authFailures := 0)
            && s.reply == Some(Response(f, req, OP_WRITE_RESPONSE, RESULT_SUCCESS, 0, []))
  {
  }

  /** A write without it changes nothing, and is answered with an error or not at all. */
  lemma {:induction false} WrongTokenRejected(f: Face, req: Packet)
    requires f.state.authV2 && |f.state.mac| == MAC_SIZE && |f.salt| == 4 && !RightToken(f, req)
    ensures var s := ServeWrite(f, req);
            && s.face.state == f.state
            && (s.reply.Some? ==> s.reply.value.result != RESULT_SUCCESS)
            && (f.authFailures > SILENCE_AT ==> s.reply.None? && s.face == f)
  {
  }

  /** One write without the right token, by the failures before it. */
  lemma {:induction false} WrongTokenCounted(f: Face, req: Packet)
    requires f.state.authV2 && IsAscii(f.state.password) && |f.state.mac| == MAC_SIZE && |f.salt| == 4
    requires !RightToken(f, req)
    ensures ServeWrite(f, req).face.authFailures == if f.authFailures < 6 then f.authFailures + 1 else f.authFailures
    ensures RefusedAs(ServeWrite(f, req).reply, f.authFailures)
  {
  }

  /** How a switch that has seen some failures answers another: error 13 up to three
      in all, error 14 up to six, and then silence. The code is the result's high byte. */
  predicate RefusedAs(reply: Option<Packet>, failures: nat) {
    if failures < 6 then reply.Some? && reply.value.result == if failures < 3 then 0x0D00 else 0x0E00
    else reply.None?
  }

  /** The switch before each of some requests, and after the last. */
  ghost predicate Passes(faces: seq<Face>, reqs: seq<Packet>) {
    && |faces| == |reqs| + 1
    && (forall i :: 0 <= i < |faces| ==> Sane(faces[i]))
    && forall i :: 0 <= i < |reqs| ==> faces[i + 1] == Serve(faces[i], reqs[i]).face
  }

  /** None of the requests is a write with the right token at its time. */
  ghost predicate NoneRight(faces: seq<Face>, reqs: seq<Packet>)
    requires Passes(faces, reqs)
  {
    forall i :: 0 <= i < |reqs| ==> reqs[i].op == OP_WRITE_REQUEST ==> !RightToken(faces[i], reqs[i])
  }

  function Attempts(reqs: seq<Packet>): nat {
    if reqs == [] then 0
    else Attempts(reqs[..|reqs| - 1]) + if reqs[|reqs| - 1].op == OP_WRITE_REQUEST then 1 else 0
  }

  /** The lockout. In any run of reads and of writes without the right token, the
      configuration stays as it is, and the writes are answered with error 13 three
      times, with error 14 three times, and then not at all. A write with the right
      token is applied if and only if there were fewer than six before it. */
  lemma {:induction false} LockoutLadder(faces: seq<Face>, reqs: seq<Packet>, req: Packet)
    requires Passes(faces, reqs) && NoneRight(faces, reqs)
    requires faces[0].state.authV2 && IsAscii(faces[0].state.password) && faces[0].authFailures == 0
    ensures var f, n := faces[|reqs|], Attempts(reqs);
            && f.state == faces[0].state
            && f.authFailures == (if n < 6 then n else 6)
            && (!RightToken(f, req) ==> RefusedAs(ServeWrite(f, req).reply, n) && ServeWrite(f, req).face.state == f.state)
            && (RightToken(f, req) ==>
                  (ServeWrite(f, req).reply.Some? <==> n < 6)
                  && ServeWrite(f, req).face.state == (if n < 6 then ApplyWrites(f.state, req.tlvs, TAG_AUTH_V2_PASSWORD) else f.state)
                  && (n < 6 ==> ServeWrite(f, req).reply.value.result == 0 && ServeWrite(f, req).face.authFailures == 0))
  {
    FailuresCounted(faces, reqs);
    var f := faces[|reqs|];
    if !RightToken(f, req) {
      WrongTokenRejected(f, req);
      WrongTokenCounted(f, req);
    } else if f.authFailures < 6 {
      TokenAccepted(f, req);
    }
  }

  lemma {:induction false} FailuresCounted(faces: seq<Face>, reqs: seq<Packet>)
    requires Passes(faces, reqs) && NoneRight(faces, reqs)
    requires faces[0].state.authV2 && IsAscii(faces[0].state.password) && faces[0].authFailures == 0
    ensures var n := Attempts(reqs);
            faces[|reqs|].state == faces[0].state && faces[|reqs|].authFailures == (if n < 6 then n else 6)
  {
    if reqs != [] {
      var n := |reqs| - 1;
      assert forall i :: 0 <= i < n ==> reqs[..n][i] == reqs[i] && faces[..n + 1][i] == faces[i];
      FailuresCounted(faces[..n + 1], reqs[..n]);
      RequestCounted(faces[n], reqs[n]);
    }
  }

  /** Only a write counts, and nothing changes the configuration. */
  lemma {:induction false} RequestCounted(f: Face, req: Packet)
    requires Sane(f) && f.state.authV2 && IsAscii(f.state.password) && f.authFailures <= 6
    requires req.op == OP_WRITE_REQUEST ==> !RightToken(f, req)
    ensures Serve(f, req).face.state == f.state
    ensures Serve(f, req).face.authFailures
         == f.authFailures + if req.op == OP_WRITE_REQUEST && f.authFailures < 6 then 1 else 0
  {
    if req.op == OP_READ_REQUEST {
      ReadKeepsState(f, req);
    } else if req.op == OP_WRITE_REQUEST {
      WrongTokenRejected(f, req);
      WrongTokenCounted(f, req);
    }
  }
}
