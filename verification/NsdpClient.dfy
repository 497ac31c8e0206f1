/** The NSDP client (nsdp/client.go), over a network that may lose or misroute
    datagrams, against the switch of NsdpSwitch. */
module NsdpClient {
  import opened Prelude
  import opened NsdpCodec
  import opened NsdpAuth
  import opened NsdpSwitch

  // ------------------------------------------------------------------
  // The network
  // ------------------------------------------------------------------

  /** What becomes of one exchange. */
  datatype Delivery =
    | Delivered
    | RequestLost
    | ReplyLost
    | Stray(data: Bytes, reached: bool)

  predicate Reaches(d: Delivery) {
    d.Delivered? || d.ReplyLost? || (d.Stray? && d.reached)
  }

  /** One request sent, with the challenge the switch held at that moment, and the
      packet that came back, if one did. */
  datatype Sent = Sent(request: Packet, salt: Bytes, mac: Bytes, answer: Option<Packet>)

  /** What the client makes of what came back. */
  function Heard(reply: Option<Bytes>): Option<Packet> {
    if reply.Some? && Decode(reply.value).Ok? then Some(Decode(reply.value).value) else None
  }

  /** What the other end decodes from a packet's datagram. */
  function OnWire(p: Packet): (r: Option<Packet>) {
    var bytes := Encode(p);
    if bytes.Err? then None
    else
      var back := Decode(bytes.value);
      if back.Err? then None else Some(back.value)
  }

  lemma {:induction false} OnWireEncodable(p: Packet)
    ensures OnWire(p).Some? ==> Encodable(OnWire(p).value)
    ensures Encodable(p) ==> OnWire(p) == Some(p)
  {
    if OnWire(p).Some? {
      DecodedIsEncodable(Encode(p).value);
    }
    if Encodable(p) {
      PacketRoundTrip(p);
    }
  }

  lemma {:induction false} OpArrives(p: Packet)
    requires |p.clientMac| == MAC_SIZE && |p.serverMac| == MAC_SIZE && OnWire(p).Some?
    ensures OnWire(p).value.op == p.op
  {
    assert p.clientMac + Zeros(0) == p.clientMac && p.serverMac + Zeros(0) == p.serverMac;
    var head := Header(p.op, p.result, p.errorAttr, p.clientMac, p.serverMac, p.sequence);
    ConcatAssoc(head, EncodeTlvs(p.tlvs), END_MARKER);
    HeaderFields(p.op, p.result, p.errorAttr, p.clientMac, p.serverMac, p.sequence, EncodeTlvs(p.tlvs) + END_MARKER);
  }

  /** The operation and the first TLV arrive as sent, whatever follows them. */
  lemma {:induction false} HeadArrives(p: Packet)
    requires |p.clientMac| == MAC_SIZE && |p.serverMac| == MAC_SIZE
    requires p.tlvs != [] && EncodableTlv(p.tlvs[0]) && OnWire(p).Some?
    ensures var a := OnWire(p).value;
            a.op == p.op && a.tlvs != [] && a.tlvs[0] == p.tlvs[0]
  {
    assert p.clientMac + Zeros(0) == p.clientMac && p.serverMac + Zeros(0) == p.serverMac;
    var head := Header(p.op, p.result, p.errorAttr, p.clientMac, p.serverMac, p.sequence);
    var first, rest := EncodeTlv(p.tlvs[0]), EncodeTlvs(p.tlvs[1..]);
    ConcatAssoc(head, first + rest, END_MARKER);
    ConcatAssoc(first, rest, END_MARKER);
    HeaderFields(p.op, p.result, p.errorAttr, p.clientMac, p.serverMac, p.sequence, first + (rest + END_MARKER));
    BodyStep(p.tlvs[0], rest + END_MARKER);
  }

  /** What the switch makes of a datagram: one it cannot decode is dropped. */
  function Receive(f: Face, payload: Bytes): Served
    requires Projectable(f.state)
  {
    var d := Decode(payload);
    if d.Err? then Served(f, None) else Serve(f, d.value)
  }

  class Wire {
    const network: nat -> Delivery
    var exchanges: nat
    var face: Face
    ghost var log: seq<Sent>

    ghost predicate Valid()
      reads this
    {
      Sane(face)
    }

    /** No datagram comes from anywhere but the switch's answer to this request. */
    ghost predicate Honest() {
      forall n :: !network(n).Stray?
    }

    /** Nothing is lost either. */
    ghost predicate Reliable() {
      forall n :: network(n).Delivered?
    }

    constructor (network: nat -> Delivery, face: Face)
      requires Sane(face)
      ensures Valid() && this.network == network && this.face == face && exchanges == 0 && log == []
    {
      this.network := network;
      this.face := face;
      exchanges := 0;
      log := [];
    }

    /** One datagram out, one back or none. */
    method Transceive(payload: Bytes) returns (reply: Option<Bytes>)
      requires Valid()
      modifies this
      ensures Valid() && exchanges == old(exchanges) + 1
      ensures SameIdentity(old(face.state), face.state)
      ensures var d := network(old(exchanges));
              face == if d.RequestLost? || (d.Stray? && !d.reached) then old(face) else Receive(old(face), payload).face
      ensures log == old(log) + if Decode(payload).Ok? then [Sent(Decode(payload).value, old(face.salt), old(face.state.mac), Heard(reply))] else []
      ensures var d, out := network(old(exchanges)), Receive(old(face), payload).reply;
              reply == if d.Stray? then Some(d.data)
                       else if d.Delivered? && out.Some? && Encode(out.value).Ok? then Some(Encode(out.value).value)
                       else None
    {
      var d := network(exchanges);
      exchanges := exchanges + 1;
      reply := None;
      ghost var before := face;
      var req := DecodePacket(payload);
      if req.Ok? {
        DecodedIsEncodable(payload);
        ServeSane(face, req.value);
        if Reaches(d) {
          var served := Serve(face, req.value);
          face := served.face;
          if d.Delivered? && served.reply.Some? {
            var out := EncodePacket(served.reply.value);
            if out.Ok? {
              reply := Some(out.value);
            }
          }
        }
      }
      if d.Stray? {
        reply := Some(d.data);
      }
      if req.Ok? {
        log := log + [Sent(req.value, before.salt, before.state.mac, Heard(reply))];
      }
    }
  }

  // ------------------------------------------------------------------
  // The client
  // ------------------------------------------------------------------

  datatype Scheme = V1 | V2

  datatype ClientError =
    | Codec(codec: CodecError)
    | TimedOut
    | MalformedReply
    | WrongOp
    | Rejected(result: U16, attribute: U16)
    | NoSalt
    | Auth(auth: AuthError)

  const ZERO_MAC: Bytes := Zeros(MAC_SIZE)

  function Ask(tags: seq<U16>): (r: seq<Tlv>)
    ensures |r| == |tags| && forall i :: 0 <= i < |tags| ==> r[i] == Tlv(tags[i], [])
  {
    seq(|tags|, i requires 0 <= i < |tags| => Tlv(tags[i], []))
  }

  lemma {:induction false} TagsOfAsk(tags: seq<U16>)
    ensures Tags(Ask(tags)) == set t | t in tags
  {
    forall t | t in tags ensures t in Tags(Ask(tags)) {
      var i :| 0 <= i < |tags| && tags[i] == t;
      assert Ask(tags)[i] in Ask(tags);
    }
  }

  /** A request names the client and no switch, and carries no result. */
  function Request(op: Byte, clientMac: Bytes, sequence: U32, tlvs: seq<Tlv>): (p: Packet)
    ensures p.clientMac == clientMac && p.serverMac == [0, 0, 0, 0, 0, 0] && p.result == 0 && p.errorAttr == 0
  {
    Packet(op, clientMac, ZERO_MAC, sequence, 0, 0, tlvs)
  }

  /** A request for the scheme selector. */
  predicate AsksEncpass(s: Sent) {
    s.request.op == OP_READ_REQUEST && TAG_AUTH_V2_ENCPASS in Tags(s.request.tlvs)
  }

  /** A read that was answered as one. */
  predicate Answered(s: Sent) {
    s.answer.Some? && s.answer.value.op == OP_READ_RESPONSE
  }

  /** What sending a request adds to the log. */
  function Entries(req: Packet, f: Face, answer: Option<Packet>): seq<Sent> {
    if OnWire(req).Some? then [Sent(OnWire(req).value, f.salt, f.state.mac, answer)] else []
  }

  /** A write request leads with the token for the switch's MAC and current salt. */
  ghost predicate Genuine(s: Sent, password: Bytes) {
    s.request.op == OP_WRITE_REQUEST ==>
      && |s.mac| == MAC_SIZE && |s.salt| == 4
      && s.request.tlvs != []
      && s.request.tlvs[0] == Tlv(TAG_AUTH_V2_PASSWORD, Token(password, s.mac, s.salt))
  }

  /** At most one salt was handed out. */
  ghost predicate SaltStep(before: Face, after: Face) {
    after.saltCounter == before.saltCounter || after.saltCounter == (before.saltCounter + 1) % 0x1_0000_0000
  }

  /** The log from an index on. */
  ghost predicate ReadsOnly(log: seq<Sent>, from: nat) {
    forall i :: from <= i < |log| ==> log[i].request.op == OP_READ_REQUEST
  }

  ghost predicate NoDetection(log: seq<Sent>, from: nat) {
    forall i :: from <= i < |log| ==> !AsksEncpass(log[i])
  }

  /** No detection was answered. */
  ghost predicate NoneAnswered(log: seq<Sent>, from: nat) {
    forall i :: from <= i < |log| && AsksEncpass(log[i]) ==> !Answered(log[i])
  }

  /** After a detection that was answered there is no other. */
  ghost predicate AnsweredLast(log: seq<Sent>, from: nat) {
    forall i, j :: from <= i < j < |log| && AsksEncpass(log[i]) && AsksEncpass(log[j]) ==> !Answered(log[i])
  }

  /** There is at most one detection. */
  ghost predicate OneDetection(log: seq<Sent>, from: nat) {
    forall i, j :: from <= i < j < |log| ==> !(AsksEncpass(log[i]) && AsksEncpass(log[j]))
  }

  ghost predicate AllGenuine(log: seq<Sent>, from: nat, password: Bytes) {
    forall i :: from <= i < |log| ==> Genuine(log[i], password)
  }

  class Client {
    const wire: Wire
    const clientMac: Bytes
    const forced: Option<Scheme>
    var sequence: U32
    var resolved: Option<Scheme>

    ghost predicate Valid()
      reads this, wire
    {
      wire.Valid() && |clientMac| == MAC_SIZE && sequence <= 0xFFFF
    }

    constructor (wire: Wire, clientMac: Bytes, forced: Option<Scheme>)
      requires wire.Valid() && |clientMac| == MAC_SIZE
      ensures Valid() && this.wire == wire && this.clientMac == clientMac && this.forced == forced
      ensures sequence == 0 && resolved == None
    {
      this.wire := wire;
      this.clientMac := clientMac;
      this.forced := forced;
      sequence := 0;
      resolved := None;
    }

    /** nextSeq: the first number sent is 1, and the counter wraps at 16 bits. */
    method NextSeq() returns (n: U32)
      requires Valid()
      modifies this`sequence
      ensures Valid() && n == sequence == (old(sequence) + 1) % 0x1_0000
    {
      sequence := (sequence + 1) % 0x1_0000;
      n := sequence;
    }

    /** exchange. */
    method Exchange(req: Packet) returns (r: Result<Packet, ClientError>)
      requires Valid() && |req.clientMac| == MAC_SIZE && |req.serverMac| == MAC_SIZE
      modifies wire
      ensures Valid() && wire.exchanges == old(wire.exchanges) + 1
      ensures SameIdentity(old(wire.face.state), wire.face.state)
      ensures wire.face == if Reaches(wire.network(old(wire.exchanges))) && OnWire(req).Some?
                           then Serve(old(wire.face), OnWire(req).value).face else old(wire.face)
      ensures wire.log == old(wire.log) + Entries(req, old(wire.face), if r.Ok? then Some(r.value) else None)
      ensures var d := wire.network(old(wire.exchanges));
              !d.Stray? ==>
                r == if d.Delivered? && OnWire(req).Some? && Serve(old(wire.face), OnWire(req).value).reply.Some?
                     then Ok(Serve(old(wire.face), OnWire(req).value).reply.value) else Err(TimedOut)
    {
      var payload := EncodePacket(req);
      OnWireEncodable(req);
      if OnWire(req).Some? && Serve(wire.face, OnWire(req).value).reply.Some? {
        ReplyEncodable(wire.face, OnWire(req).value);
        PacketRoundTrip(Serve(wire.face, OnWire(req).value).reply.value);
      }
      var data := wire.Transceive(payload.value);
      if data.None? {
        return Err(TimedOut);
      }
      var resp := DecodePacket(data.value);
      if resp.Err? {
        return Err(MalformedReply);
      }
      r := Ok(resp.value);
    }

    /** Read: the reply must be a READ_RESPONSE; its result is not looked at. An end
        marker among the tags would cut the request short. */
    method Read(tags: seq<U16>) returns (r: Result<Packet, ClientError>)
      requires Valid()
      modifies this`sequence, wire
      ensures Valid() && wire.exchanges == old(wire.exchanges) + 1
      ensures wire.face.state == old(wire.face.state) && wire.face.authFailures == old(wire.face.authFailures)
      ensures SaltStep(old(wire.face), wire.face)
      ensures old(wire.log) <= wire.log && ReadsOnly(wire.log, |old(wire.log)|)
      ensures TAG_END_OF_MARK !in tags ==>
              var req := Request(OP_READ_REQUEST, clientMac, sequence, Ask(tags));
              && |wire.log| == |old(wire.log)| + 1
              && wire.log == old(wire.log) + Entries(req, old(wire.face), wire.log[|old(wire.log)|].answer)
              && (Answered(wire.log[|old(wire.log)|]) <==> r.Ok?)
              && wire.face == (if Reaches(wire.network(old(wire.exchanges))) then ServeRead(old(wire.face), req).face
                               else old(wire.face))
              && var d := wire.network(old(wire.exchanges));
                 !d.Stray? ==> r == if d.Delivered? then Ok(ServeRead(old(wire.face), req).reply.value) else Err(TimedOut)
      ensures TAG_END_OF_MARK !in tags && TAG_AUTH_V2_ENCPASS !in tags ==> NoDetection(wire.log, |old(wire.log)|)
      ensures r.Ok? ==> r.value.op == OP_READ_RESPONSE
    {
      var n := NextSeq();
      var req := Request(OP_READ_REQUEST, clientMac, n, Ask(tags));
      OnWireEncodable(req);
      if OnWire(req).Some? {
        OpArrives(req);
        ReadKeepsState(wire.face, OnWire(req).value);
      }
      TagsOfAsk(tags);
      var resp := Exchange(req);
      if resp.Err? {
        return resp;
      }
      if resp.value.op != OP_READ_RESPONSE {
        return Err(WrongOp);
      }
      r := resp;
    }

    /** The scheme the client will settle on, or has. */
    ghost predicate Speaks(s: Scheme)
      reads this, wire
    {
      var truth := if wire.face.state.authV2 then V2 else V1;
      if resolved.Some? then resolved.value == s
      else if forced.Some? then forced.value == s
      else truth == s
    }

    /** resolveScheme: asks the switch at most once, and never again once it has an
        answer. */
    method ResolveScheme() returns (r: Result<Scheme, ClientError>)
      requires Valid()
      modifies this, wire
      ensures Valid()
      ensures old(resolved).Some? || forced.Some? ==>
                wire.log == old(wire.log) && wire.face == old(wire.face) && wire.exchanges == old(wire.exchanges) && r.Ok?
      ensures wire.face.state == old(wire.face.state) && wire.face.authFailures == old(wire.face.authFailures)
              && wire.face.saltCounter == old(wire.face.saltCounter)
      ensures old(wire.log) <= wire.log && |wire.log| <= |old(wire.log)| + 1
      ensures ReadsOnly(wire.log, |old(wire.log)|)
      ensures r.Ok? ==> resolved == Some(r.value)
      ensures r.Err? ==> resolved == old(resolved) == None && NoneAnswered(wire.log, |old(wire.log)|)
      ensures old(resolved).Some? ==> resolved == old(resolved)
      ensures wire.Honest() && r.Ok? ==> old(Speaks(r.value))
      ensures wire.exchanges <= old(wire.exchanges) + 1
      ensures wire.Reliable() ==> r.Ok?
    {
      if resolved.Some? {
        return Ok(resolved.value);
      }
      if forced.Some? {
        resolved := forced;
        return Ok(forced.value);
      }
      ghost var before := wire.face;
      assert Ask([TAG_AUTH_V2_ENCPASS]) == [Tlv(TAG_AUTH_V2_ENCPASS, [])];
      var resp := Read([TAG_AUTH_V2_ENCPASS]);
      EncpassAnswer(before, Request(OP_READ_REQUEST, clientMac, sequence, [Tlv(TAG_AUTH_V2_ENCPASS, [])]));
      if resp.Err? {
        return Err(resp.error);
      }
      var value := FirstValue(resp.value.tlvs, TAG_AUTH_V2_ENCPASS);
      var v2 := false;
      if value.Some? {
        v2 := EncpassIsV2(value.value);
      }
      var scheme := if v2 then V2 else V1;
      resolved := Some(scheme);
      r := Ok(scheme);
    }

    /** buildAuthWrite: for version 2, a salt fresh from the switch and a token first;
        for version 1, the encoded password first. */
    method BuildAuthWrite(tlvs: seq<Tlv>, password: Bytes) returns (r: Result<Packet, ClientError>)
      requires Valid()
      modifies this, wire
      ensures Valid()
      ensures wire.face.state == old(wire.face.state) && wire.face.authFailures == old(wire.face.authFailures)
      ensures SaltStep(old(wire.face), wire.face)
      ensures old(wire.log) <= wire.log
      ensures ReadsOnly(wire.log, |old(wire.log)|)
      ensures old(resolved).Some? ==> resolved == old(resolved)
      ensures old(resolved).Some? ==> NoDetection(wire.log, |old(wire.log)|)
      ensures NoDetection(wire.log, |old(wire.log)| + 1)
      ensures resolved.None? ==> NoneAnswered(wire.log, |old(wire.log)|)
      ensures wire.Reliable() ==> resolved.Some?
      ensures r.Ok? ==> resolved.Some? && IsAscii(password) && r.value == WriteRequest(r.value.tlvs)
                        && r.value.tlvs != [] && r.value.tlvs == [r.value.tlvs[0]] + tlvs
                        && IsCredential(r.value.tlvs[0], resolved.value, password)
      ensures wire.Honest() && old(Speaks(V2)) ==> resolved == None || resolved == Some(V2)
      ensures wire.Honest() && r.Ok? && old(Speaks(V2)) ==> r.value.tlvs[0] == Credential(V2, password, wire.face)
      ensures wire.Honest() && r.Ok? && old(WillAccept(wire.face, password)) ==> Authentic(wire.face, r.value)
      ensures wire.Reliable() ==> (r.Ok? <==> IsAscii(password))
    {
      var scheme := ResolveScheme();
      if scheme.Err? {
        r := Err(scheme.error);
      } else if scheme.value == V2 {
        r := BuildAuthWriteV2(tlvs, password);
      } else {
        r := BuildAuthWriteV1(tlvs, password);
      }
    }

    method BuildAuthWriteV1(tlvs: seq<Tlv>, password: Bytes) returns (r: Result<Packet, ClientError>)
      requires Valid()
      modifies this`sequence
      ensures Valid()
      ensures r == if IsAscii(password) then Ok(WriteRequest([Tlv(TAG_PASSWORD, XorKey(password))] + tlvs))
                   else Err(Auth(NotAscii))
    {
      var n := NextSeq();
      var key := EncodePasswordV1(password);
      r := if key.Ok? then Ok(WriteRequest([Tlv(TAG_PASSWORD, key.value)] + tlvs)) else Err(Auth(key.error));
    }

    /** A salt fresh from the switch, with the reply it came in. */
    method ReadSalt() returns (resp: Result<Packet, ClientError>)
      requires Valid()
      modifies this`sequence, wire
      ensures Valid()
      ensures wire.face.state == old(wire.face.state) && wire.face.authFailures == old(wire.face.authFailures)
      ensures SaltStep(old(wire.face), wire.face)
      ensures |wire.log| == |old(wire.log)| + 1 && wire.log[..|old(wire.log)|] == old(wire.log)
      ensures wire.log[|old(wire.log)|].request.op == OP_READ_REQUEST && !AsksEncpass(wire.log[|old(wire.log)|])
      ensures wire.Honest() && resp.Ok? ==>
                && FirstValue(resp.value.tlvs, TAG_AUTH_V2_SALT) == Some(wire.face.salt)
                && resp.value.serverMac == wire.face.state.mac
                && wire.face.saltCounter == (old(wire.face.saltCounter) + 1) % 0x1_0000_0000
      ensures wire.Reliable() ==> resp.Ok?
    {
      ghost var before := wire.face;
      assert Ask([TAG_AUTH_V2_SALT]) == [Tlv(TAG_AUTH_V2_SALT, [])];
      resp := Read([TAG_AUTH_V2_SALT]);
      SaltAnswer(before, Request(OP_READ_REQUEST, clientMac, sequence, [Tlv(TAG_AUTH_V2_SALT, [])]));
    }

    method BuildAuthWriteV2(tlvs: seq<Tlv>, password: Bytes) returns (r: Result<Packet, ClientError>)
      requires Valid()
      modifies this`sequence, wire
      ensures Valid()
      ensures wire.face.state == old(wire.face.state) && wire.face.authFailures == old(wire.face.authFailures)
      ensures SaltStep(old(wire.face), wire.face)
      ensures |wire.log| == |old(wire.log)| + 1 && wire.log[..|old(wire.log)|] == old(wire.log)
      ensures wire.log[|old(wire.log)|].request.op == OP_READ_REQUEST && !AsksEncpass(wire.log[|old(wire.log)|])
      ensures r.Ok? ==> IsAscii(password) && r.value == WriteRequest(r.value.tlvs)
                        && r.value.tlvs != [] && r.value.tlvs == [r.value.tlvs[0]] + tlvs
                        && IsCredential(r.value.tlvs[0], V2, password)
      ensures wire.Honest() && r.Ok? ==>
                r.value.tlvs[0] == Credential(V2, password, wire.face)
                && wire.face.saltCounter == (old(wire.face.saltCounter) + 1) % 0x1_0000_0000
      ensures wire.Reliable() ==> (r.Ok? <==> IsAscii(password))
    {
      var saltResp := ReadSalt();
      if saltResp.Err? {
        return Err(saltResp.error);
      }
      var salt := FirstValue(saltResp.value.tlvs, TAG_AUTH_V2_SALT);
      if salt.None? {
        return Err(NoSalt);
      }
      var token := AuthV2Password(password, saltResp.value.serverMac, salt.value);
      if token.Err? {
        return Err(Auth(token.error));
      }
      var n := NextSeq();
      r := Ok(WriteRequest([Tlv(TAG_AUTH_V2_PASSWORD, token.value)] + tlvs));
    }

    function WriteRequest(tlvs: seq<Tlv>): Packet
      reads this`sequence
    {
      Request(OP_WRITE_REQUEST, clientMac, sequence, tlvs)
    }

    /** The exchange of a write: the operation of the reply is checked before its
        result. */
    method Submit(req: Packet) returns (r: Result<Packet, ClientError>)
      requires Valid() && |req.clientMac| == MAC_SIZE && |req.serverMac| == MAC_SIZE
      modifies wire
      ensures Valid()
      ensures SameIdentity(old(wire.face.state), wire.face.state)
      ensures wire.face == if Reaches(wire.network(old(wire.exchanges))) && OnWire(req).Some?
                           then Serve(old(wire.face), OnWire(req).value).face else old(wire.face)
      ensures OnWire(req).None? ==> wire.log == old(wire.log)
      ensures OnWire(req).Some? ==>
                && |wire.log| == |old(wire.log)| + 1
                && wire.log == old(wire.log) + Entries(req, old(wire.face), wire.log[|old(wire.log)|].answer)
      ensures r.Ok? ==> Acknowledges(Some(r.value))
      ensures var d := wire.network(old(wire.exchanges));
              !d.Stray? ==>
                (r.Ok? <==> d.Delivered? && OnWire(req).Some?
                            && Acknowledges(Serve(old(wire.face), OnWire(req).value).reply))
    {
      OnWireEncodable(req);
      var resp := Exchange(req);
      if resp.Err? {
        return resp;
      }
      if resp.value.op != OP_WRITE_RESPONSE {
        return Err(WrongOp);
      }
      if resp.value.result != RESULT_SUCCESS {
        return Err(Rejected(resp.value.result, resp.value.errorAttr));
      }
      r := resp;
    }

    /** Write. */
    method Write(tlvs: seq<Tlv>, password: Bytes) returns (r: Result<Packet, ClientError>)
      requires Valid()
      modifies this, wire
      ensures Valid()
      ensures old(wire.log) <= wire.log
      // every write request leads with the token for the switch's current challenge
      ensures wire.Honest() && old(Speaks(V2)) ==>
                AllGenuine(wire.log, |old(wire.log)|, password)
      // once the scheme is known it is not asked for again
      ensures old(resolved).Some? ==> resolved == old(resolved)
      ensures old(resolved).Some? ==> NoDetection(wire.log, |old(wire.log)|)
      // until it is, each write asks once, and it is known from the first answer on
      ensures NoDetection(wire.log, |old(wire.log)| + 1)
      ensures resolved.None? ==> NoneAnswered(wire.log, |old(wire.log)|)
      ensures r.Ok? || wire.Reliable() ==> resolved.Some?
      // the write is applied whole or not at all, and success means it was
      ensures EncodableTlvs(tlvs) && |password| <= 0xFFFF ==>
                WholeOrNothing(old(wire.face.state), wire.face.state, tlvs, wire.Honest() && r.Ok?)
      ensures r.Ok? ==> Acknowledges(Some(r.value))
      ensures SameIdentity(old(wire.face.state), wire.face.state) && SaltStep(old(wire.face), wire.face)
      ensures wire.Honest() && old(Speaks(V2)) ==> Speaks(V2)
      // with the switch's own password it is never refused
      ensures EncodableTlvs(tlvs) && |password| <= 0xFFFF && wire.Honest() && old(WillAccept(wire.face, password)) ==>
                wire.face.authFailures <= old(wire.face.authFailures)
                && (wire.Reliable() ==> r.Ok?)
    {
      var req := BuildAuthWrite(tlvs, password);
      if req.Err? {
        r := req;
      } else {
        SubmitFacts(wire.face, req.value, tlvs, password, resolved.value);
        r := Submit(req.value);
      }
    }

    /** The switch takes this password from this client: the scheme is the switch's,
        it is not locked, and its salt counter is not about to wrap to zero. */
    ghost predicate WillAccept(f: Face, password: Bytes)
      reads this, wire
    {
      && Speaks(if wire.face.state.authV2 then V2 else V1)
      && password == f.state.password && IsAscii(password)
      && f.authFailures <= SILENCE_AT && f.saltCounter < 0xFFFF_FFFF
    }
  }

  datatype Call = ReadCall(tags: seq<U16>) | WriteCall(tlvs: seq<Tlv>)

  predicate Detects(c: Call) {
    c.ReadCall? && (TAG_AUTH_V2_ENCPASS in c.tags || TAG_END_OF_MARK in c.tags)
  }

  ghost predicate Carriable(c: Call) {
    c.WriteCall? ==> EncodableTlvs(c.tlvs)
  }

  /** No call of a run asks for the scheme by itself. */
  ghost predicate NoneDetects(calls: seq<Call>) {
    forall i :: 0 <= i < |calls| ==> !Detects(calls[i])
  }

  /** What a run knows of the scheme: nothing, and then no detection was answered; or
      the scheme, and then there was no detection after the one that was answered. */
  ghost predicate Detection(log: seq<Sent>, from: nat, known: bool, reliable: bool) {
    && AnsweredLast(log, from) && (!known ==> NoneAnswered(log, from))
    && (reliable ==> OneDetection(log, from) && (!known ==> NoDetection(log, from)))
  }

  /** One call more. */
  lemma {:induction false} DetectsOnce(before: seq<Sent>, log: seq<Sent>, from: nat, known: bool, knows: bool, reliable: bool)
    requires Detection(before, from, known, reliable) && from <= |before| && before <= log
    requires known ==> knows && NoDetection(log, |before|)
    requires NoDetection(log, |before| + 1) && (!knows ==> NoneAnswered(log, |before|))
    requires reliable && !knows ==> NoDetection(log, |before|)
    ensures Detection(log, from, knows, reliable)
  {
    assert forall i :: 0 <= i < |before| ==> log[i] == before[i];
  }

  lemma {:induction false} GenuineFurther(before: seq<Sent>, log: seq<Sent>, from: nat, password: Bytes)
    requires before <= log && from <= |before|
    requires AllGenuine(before, from, password) && AllGenuine(log, |before|, password)
    ensures AllGenuine(log, from, password)
  {
    assert forall i :: 0 <= i < |before| ==> log[i] == before[i];
  }

  /** One call of a run, as far as a run is concerned. */
  method MakeCall(client: Client, c: Call, password: Bytes)
    requires client.Valid()
    modifies client, client.wire
    ensures client.Valid() && old(client.wire.log) <= client.wire.log
    ensures old(client.resolved).Some? ==> client.resolved.Some?
    ensures !Detects(c) ==>
              var log, before, knows := client.wire.log, |old(client.wire.log)|, client.resolved.Some?;
              && (old(client.resolved).Some? ==> NoDetection(log, before))
              && NoDetection(log, before + 1) && (!knows ==> NoneAnswered(log, before))
              && (client.wire.Reliable() && !knows ==> NoDetection(log, before))
    ensures client.wire.Honest() && old(client.Speaks(V2)) ==>
              client.Speaks(V2) && AllGenuine(client.wire.log, |old(client.wire.log)|, password)
    ensures SameIdentity(old(client.wire.face.state), client.wire.face.state)
    ensures old(client.wire.face.saltCounter) < 0xFFFF_FFFF ==>
              client.wire.face.saltCounter <= old(client.wire.face.saltCounter) + 1
    ensures Carriable(c) && client.wire.Honest() && old(client.Speaks(V2)) && old(Trusted(client.wire.face, password))
            && old(client.wire.face.saltCounter) < 0xFFFF_FFFF ==>
              client.wire.face.authFailures <= old(client.wire.face.authFailures)
  {
    match c {
      case ReadCall(tags) =>
        var resp := client.Read(tags);
      case WriteCall(tlvs) =>
        var resp := client.Write(tlvs, password);
    }
  }

  /** Any run of reads and writes by one client, however it begins: once a detection
      is answered the scheme is never asked for again, so that it is asked for at most
      once where nothing is lost; every write request to a version 2 switch leads with
      the token for the salt the switch holds at that moment; and with the switch's own
      password no write is ever counted as a failure. */
  method Session(client: Client, calls: seq<Call>, password: Bytes)
    requires client.Valid()
    modifies client, client.wire
    ensures client.Valid() && old(client.wire.log) <= client.wire.log
    ensures NoneDetects(calls) ==> AnsweredLast(client.wire.log, |old(client.wire.log)|)
    ensures NoneDetects(calls) && client.wire.Reliable() ==> OneDetection(client.wire.log, |old(client.wire.log)|)
    ensures NoneDetects(calls) && old(client.resolved).Some? ==> NoDetection(client.wire.log, |old(client.wire.log)|)
    ensures client.wire.Honest() && old(client.Speaks(V2)) ==>
              client.Speaks(V2) && AllGenuine(client.wire.log, |old(client.wire.log)|, password)
    ensures client.wire.Honest() && old(client.Speaks(V2)) && old(Trusted(client.wire.face, password))
            && old(client.wire.face.saltCounter) + |calls| <= 0xFFFF_FFFF
            && (forall i :: 0 <= i < |calls| ==> Carriable(calls[i])) ==>
              client.wire.face.authFailures <= old(client.wire.face.authFailures)
  {
    ghost var from := |client.wire.log|;
    ghost var speaks := client.wire.Honest() && client.Speaks(V2);
    ghost var careful, reliable := NoneDetects(calls), client.wire.Reliable();
    for i := 0 to |calls|
      invariant client.Valid() && old(client.wire.log) <= client.wire.log
      invariant careful ==> Detection(client.wire.log, from, client.resolved.Some?, reliable)
      invariant old(client.resolved).Some? ==> client.resolved.Some? && (careful ==> NoDetection(client.wire.log, from))
      invariant speaks ==> client.Speaks(V2) && AllGenuine(client.wire.log, from, password)
      invariant SameIdentity(old(client.wire.face.state), client.wire.face.state)
      invariant old(client.wire.face.saltCounter) + |calls| <= 0xFFFF_FFFF ==>
                  client.wire.face.saltCounter <= old(client.wire.face.saltCounter) + i
      invariant speaks && old(Trusted(client.wire.face, password)) && old(client.wire.face.saltCounter) + |calls| <= 0xFFFF_FFFF
                && (forall j :: 0 <= j < |calls| ==> Carriable(calls[j])) ==>
                  client.wire.face.authFailures <= old(client.wire.face.authFailures)
    {
      ghost var log, known := client.wire.log, client.resolved.Some?;
      MakeCall(client, calls[i], password);
      if speaks {
        GenuineFurther(log, client.wire.log, from, password);
      }
      if careful {
        DetectsOnce(log, client.wire.log, from, known, client.resolved.Some?, reliable);
      }
    }
  }

  /** The switch is a version 2 one, has this password, and is not locked. */
  ghost predicate Trusted(f: Face, password: Bytes) {
    && f.state.authV2 && password == f.state.password && IsAscii(password) && |password| <= 0xFFFF
    && f.authFailures <= SILENCE_AT
  }

  predicate Acknowledges(reply: Option<Packet>) {
    reply.Some? && reply.value.op == OP_WRITE_RESPONSE && reply.value.result == RESULT_SUCCESS
  }

  predicate IsCredential(t: Tlv, scheme: Scheme, password: Bytes) {
    if scheme == V2 then t.tag == TAG_AUTH_V2_PASSWORD && |t.value| == 8
    else t == Tlv(TAG_PASSWORD, XorKey(password))
  }

  function Credential(scheme: Scheme, password: Bytes, f: Face): Tlv
    requires |f.state.mac| == MAC_SIZE && |f.salt| == 4
  {
    if scheme == V2 then Tlv(TAG_AUTH_V2_PASSWORD, Token(password, f.state.mac, f.salt))
    else Tlv(TAG_PASSWORD, XorKey(password))
  }

  /** The configuration after a write of some TLVs. */
  function Applied(s: State, tlvs: seq<Tlv>): State {
    ApplyWrites(s, tlvs, if s.authV2 then TAG_AUTH_V2_PASSWORD else TAG_PASSWORD)
  }

  /** A write is applied entirely or not at all; if done, then entirely. */
  predicate WholeOrNothing(before: State, after: State, tlvs: seq<Tlv>, done: bool) {
    after == Applied(before, tlvs) || (!done && after == before)
  }

  /** What an authenticated write request does to the switch. */
  lemma {:induction false} WriteOutcome(f: Face, req: Packet, tlvs: seq<Tlv>)
    requires Sane(f) && req.op == OP_WRITE_REQUEST
    requires req.tlvs != [] && req.tlvs == [req.tlvs[0]] + tlvs
    requires req.tlvs[0].tag == TAG_AUTH_V2_PASSWORD || req.tlvs[0].tag == TAG_PASSWORD
    ensures var s := Serve(f, req);
            WholeOrNothing(f.state, s.face.state, tlvs, Acknowledges(s.reply))
  {
    assert req.tlvs[1..] == tlvs;
  }

  /** The request leads with the credential the switch wants, and it is not locked. */
  ghost predicate Authentic(f: Face, req: Packet) {
    && Sane(f) && req.op == OP_WRITE_REQUEST && req.tlvs != []
    && req.tlvs[0] == Credential(if f.state.authV2 then V2 else V1, f.state.password, f)
    && IsAscii(f.state.password) && f.authFailures <= SILENCE_AT && (f.state.authV2 ==> f.saltCounter != 0)
  }

  /** The right credential is acknowledged, and clears the failures. */
  lemma {:induction false} RightPassword(f: Face, req: Packet)
    requires Authentic(f, req)
    ensures Acknowledges(Serve(f, req).reply)
    ensures Serve(f, req).face.authFailures == if f.state.authV2 then 0 else f.authFailures
  {
  }

  /** What reaches the switch of an authenticated write, and what it does there. */
  lemma {:induction false} SubmitFacts(f: Face, req: Packet, tlvs: seq<Tlv>, password: Bytes, scheme: Scheme)
    requires Sane(f) && req.op == OP_WRITE_REQUEST
    requires |req.clientMac| == MAC_SIZE && |req.serverMac| == MAC_SIZE
    requires req.tlvs != [] && req.tlvs == [req.tlvs[0]] + tlvs && IsCredential(req.tlvs[0], scheme, password)
    ensures OnWire(req).Some? ==> OnWire(req).value.op == req.op
    ensures OnWire(req).Some? ==> Serve(f, OnWire(req).value).face.saltCounter == f.saltCounter
    ensures OnWire(req).Some? && scheme == V2 ==>
              OnWire(req).value.tlvs != [] && OnWire(req).value.tlvs[0] == req.tlvs[0]
    ensures EncodableTlvs(tlvs) && |password| <= 0xFFFF ==>
              && OnWire(req) == Some(req)
              && WholeOrNothing(f.state, Serve(f, req).face.state, tlvs, Acknowledges(Serve(f, req).reply))
    ensures Authentic(f, req) ==>
              Acknowledges(Serve(f, req).reply) && Serve(f, req).face.authFailures <= f.authFailures
  {
    OnWireEncodable(req);
    if OnWire(req).Some? {
      OpArrives(req);
      if scheme == V2 {
        HeadArrives(req);
      }
    }
    if EncodableTlvs(tlvs) && |password| <= 0xFFFF {
      WriteOutcome(f, req, tlvs);
    }
    if Authentic(f, req) {
      RightPassword(f, req);
    }
  }

  /** The answer to a read of the scheme selector. */
  lemma {:induction false} EncpassAnswer(f: Face, req: Packet)
    requires Sane(f) && req.tlvs == [Tlv(TAG_AUTH_V2_ENCPASS, [])]
    ensures var s := ServeRead(f, req);
            && s.face == f && s.reply.Some? && s.reply.value.op == OP_READ_RESPONSE
            && FirstValue(s.reply.value.tlvs, TAG_AUTH_V2_ENCPASS) == Some(EncpassTlv(f.state).value)
            && (AdvertisesV2(EncpassTlv(f.state).value) <==> f.state.authV2)
  {
    assert req.tlvs[0].tag in Tags(req.tlvs);
    assert Tags(req.tlvs) == {TAG_AUTH_V2_ENCPASS};
    assert NsdpTlvs(f.state, Tags(req.tlvs)) == [];
    assert ServeRead(f, req).reply.value.tlvs == [EncpassTlv(f.state)];
  }

  /** The answer to a read of the salt. */
  lemma {:induction false} SaltAnswer(f: Face, req: Packet)
    requires Sane(f) && req.tlvs == [Tlv(TAG_AUTH_V2_SALT, [])]
    ensures var s := ServeRead(f, req);
            && s.face == NextSalt(f) && s.reply.Some?
            && s.reply.value.op == OP_READ_RESPONSE && s.reply.value.serverMac == f.state.mac
            && FirstValue(s.reply.value.tlvs, TAG_AUTH_V2_SALT) == Some(s.face.salt)
  {
    assert req.tlvs[0].tag in Tags(req.tlvs);
    assert Tags(req.tlvs) == {TAG_AUTH_V2_SALT};
    assert NsdpTlvs(f.state, Tags(req.tlvs)) == [];
    assert ServeRead(f, req).reply.value.tlvs == [Tlv(TAG_AUTH_V2_SALT, NextSalt(f).salt)];
  }
}
