/** The NSDP wire codec: a 32-byte header, then tag-length-value entries up to an
    end marker. */
module NsdpCodec {
  import opened Prelude

  const HEADER_SIZE: nat := 32
  const MAC_SIZE: nat := 6
  const SIGNATURE: Bytes := [0x4E, 0x53, 0x44, 0x50]
  const END_MARKER: Bytes := [0xFF, 0xFF, 0x00, 0x00]

  const OP_READ_REQUEST: Byte := 0x01
  const OP_READ_RESPONSE: Byte := 0x02
  const OP_WRITE_REQUEST: Byte := 0x03
  const OP_WRITE_RESPONSE: Byte := 0x04

  const TAG_END_OF_MARK: U16 := 0xFFFF

  datatype Tlv = Tlv(tag: U16, value: Bytes)

  datatype Packet = Packet(
    op: Byte,
    clientMac: Bytes,
    serverMac: Bytes,
    sequence: U32,
    result: U16,
    errorAttr: U16,
    tlvs: seq<Tlv>)

  datatype CodecError =
    | MacTooLong
    | ShortPacket
    | BadSignature
    | ShortTlv
    | TlvOverrun
    | UnknownOp

  predicate ValidOp(op: Byte) {
    op == OP_READ_REQUEST || op == OP_READ_RESPONSE || op == OP_WRITE_REQUEST || op == OP_WRITE_RESPONSE
  }

  // ------------------------------------------------------------------
  // Big-endian fields
  // ------------------------------------------------------------------

  function Put16(n: U16): (b: Bytes)
    ensures |b| == 2 && Get16(b) == n
  {
    [n / 0x100, n % 0x100]
  }

  function Get16(b: Bytes): (n: U16)
    requires |b| == 2
  {
    b[0] as int * 0x100 + b[1] as int
  }

  function Put32(n: U32): (b: Bytes)
    ensures |b| == 4 && Get32(b) == n
  {
    var b := Put16(n / 0x1_0000) + Put16(n % 0x1_0000);
    assert b[0..2] == Put16(n / 0x1_0000) && b[2..4] == Put16(n % 0x1_0000);
    b
  }

  function Get32(b: Bytes): (n: U32)
    requires |b| == 4
  {
    Get16(b[0..2]) as int * 0x1_0000 + Get16(b[2..4]) as int
  }

  lemma {:induction false} PutGet16(b: Bytes)
    requires |b| == 2
    ensures Put16(Get16(b)) == b
  {
  }

  lemma {:induction false} PutGet32(b: Bytes)
    requires |b| == 4
    ensures Put32(Get32(b)) == b
  {
    PutGet16(b[0..2]);
    PutGet16(b[2..4]);
  }

  // ------------------------------------------------------------------
  // Encoding
  // ------------------------------------------------------------------

  /** The length field is Go's uint16(len(value)): it wraps. */
  function EncodeTlv(t: Tlv): (b: Bytes)
    ensures |b| == 4 + |t.value|
  {
    Put16(t.tag) + Put16(|t.value| % 0x1_0000) + t.value
  }

  function EncodeTlvs(tlvs: seq<Tlv>): Bytes {
    if tlvs == [] then [] else EncodeTlv(tlvs[0]) + EncodeTlvs(tlvs[1..])
  }

  function PackMac(mac: Bytes): Result<Bytes, CodecError> {
    if |mac| > MAC_SIZE then Err(MacTooLong) else Ok(mac + Zeros(MAC_SIZE - |mac|))
  }

  /** The version, the operation, the result and the blamed attribute. */
  function Preamble(op: Byte, result: U16, errorAttr: U16): (h: Bytes)
    ensures |h| == 8
  {
    [0x01, op] + Put16(result) + Put16(errorAttr) + [0, 0]
  }

  const TRAILER: Bytes := SIGNATURE + [0, 0, 0, 0]

  function Header(op: Byte, result: U16, errorAttr: U16, client: Bytes, server: Bytes, sequence: U32): (h: Bytes)
    requires |client| == MAC_SIZE && |server| == MAC_SIZE
    ensures |h| == HEADER_SIZE
  {
    Preamble(op, result, errorAttr) + client + server + Put32(sequence) + TRAILER
  }

  /** Packet.Encode. */
  function Encode(p: Packet): Result<Bytes, CodecError> {
    var client, server := PackMac(p.clientMac), PackMac(p.serverMac);
    if client.Err? then Err(client.error)
    else if server.Err? then Err(server.error)
    else
      Ok(Header(p.op, p.result, p.errorAttr, client.value, server.value, p.sequence)
         + EncodeTlvs(p.tlvs) + END_MARKER)
  }

  /** Packet.Encode as the source writes it: header fields in place, TLVs appended. */
  method EncodePacket(p: Packet) returns (r: Result<Bytes, CodecError>)
    ensures r == Encode(p)
  {
    var client, server := PackMac(p.clientMac), PackMac(p.serverMac);
    if client.Err? {
      return Err(client.error);
    }
    if server.Err? {
      return Err(server.error);
    }
    var header := new Byte[HEADER_SIZE](_ => 0);
    FillHeader(header, p, client.value, server.value);
    var out: Bytes := header[..];
    ghost var head := out;
    for i := 0 to |p.tlvs|
      invariant head + EncodeTlvs(p.tlvs) == out + EncodeTlvs(p.tlvs[i..])
    {
      ConcatAssoc(out, EncodeTlv(p.tlvs[i]), EncodeTlvs(p.tlvs[i + 1..]));
      out := out + EncodeTlv(p.tlvs[i]);
    }
    assert out + [] == out;
    r := Ok(out + END_MARKER);
  }

  method FillHeader(header: array<Byte>, p: Packet, client: Bytes, server: Bytes)
    requires header.Length == HEADER_SIZE && forall i :: 0 <= i < HEADER_SIZE ==> header[i] == 0
    requires |client| == MAC_SIZE && |server| == MAC_SIZE
    modifies header
    ensures header[..] == Header(p.op, p.result, p.errorAttr, client, server, p.sequence)
  {
    header[0x00] := 0x01;
    header[0x01] := p.op;
    ghost var h: Bytes := [0x01, p.op];
    assert header[..] == h + Zeros(30);
    PutAt(header, 0x02, Put16(p.result), h);
    PutAt(header, 0x04, Put16(p.errorAttr), h + Put16(p.result));
    ZerosSplit(2, 24);
    h := Preamble(p.op, p.result, p.errorAttr);
    ConcatAssoc([0x01, p.op] + Put16(p.result) + Put16(p.errorAttr), Zeros(2), Zeros(24));
    PutAt(header, 0x08, client, h);
    PutAt(header, 0x0E, server, h + client);
    PutAt(header, 0x14, Put32(p.sequence), h + client + server);
    PutAt(header, 0x18, SIGNATURE, h + client + server + Put32(p.sequence));
    ConcatAssoc(h + client + server + Put32(p.sequence), SIGNATURE, Zeros(4));
  }

  lemma {:induction false} ZerosSplit(m: nat, n: nat)
    ensures Zeros(m + n) == Zeros(m) + Zeros(n)
    ensures Zeros(2) == [0, 0] && Zeros(4) == [0, 0, 0, 0]
  {
  }

  /** Writes behind a prefix, where there are only zeros. */
  method PutAt(a: array<Byte>, offset: nat, bytes: Bytes, ghost prefix: Bytes)
    requires offset + |bytes| <= a.Length && |prefix| == offset && a[..] == prefix + Zeros(a.Length - offset)
    modifies a
    ensures a[..] == prefix + bytes + Zeros(a.Length - offset - |bytes|)
  {
    ghost var was := a[..];
    forall i | 0 <= i < |bytes| {
      a[offset + i] := bytes[i];
    }
    assert a[..offset] == was[..offset] == prefix;
    assert a[offset..offset + |bytes|] == bytes;
    assert a[offset + |bytes|..] == Zeros(a.Length - offset - |bytes|) by {
      assert forall i :: offset + |bytes| <= i < a.Length ==> a[i] == was[i] == 0;
    }
    assert a[..] == a[..offset] + a[offset..offset + |bytes|] + a[offset + |bytes|..];
  }

  // ------------------------------------------------------------------
  // Decoding
  // ------------------------------------------------------------------

  datatype Decoded = Decoded(tlv: Tlv, consumed: nat)

  function DecodeTlv(data: Bytes): (r: Result<Decoded, CodecError>)
    ensures r.Ok? ==> 4 <= r.value.consumed <= |data|
  {
    if |data| < 4 then Err(ShortTlv)
    else
      var length := Get16(data[2..4]);
      if |data| < 4 + length then Err(TlvOverrun)
      else Ok(Decoded(Tlv(Get16(data[0..2]), data[4..4 + length]), 4 + length))
  }

  /** The TLVs of a body, and how many of its bytes they took. */
  datatype Body = Body(tlvs: seq<Tlv>, consumed: nat)

  /** The body ends at an end marker, whatever follows it, or when fewer than four
      bytes are left. */
  function DecodeTlvs(data: Bytes): (r: Result<Body, CodecError>)
    ensures r.Ok? ==> r.value.consumed <= |data|
  {
    if |data| < 4 then Ok(Body([], 0))
    else
      var d := DecodeTlv(data);
      if d.Err? then Err(d.error)
      else if d.value.tlv.tag == TAG_END_OF_MARK then Ok(Body([], 0))
      else Prepend(d.value, DecodeTlvs(data[d.value.consumed..]))
  }

  function Prepend(d: Decoded, r: Result<Body, CodecError>): Result<Body, CodecError> {
    if r.Err? then r else Ok(Body([d.tlv] + r.value.tlvs, d.consumed + r.value.consumed))
  }

  /** DecodePacket. */
  function Decode(data: Bytes): Result<Packet, CodecError> {
    if |data| < HEADER_SIZE then Err(ShortPacket)
    else if data[0x18..0x1C] != SIGNATURE then Err(BadSignature)
    else
      var body := DecodeTlvs(data[HEADER_SIZE..]);
      if body.Err? then Err(body.error)
      else if !ValidOp(data[0x01]) then Err(UnknownOp)
      else
        Ok(Packet(data[0x01], data[0x08..0x0E], data[0x0E..0x14], Get32(data[0x14..0x18]),
                  Get16(data[0x02..0x04]), Get16(data[0x04..0x06]), body.value.tlvs))
  }

  /** DecodePacket as the source writes it: a loop that advances an offset. */
  method DecodePacket(data: Bytes) returns (r: Result<Packet, CodecError>)
    ensures r == Decode(data)
  {
    if |data| < HEADER_SIZE {
      return Err(ShortPacket);
    }
    if data[0x18..0x1C] != SIGNATURE {
      return Err(BadSignature);
    }
    var tlvs: seq<Tlv> := [];
    var offset := HEADER_SIZE;
    while offset + 4 <= |data|
      invariant HEADER_SIZE <= offset <= |data|
      invariant Resumes(DecodeTlvs(data[HEADER_SIZE..]), tlvs, DecodeTlvs(data[offset..]))
    {
      var d := DecodeTlv(data[offset..]);
      if d.Err? {
        return Err(d.error);
      }
      if d.value.tlv.tag == TAG_END_OF_MARK {
        break;
      }
      ResumesOn(data, DecodeTlvs(data[HEADER_SIZE..]), tlvs, offset);
      tlvs := tlvs + [d.value.tlv];
      offset := offset + d.value.consumed;
    }
    assert DecodeTlvs(data[HEADER_SIZE..]).Ok? && DecodeTlvs(data[HEADER_SIZE..]).value.tlvs == tlvs;
    if !ValidOp(data[0x01]) {
      return Err(UnknownOp);
    }
    r := Ok(Packet(data[0x01], data[0x08..0x0E], data[0x0E..0x14], Get32(data[0x14..0x18]),
                   Get16(data[0x02..0x04]), Get16(data[0x04..0x06]), tlvs));
  }

  /** `whole` is `tlvs` followed by what `rest` gives. */
  ghost predicate Resumes(whole: Result<Body, CodecError>, tlvs: seq<Tlv>, rest: Result<Body, CodecError>) {
    if rest.Err? then whole == Err(rest.error) else whole.Ok? && whole.value.tlvs == tlvs + rest.value.tlvs
  }

  /** One TLV more. */
  lemma {:induction false} ResumesOn(data: Bytes, whole: Result<Body, CodecError>, tlvs: seq<Tlv>, offset: nat)
    requires offset + 4 <= |data| && Resumes(whole, tlvs, DecodeTlvs(data[offset..]))
    requires DecodeTlv(data[offset..]).Ok? && DecodeTlv(data[offset..]).value.tlv.tag != TAG_END_OF_MARK
    ensures var d := DecodeTlv(data[offset..]).value;
            Resumes(whole, tlvs + [d.tlv], DecodeTlvs(data[offset + d.consumed..]))
  {
    var d := DecodeTlv(data[offset..]).value;
    assert data[offset..][d.consumed..] == data[offset + d.consumed..];
    var rest := DecodeTlvs(data[offset + d.consumed..]);
    if rest.Ok? {
      ConcatAssoc(tlvs, [d.tlv], rest.value.tlvs);
    }
  }

  // ------------------------------------------------------------------
  // Round trips
  // ------------------------------------------------------------------

  predicate EncodableTlv(t: Tlv) {
    |t.value| <= 0xFFFF && t.tag != TAG_END_OF_MARK
  }

  predicate EncodableTlvs(tlvs: seq<Tlv>) {
    forall i :: 0 <= i < |tlvs| ==> EncodableTlv(tlvs[i])
  }

  /** The packets the wire can carry. */
  predicate Encodable(p: Packet) {
    && ValidOp(p.op)
    && |p.clientMac| == MAC_SIZE && |p.serverMac| == MAC_SIZE
    && EncodableTlvs(p.tlvs)
  }

  lemma {:induction false} TlvRoundTrip(t: Tlv, rest: Bytes)
    requires |t.value| <= 0xFFFF
    ensures DecodeTlv(EncodeTlv(t) + rest) == Ok(Decoded(t, |EncodeTlv(t)|))
  {
    var data := EncodeTlv(t) + rest;
    assert data[0..2] == Put16(t.tag);
    assert data[2..4] == Put16(|t.value|);
    assert data[4..4 + |t.value|] == t.value;
  }

  lemma {:induction false} EndMarkerEnds()
    ensures DecodeTlvs(END_MARKER) == Ok(Body([], 0))
  {
    assert END_MARKER[0..2] == [0xFF, 0xFF] && END_MARKER[2..4] == [0, 0];
  }

  /** A whole TLV at the front of a body is decoded first. */
  lemma {:induction false} BodyStep(t: Tlv, rest: Bytes)
    requires EncodableTlv(t)
    ensures DecodeTlvs(EncodeTlv(t) + rest) == Prepend(Decoded(t, |EncodeTlv(t)|), DecodeTlvs(rest))
  {
    TlvRoundTrip(t, rest);
    assert (EncodeTlv(t) + rest)[|EncodeTlv(t)|..] == rest;
  }

  /** One TLV more in front of a body that is read back. */
  lemma {:induction false} BodyGrows(t: Tlv, bytes: Bytes, tlvs: seq<Tlv>)
    requires EncodableTlv(t) && DecodeTlvs(bytes + END_MARKER) == Ok(Body(tlvs, |bytes|))
    ensures DecodeTlvs(EncodeTlv(t) + bytes + END_MARKER) == Ok(Body([t] + tlvs, |EncodeTlv(t)| + |bytes|))
  {
    ConcatAssoc(EncodeTlv(t), bytes, END_MARKER);
    BodyStep(t, bytes + END_MARKER);
  }

  lemma {:induction false} BodyRoundTrip(tlvs: seq<Tlv>)
    requires EncodableTlvs(tlvs)
    ensures DecodeTlvs(EncodeTlvs(tlvs) + END_MARKER) == Ok(Body(tlvs, |EncodeTlvs(tlvs)|))
  {
    if tlvs == [] {
      assert EncodeTlvs(tlvs) + END_MARKER == END_MARKER;
      EndMarkerEnds();
    } else {
      BodyRoundTrip(tlvs[1..]);
      BodyGrows(tlvs[0], EncodeTlvs(tlvs[1..]), tlvs[1..]);
      assert tlvs == [tlvs[0]] + tlvs[1..];
    }
  }

  lemma {:induction false} PreambleFields(op: Byte, result: U16, errorAttr: U16)
    ensures var h := Preamble(op, result, errorAttr);
            h[0x01] == op && h[0x02..0x04] == Put16(result) && h[0x04..0x06] == Put16(errorAttr)
  {
  }

  lemma {:induction false} SliceOfSlice(d: Bytes, n: nat, i: nat, j: nat)
    requires i <= j <= n <= |d|
    ensures d[..n][i..j] == d[i..j]
  {
  }

  /** The fields of a header, read back. */
  lemma {:induction false} HeaderFields(op: Byte, result: U16, errorAttr: U16, client: Bytes, server: Bytes, sequence: U32, body: Bytes)
    requires |client| == MAC_SIZE && |server| == MAC_SIZE
    ensures var d := Header(op, result, errorAttr, client, server, sequence) + body;
            && d[0x01] == op && d[0x02..0x04] == Put16(result) && d[0x04..0x06] == Put16(errorAttr)
            && d[0x08..0x0E] == client && d[0x0E..0x14] == server && d[0x14..0x18] == Put32(sequence)
            && d[0x18..0x1C] == SIGNATURE && d[HEADER_SIZE..] == body
  {
    var h := Header(op, result, errorAttr, client, server, sequence);
    var d := h + body;
    assert d[..8] == Preamble(op, result, errorAttr);
    PreambleFields(op, result, errorAttr);
    SliceOfSlice(d, 8, 2, 4);
    SliceOfSlice(d, 8, 4, 6);
    assert d[1] == d[..8][1];
  }

  lemma {:induction false} PacketRoundTrip(p: Packet)
    requires Encodable(p)
    ensures Encode(p).Ok? && Decode(Encode(p).value) == Ok(p)
  {
    assert p.clientMac + Zeros(0) == p.clientMac && p.serverMac + Zeros(0) == p.serverMac;
    var head := Header(p.op, p.result, p.errorAttr, p.clientMac, p.serverMac, p.sequence);
    ConcatAssoc(head, EncodeTlvs(p.tlvs), END_MARKER);
    HeaderFields(p.op, p.result, p.errorAttr, p.clientMac, p.serverMac, p.sequence, EncodeTlvs(p.tlvs) + END_MARKER);
    BodyRoundTrip(p.tlvs);
  }

  lemma {:induction false} DecodedTlvEncodable(data: Bytes)
    ensures var d := DecodeTlv(data);
            d.Ok? && d.value.tlv.tag != TAG_END_OF_MARK ==> EncodableTlv(d.value.tlv)
  {
  }

  lemma {:induction false} EncodableInFront(t: Tlv, tlvs: seq<Tlv>)
    requires EncodableTlv(t) && EncodableTlvs(tlvs)
    ensures EncodableTlvs([t] + tlvs)
  {
  }

  lemma {:induction false} DecodedTlvsEncodable(data: Bytes)
    ensures DecodeTlvs(data).Ok? ==> EncodableTlvs(DecodeTlvs(data).value.tlvs)
    decreases |data|
  {
    if |data| >= 4 {
      var d := DecodeTlv(data);
      if d.Ok? && d.value.tlv.tag != TAG_END_OF_MARK {
        var rest := DecodeTlvs(data[d.value.consumed..]);
        DecodedTlvsEncodable(data[d.value.consumed..]);
        DecodedTlvEncodable(data);
        if rest.Ok? {
          EncodableInFront(d.value.tlv, rest.value.tlvs);
        }
      }
    }
  }

  /** Every packet that is decoded can be encoded. */
  lemma {:induction false} DecodedIsEncodable(data: Bytes)
    requires Decode(data).Ok?
    ensures Encodable(Decode(data).value)
  {
    DecodedTlvsEncodable(data[HEADER_SIZE..]);
  }

  /** A packet survives the wire exactly when it is encodable: a short or long MAC,
      an unknown operation, a value of 65536 bytes or more, or an end-marker tag
      among the TLVs each lose something. */
  lemma {:induction false} RoundTripIff(p: Packet)
    ensures Encode(p).Ok? && Decode(Encode(p).value) == Ok(p) <==> Encodable(p)
  {
    if Encodable(p) {
      PacketRoundTrip(p);
    }
    if Encode(p).Ok? && Decode(Encode(p).value) == Ok(p) {
      DecodedIsEncodable(Encode(p).value);
    }
  }

  /** A TLV is re-encoded to the bytes it took. */
  lemma {:induction false} TlvCanonical(data: Bytes)
    requires DecodeTlv(data).Ok?
    ensures EncodeTlv(DecodeTlv(data).value.tlv) == data[..DecodeTlv(data).value.consumed]
  {
    PutGet16(data[0..2]);
    PutGet16(data[2..4]);
  }

  lemma {:induction false} SliceJoins(data: Bytes, n: nat, m: nat)
    requires n <= |data| && m <= |data[n..]|
    ensures data[..n] + data[n..][..m] == data[..n + m]
  {
  }

  lemma {:induction false} BodyCanonical(data: Bytes)
    requires DecodeTlvs(data).Ok?
    ensures EncodeTlvs(DecodeTlvs(data).value.tlvs) == data[..DecodeTlvs(data).value.consumed]
    decreases |data|
  {
    if |data| >= 4 && DecodeTlv(data).value.tlv.tag != TAG_END_OF_MARK {
      var d := DecodeTlv(data).value;
      var body := DecodeTlvs(data[d.consumed..]).value;
      BodyCanonical(data[d.consumed..]);
      TlvCanonical(data);
      assert ([d.tlv] + body.tlvs)[1..] == body.tlvs;
      SliceJoins(data, d.consumed, body.consumed);
    }
  }

  /** Re-encoding a decoded packet restores its bytes: the header with the version
      and the reserved fields in their canonical form, the TLV bytes that were
      consumed, and an end marker in place of whatever followed them. */
  lemma {:induction false} ReencodingIsCanonical(data: Bytes)
    requires Decode(data).Ok?
    ensures var consumed := DecodeTlvs(data[HEADER_SIZE..]).value.consumed;
            Encode(Decode(data).value) ==
              Ok([0x01] + data[0x01..0x06] + [0, 0] + data[0x08..0x1C] + [0, 0, 0, 0]
                 + data[HEADER_SIZE..HEADER_SIZE + consumed] + END_MARKER)
  {
    var p, body := Decode(data).value, data[HEADER_SIZE..];
    BodyCanonical(body);
    PutGet16(data[0x02..0x04]);
    PutGet16(data[0x04..0x06]);
    PutGet32(data[0x14..0x18]);
    assert p.clientMac + Zeros(0) == p.clientMac && p.serverMac + Zeros(0) == p.serverMac;
    assert Header(p.op, p.result, p.errorAttr, p.clientMac, p.serverMac, p.sequence)
        == [0x01] + data[0x01..0x06] + [0, 0] + data[0x08..0x1C] + [0, 0, 0, 0];
    var consumed := DecodeTlvs(body).value.consumed;
    assert body[..consumed] == data[HEADER_SIZE..HEADER_SIZE + consumed];
  }
}
