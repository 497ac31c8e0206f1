/** Known answers (nsdp/auth_v2_test.go, nsdp/protocol_test.go): what the model computes
    at the repository's own test vectors. */
module NsdpVectors {
  import opened Prelude
  import opened Bits
  import opened NsdpCodec
  import opened NsdpAuth
  import opened NsdpReport

  // ------------------------------------------------------------------
  // A token
  // ------------------------------------------------------------------

  /** What the first n of some bytes come to. */
  ghost predicate Comes(t: Bytes, n: nat, r: Byte) {
    n <= |t| && XorAll(t[..n]) == r
  }

  lemma {:induction false} ComesOne(t: Bytes)
    requires t != []
    ensures Comes(t, 1, t[0])
  {
    assert t[..1][..0] == [];
    XorZero(t[0]);
  }

  lemma {:induction false} ComesNext(t: Bytes, n: nat, r: Byte, b: Byte, next: Byte)
    requires Comes(t, n, r) && n < |t| && t[n] == b && DigitsXor(r, b, next)
    ensures Comes(t, n + 1, next)
  {
    assert t[..n + 1][..n] == t[..n];
    XorIs(r, b, next);
  }

  /** A zero changes nothing, and to zero anything is added as it is. */
  lemma {:induction false} ComesZero(t: Bytes, n: nat, r: Byte)
    requires Comes(t, n, r) && n < |t| && (t[n] == 0 || r == 0)
    ensures Comes(t, n + 1, if r == 0 then t[n] else r)
  {
    assert t[..n + 1][..n] == t[..n];
    XorZero(r);
    XorZero(t[n]);
  }

  /** The terms from the salt and the MAC. */
  lemma {:induction false} ComesFour(t: Bytes, p: Byte, q: Byte, u: Byte, v: Byte, a: Byte, b: Byte, c: Byte)
    requires |t| == 7 && t[0] == p && t[1] == q && t[2] == u && t[3] == v
    requires DigitsXor(p, q, a) && DigitsXor(a, u, b) && DigitsXor(b, v, c)
    ensures Comes(t, 4, c)
  {
    ComesOne(t);
    ComesNext(t, 1, p, q, a);
    ComesNext(t, 2, a, u, b);
    ComesNext(t, 3, b, v, c);
  }

  /** A key that has nothing to add. */
  lemma {:induction false} ComesNone(t: Bytes, c: Byte)
    requires |t| == 7 && Comes(t, 4, c) && t[4] == 0 && t[5] == 0 && t[6] == 0
    ensures Comes(t, 7, c)
  {
    ComesZero(t, 4, c);
    ComesZero(t, 5, c);
    ComesZero(t, 6, c);
  }

  /** The published vector: "password", 12:34:56:78:9a:bc, 12:34:56:78. */
  const KNOWN_PASSWORD: Bytes := [0x70, 0x61, 0x73, 0x73, 0x77, 0x6F, 0x72, 0x64]
  const KNOWN_MAC: Bytes := [0x12, 0x34, 0x56, 0x78, 0x9A, 0xBC]
  const KNOWN_SALT: Bytes := [0x12, 0x34, 0x56, 0x78]
  const KNOWN_TOKEN: Bytes := [0xC4, 0xAF, 0x7C, 0x00, 0xA6, 0xC4, 0x1A, 0x7D]

  predicate KnownInputs(k: Bytes, s: Bytes, m: Bytes) {
    && |k| == KEY_SIZE && |s| == 4 && |m| == MAC_SIZE
    && k[0] == 0x70 && k[1] == 0x61 && k[2] == 0x73 && k[3] == 0x73
    && k[4] == 0x77 && k[5] == 0x6F && k[6] == 0x72 && k[7] == 0x64
    && k[8] == 0 && k[9] == 0 && k[10] == 0 && k[11] == 0 && k[12] == 0 && k[13] == 0
    && k[14] == 0 && k[15] == 0 && k[16] == 0 && k[17] == 0 && k[18] == 0 && k[19] == 0
    && s[0] == 0x12 && s[1] == 0x34 && s[2] == 0x56 && s[3] == 0x78
    && m[0] == 0x12 && m[1] == 0x34 && m[2] == 0x56 && m[3] == 0x78 && m[4] == 0x9A && m[5] == 0xBC
  }

  lemma {:induction false} SourceXors0()
    ensures DigitsXor(0x78, 0x56, 0x2E)
    ensures DigitsXor(0x2E, 0x34, 0x1A)
    ensures DigitsXor(0x1A, 0xBC, 0xA6)
  {
  }

  lemma {:induction false} SourceXors1()
    ensures DigitsXor(0x78, 0x34, 0x4C)
    ensures DigitsXor(0x4C, 0x9A, 0xD6)
    ensures DigitsXor(0xD6, 0x12, 0xC4)
  {
  }

  lemma {:induction false} SourceXors2()
    ensures DigitsXor(0x12, 0x56, 0x44)
    ensures DigitsXor(0x44, 0x78, 0x3C)
    ensures DigitsXor(0x3C, 0x56, 0x6A)
  {
  }

  lemma {:induction false} SourceXors3()
    ensures DigitsXor(0x12, 0x34, 0x26)
    ensures DigitsXor(0x26, 0x9A, 0xBC)
    ensures DigitsXor(0xBC, 0xBC, 0x00)
  {
  }

  lemma {:induction false} KeyXors0()
    ensures DigitsXor(0xA6, 0x70, 0xD6)
    ensures DigitsXor(0xD6, 0x61, 0xB7)
    ensures DigitsXor(0xB7, 0x73, 0xC4)
  {
  }

  lemma {:induction false} KeyXors1()
    ensures DigitsXor(0xC4, 0x73, 0xB7)
    ensures DigitsXor(0xB7, 0x77, 0xC0)
  {
  }

  lemma {:induction false} LastKeyXor1()
    ensures DigitsXor(0xC0, 0x6F, 0xAF)
  {
  }

  lemma {:induction false} KeyXors2()
    ensures DigitsXor(0x6A, 0x72, 0x18)
    ensures DigitsXor(0x18, 0x64, 0x7C)
  {
  }

  lemma {:induction false} KeyXors6()
    ensures DigitsXor(0x6A, 0x70, 0x1A)
  {
  }

  lemma {:induction false} KeyXors7()
    ensures DigitsXor(0x61, 0x73, 0x12)
    ensures DigitsXor(0x12, 0x6F, 0x7D)
  {
  }

  lemma {:induction false} KnownByte0(k: Bytes, s: Bytes, m: Bytes)
    requires KnownInputs(k, s, m)
    ensures Comes(Terms(k, s, m, 0), 7, 0xC4)
  {
    var t := Terms(k, s, m, 0);
    SourceXors0();
    KeyXors0();
    ComesFour(t, 0x78, 0x56, 0x34, 0xBC, 0x2E, 0x1A, 0xA6);
    ComesNext(t, 4, 0xA6, 0x70, 0xD6);
    ComesNext(t, 5, 0xD6, 0x61, 0xB7);
    ComesNext(t, 6, 0xB7, 0x73, 0xC4);
  }

  lemma {:induction false} KnownByte1(k: Bytes, s: Bytes, m: Bytes)
    requires KnownInputs(k, s, m)
    ensures Comes(Terms(k, s, m, 1), 7, 0xAF)
  {
    var t := Terms(k, s, m, 1);
    SourceXors1();
    KeyXors1();
    LastKeyXor1();
    ComesFour(t, 0x78, 0x34, 0x9A, 0x12, 0x4C, 0xD6, 0xC4);
    ComesNext(t, 4, 0xC4, 0x73, 0xB7);
    ComesNext(t, 5, 0xB7, 0x77, 0xC0);
    ComesNext(t, 6, 0xC0, 0x6F, 0xAF);
  }

  lemma {:induction false} KnownByte2(k: Bytes, s: Bytes, m: Bytes)
    requires KnownInputs(k, s, m)
    ensures Comes(Terms(k, s, m, 2), 7, 0x7C)
  {
    var t := Terms(k, s, m, 2);
    SourceXors2();
    KeyXors2();
    ComesFour(t, 0x12, 0x56, 0x78, 0x56, 0x44, 0x3C, 0x6A);
    ComesNext(t, 4, 0x6A, 0x72, 0x18);
    ComesNext(t, 5, 0x18, 0x64, 0x7C);
    ComesZero(t, 6, 0x7C);
  }

  lemma {:induction false} KnownByte3(k: Bytes, s: Bytes, m: Bytes)
    requires KnownInputs(k, s, m)
    ensures Comes(Terms(k, s, m, 3), 7, 0x00)
  {
    var t := Terms(k, s, m, 3);
    SourceXors3();
    ComesFour(t, 0x12, 0x34, 0x9A, 0xBC, 0x26, 0xBC, 0x00);
    ComesNone(t, 0x00);
  }

  lemma {:induction false} KnownByte4(k: Bytes, s: Bytes, m: Bytes)
    requires KnownInputs(k, s, m)
    ensures Comes(Terms(k, s, m, 4), 7, 0xA6)
  {
    var t := Terms(k, s, m, 4);
    SourceXors0();
    ComesFour(t, 0x78, 0x56, 0x34, 0xBC, 0x2E, 0x1A, 0xA6);
    ComesNone(t, 0xA6);
  }

  lemma {:induction false} KnownByte5(k: Bytes, s: Bytes, m: Bytes)
    requires KnownInputs(k, s, m)
    ensures Comes(Terms(k, s, m, 5), 7, 0xC4)
  {
    var t := Terms(k, s, m, 5);
    SourceXors1();
    ComesFour(t, 0x78, 0x34, 0x9A, 0x12, 0x4C, 0xD6, 0xC4);
    ComesNone(t, 0xC4);
  }

  lemma {:induction false} KnownByte6(k: Bytes, s: Bytes, m: Bytes)
    requires KnownInputs(k, s, m)
    ensures Comes(Terms(k, s, m, 6), 7, 0x1A)
  {
    var t := Terms(k, s, m, 6);
    SourceXors2();
    KeyXors6();
    ComesFour(t, 0x12, 0x56, 0x78, 0x56, 0x44, 0x3C, 0x6A);
    ComesZero(t, 4, 0x6A);
    ComesZero(t, 5, 0x6A);
    ComesNext(t, 6, 0x6A, 0x70, 0x1A);
  }

  lemma {:induction false} KnownByte7(k: Bytes, s: Bytes, m: Bytes)
    requires KnownInputs(k, s, m)
    ensures Comes(Terms(k, s, m, 7), 7, 0x7D)
  {
    var t := Terms(k, s, m, 7);
    SourceXors3();
    KeyXors7();
    ComesFour(t, 0x12, 0x34, 0x9A, 0xBC, 0x26, 0xBC, 0x00);
    ComesZero(t, 4, 0x00);
    ComesNext(t, 5, 0x61, 0x73, 0x12);
    ComesNext(t, 6, 0x12, 0x6F, 0x7D);
  }

  lemma {:induction false} KnownKey()
    ensures KnownInputs(Key(KNOWN_PASSWORD), KNOWN_SALT, KNOWN_MAC) && IsAscii(KNOWN_PASSWORD)
  {
  }

  /** Its token. */
  lemma {:induction false} KnownToken()
    ensures AuthV2Password(KNOWN_PASSWORD, KNOWN_MAC, KNOWN_SALT) == Ok(KNOWN_TOKEN)
  {
    var k, s, m := Key(KNOWN_PASSWORD), KNOWN_SALT, KNOWN_MAC;
    KnownKey();
    KnownByte0(k, s, m);
    KnownByte1(k, s, m);
    KnownByte2(k, s, m);
    KnownByte3(k, s, m);
    KnownByte4(k, s, m);
    KnownByte5(k, s, m);
    KnownByte6(k, s, m);
    KnownByte7(k, s, m);
    var t := Token(KNOWN_PASSWORD, m, s);
    forall i | 0 <= i < 8 ensures Comes(Terms(k, s, m, i), 7, t[i]) {
      WholeSlice(Terms(k, s, m, i));
    }
    assert t == [t[0], t[1], t[2], t[3], t[4], t[5], t[6], t[7]];
  }

  /** The key of version 1 spells a text. */
  lemma {:induction false} KeyText(i: nat)
    requires i < |"NtgrSmartSwitchRock"|
    ensures |V1_KEY| == |"NtgrSmartSwitchRock"| && V1_KEY[i] as char == "NtgrSmartSwitchRock"[i]
  {
  }

  // ------------------------------------------------------------------
  // A packet
  // ------------------------------------------------------------------

  /** A MAC in its field: what there is of it, then zeros. */
  ghost predicate InField(mac: Bytes, field: Bytes) {
    |field| == 6 && mac <= field && forall i :: |mac| <= i < 6 ==> field[i] == 0
  }

  lemma {:induction false} PackedMac(mac: Bytes)
    ensures PackMac(mac).Ok? <==> |mac| <= 6
    ensures |mac| <= 6 ==> InField(mac, PackMac(mac).value)
  {
  }

  lemma {:induction false} PutMeaning(a: U16, b: U32)
    ensures Low(Put16(a), 2) == a && Low(Put32(b), 4) == b
  {
    Get16Meaning(Put16(a));
    Get32Meaning(Put32(b));
  }

  /** The bytes of a packet, by their place: encoding fails exactly when a MAC is longer
      than six bytes. */
  lemma {:induction false} PacketLayout(p: Packet)
    ensures Encode(p).Ok? <==> |p.clientMac| <= 6 && |p.serverMac| <= 6
    ensures Encode(p).Ok? ==>
              var d := Encode(p).value;
              && |d| >= 36 && d[0] == 0x01 && d[1] == p.op
              && Low(d[2..4], 2) == p.result && Low(d[4..6], 2) == p.errorAttr && d[6..8] == [0, 0]
              && InField(p.clientMac, d[8..14]) && InField(p.serverMac, d[14..20])
              && Low(d[20..24], 4) == p.sequence
              && d[24..32] == [0x4E, 0x53, 0x44, 0x50, 0, 0, 0, 0]
              && d[32..] == EncodeTlvs(p.tlvs) + [0xFF, 0xFF, 0, 0]
  {
    PackedMac(p.clientMac);
    PackedMac(p.serverMac);
    if Encode(p).Ok? {
      PutMeaning(p.result, p.sequence);
      PutMeaning(p.errorAttr, p.sequence);
      var client, server := PackMac(p.clientMac).value, PackMac(p.serverMac).value;
      HeaderPlaces(p, client, server, EncodeTlvs(p.tlvs) + END_MARKER);
      ConcatAssoc(Header(p.op, p.result, p.errorAttr, client, server, p.sequence), EncodeTlvs(p.tlvs), END_MARKER);
    }
  }

  lemma {:induction false} HeaderPlaces(p: Packet, client: Bytes, server: Bytes, body: Bytes)
    requires |client| == 6 && |server| == 6
    ensures var d := Header(p.op, p.result, p.errorAttr, client, server, p.sequence) + body;
            && d[0] == 0x01 && d[1] == p.op && d[2..4] == Put16(p.result) && d[4..6] == Put16(p.errorAttr)
            && d[6..8] == [0, 0] && d[8..14] == client && d[14..20] == server && d[20..24] == Put32(p.sequence)
            && d[24..32] == [0x4E, 0x53, 0x44, 0x50, 0, 0, 0, 0] && d[32..] == body
  {
    var d := Header(p.op, p.result, p.errorAttr, client, server, p.sequence) + body;
    HeaderFields(p.op, p.result, p.errorAttr, client, server, p.sequence, body);
    assert d[..8] == Preamble(p.op, p.result, p.errorAttr);
    assert d[0] == d[..8][0] && d[6..8] == d[..8][6..8];
    assert d[24..32] == TRAILER;
  }

  /** A TLV: tag, length, value. */
  lemma {:induction false} TlvLayout(t: Tlv)
    requires |t.value| <= 0xFFFF
    ensures var b := EncodeTlv(t);
            |b| == 4 + |t.value| && Low(b[0..2], 2) == t.tag && Low(b[2..4], 2) == |t.value| && b[4..] == t.value
  {
    var b := EncodeTlv(t);
    assert b[0..2] == Put16(t.tag) && b[2..4] == Put16(|t.value|);
    PutMeaning(t.tag, 0);
    PutMeaning(|t.value|, 0);
  }

  lemma {:induction false} SmallTlv(tag: U16, value: Bytes)
    requires |value| < 0x100
    ensures EncodeTlv(Tlv(tag, value)) == [tag / 0x100, tag % 0x100, 0, |value|] + value
  {
  }

  lemma {:induction false} TwoTlvs(a: Tlv, b: Tlv)
    ensures EncodeTlvs([a, b]) == EncodeTlv(a) + EncodeTlv(b)
  {
    assert [a, b][1..] == [b] && [b][1..] == [];
    assert EncodeTlvs([b]) == EncodeTlv(b) + [];
  }

  lemma {:induction false} SmallHeader(op: Byte, client: Bytes, server: Bytes, sequence: U32)
    requires |client| == 6 && |server| == 6
    ensures Header(op, 0, 0, client, server, sequence)
         == [0x01, op, 0, 0, 0, 0, 0, 0] + client + server + Put32(sequence) + [0x4E, 0x53, 0x44, 0x50, 0, 0, 0, 0]
  {
    assert Preamble(op, 0, 0) == [0x01, op, 0, 0, 0, 0, 0, 0];
    assert TRAILER == [0x4E, 0x53, 0x44, 0x50, 0, 0, 0, 0];
  }

  /** The read request of the repository's first golden vector. */
  lemma {:induction false} GoldenRead()
    ensures Encode(Packet(0x01, [0, 0, 0, 0, 0, 1], [0, 0, 0, 0, 0, 0], 1, 0, 0, [Tlv(0x0001, []), Tlv(0x0C00, [])]))
         == Ok([0x01, 0x01, 0, 0, 0, 0, 0, 0] + [0, 0, 0, 0, 0, 1] + [0, 0, 0, 0, 0, 0] + [0, 0, 0, 1]
               + [0x4E, 0x53, 0x44, 0x50, 0, 0, 0, 0]
               + ([0x00, 0x01, 0, 0] + [0x0C, 0x00, 0, 0]) + [0xFF, 0xFF, 0, 0])
  {
    var client: Bytes, server: Bytes := [0, 0, 0, 0, 0, 1], [0, 0, 0, 0, 0, 0];
    assert client + Zeros(0) == client && server + Zeros(0) == server;
    SmallHeader(0x01, client, server, 1);
    assert Put32(1) == [0, 0, 0, 1];
    TwoTlvs(Tlv(0x0001, []), Tlv(0x0C00, []));
    SmallTlv(0x0001, []);
    SmallTlv(0x0C00, []);
    assert [0x00, 0x01, 0, 0] + [] == [0x00, 0x01, 0, 0] && [0x0C, 0x00, 0, 0] + [] == [0x0C, 0x00, 0, 0];
  }

  lemma {:induction false} AdminXors0()
    ensures DigitsXor(0x61, 0x4E, 0x2F) && DigitsXor(0x64, 0x74, 0x10) && DigitsXor(0x6D, 0x67, 0x0A)
  {
  }

  lemma {:induction false} AdminXors1()
    ensures DigitsXor(0x69, 0x72, 0x1B) && DigitsXor(0x6E, 0x53, 0x3D)
  {
  }

  lemma {:induction false} SmallRest(i: nat, n: nat)
    requires i < n
    ensures i % n == i
  {
  }

  lemma {:induction false} KeyedAt(text: Bytes, i: nat)
    requires i < |text| && i < |V1_KEY|
    ensures XorKey(text)[i] == XorByte(text[i], V1_KEY[i])
  {
    SmallRest(i, |V1_KEY|);
  }

  /** A text of five bytes. */
  lemma {:induction false} KeyedFive(text: Bytes, key: Bytes, r: Bytes)
    requires |text| == 5 && |key| == 5 && |r| == 5 && key <= V1_KEY
    requires DigitsXor(text[0], key[0], r[0]) && DigitsXor(text[1], key[1], r[1]) && DigitsXor(text[2], key[2], r[2])
    requires DigitsXor(text[3], key[3], r[3]) && DigitsXor(text[4], key[4], r[4])
    ensures XorKey(text) == r
  {
    forall i | 0 <= i < 5 ensures XorKey(text)[i] == r[i] {
      KeyedAt(text, i);
      XorIs(text[i], key[i], r[i]);
    }
  }

  /** "admin" under version 1. */
  lemma {:induction false} AdminKey(password: Bytes)
    requires password == [0x61, 0x64, 0x6D, 0x69, 0x6E]
    ensures XorKey(password) == [0x2F, 0x10, 0x0A, 0x1B, 0x3D]
  {
    AdminXors0();
    AdminXors1();
    KeyedFive(password, [0x4E, 0x74, 0x67, 0x72, 0x53], [0x2F, 0x10, 0x0A, 0x1B, 0x3D]);
  }

  /** The write request of the second: password "admin", hostname "switch01". */
  lemma {:induction false} GoldenWrite(password: Bytes, hostname: Bytes)
    requires password == [0x61, 0x64, 0x6D, 0x69, 0x6E]
    requires hostname == [0x73, 0x77, 0x69, 0x74, 0x63, 0x68, 0x30, 0x31]
    ensures Encode(Packet(0x03, [0, 0, 0, 0, 0, 1], [0xAA, 0xBB, 0xCC, 0xDD, 0xEE, 0xFF], 0x12345678, 0, 0,
                          [Tlv(0x000A, XorKey(password)), Tlv(0x0003, hostname)]))
         == Ok([0x01, 0x03, 0, 0, 0, 0, 0, 0] + [0, 0, 0, 0, 0, 1] + [0xAA, 0xBB, 0xCC, 0xDD, 0xEE, 0xFF]
               + [0x12, 0x34, 0x56, 0x78] + [0x4E, 0x53, 0x44, 0x50, 0, 0, 0, 0]
               + ([0x00, 0x0A, 0, 5] + [0x2F, 0x10, 0x0A, 0x1B, 0x3D] + ([0x00, 0x03, 0, 8] + hostname)) + [0xFF, 0xFF, 0, 0])
  {
    var client: Bytes, server: Bytes := [0, 0, 0, 0, 0, 1], [0xAA, 0xBB, 0xCC, 0xDD, 0xEE, 0xFF];
    assert client + Zeros(0) == client && server + Zeros(0) == server;
    SmallHeader(0x03, client, server, 0x12345678);
    assert Put32(0x12345678) == [0x12, 0x34, 0x56, 0x78];
    AdminKey(password);
    TwoTlvs(Tlv(0x000A, XorKey(password)), Tlv(0x0003, hostname));
    SmallTlv(0x000A, XorKey(password));
    SmallTlv(0x0003, hostname);
  }
}
