/** The streams the telnet decoder reads back, and those it does not. */
module TelnetGrammar {
  import opened Prelude
  import opened TelnetStream

  ghost function Octets(bytes: Bytes): seq<Item>
    decreases |bytes|
  {
    if bytes == [] then [] else [Octet(bytes[0])] + Octets(bytes[1..])
  }

  lemma {:induction false} OctetsConcat(a: Bytes, b: Bytes)
    ensures Octets(a + b) == Octets(a) + Octets(b)
    decreases |a|
  {
    if a == [] {
      assert a + b == b;
    } else {
      assert (a + b)[0] == a[0] && (a + b)[1..] == a[1..] + b;
      OctetsConcat(a[1..], b);
    }
  }

  /** Read from `st`, the bytes carry this data, provoke these replies, and leave the
      decoder at `end` with `rest` to come. */
  ghost predicate Reads(st: State, bytes: Bytes, data: Bytes, replies: Bytes, end: State, rest: Bytes) {
    && After(st, Octets(bytes)) == After(end, Octets(rest))
    && Data(st, Octets(bytes)) == data + Data(end, Octets(rest))
    && Replies(st, Octets(bytes)) == replies + Replies(end, Octets(rest))
  }

  lemma {:induction false} ReadOne(st: State, b: Byte, rest: Bytes)
    ensures Reads(st, [b] + rest, Emit(st, b), Answer(st, b), Next(st, b), rest)
  {
    assert ([b] + rest)[1..] == rest;
    assert Octets([b] + rest) == [Octet(b)] + Octets(rest);
    Step(st, b, Octets(rest));
  }

  /** Bytes that carry nothing and provoke nothing change nothing. */
  lemma {:induction false} ReadOn(st: State, bytes: Bytes, mid: State, more: Bytes, data: Bytes, replies: Bytes, end: State, rest: Bytes)
    requires Reads(st, bytes, [], [], mid, more) && Reads(mid, more, data, replies, end, rest)
    ensures Reads(st, bytes, data, replies, end, rest)
  {
  }

  lemma {:induction false} ReadLiteral(rest: Bytes)
    ensures Reads(Ground, [IAC] + ([IAC] + rest), [IAC], [], Ground, rest)
  {
    ReadOne(Ground, IAC, [IAC] + rest);
    ReadOne(Command, IAC, rest);
    ReadOn(Ground, [IAC] + ([IAC] + rest), Command, [IAC] + rest, [IAC], [], Ground, rest);
  }

  /** The first byte of what is written, as it goes out. */
  lemma {:induction false} EscapeStep(p: Bytes)
    requires p != []
    ensures p[0] == IAC ==> Escape(p) == [IAC] + ([IAC] + Escape(p[1..]))
    ensures p[0] != IAC ==> Escape(p) == [p[0]] + Escape(p[1..])
  {
  }

  /** Write and Read are inverse: what Write sends decodes to what was written,
      and provokes no reply. */
  lemma {:induction false} WriteThenRead(p: Bytes)
    ensures Data(Ground, Octets(Escape(p))) == p
    ensures Replies(Ground, Octets(Escape(p))) == []
    ensures After(Ground, Octets(Escape(p))) == Ground
    decreases |p|
  {
    if p != [] {
      var tail := Escape(p[1..]);
      WriteThenRead(p[1..]);
      assert p == [p[0]] + p[1..];
      EscapeStep(p);
      if p[0] == IAC {
        ReadLiteral(tail);
      } else {
        ReadOne(Ground, p[0], tail);
      }
    }
  }

  /** The units of a telnet stream, in the octets of RFC 854 and RFC 855: 255 is IAC,
      250 to 240 a subnegotiation, 251 to 254 WILL, WONT, DO and DONT. */
  datatype Token =
    | Plain(b: Byte)
    | Literal                            // a data byte 0xFF
    | Bare(cmd: Byte)                    // NOP, GA and the like
    | Ask(verb: Byte, opt: Byte)         // WILL, WONT, DO, DONT
    | Block(payload: Bytes)              // a subnegotiation
  {
    predicate Legal() {
      match this
      case Plain(b) => b != 255
      case Bare(cmd) => cmd != 255 && cmd != 250 && !(251 <= cmd <= 254)
      case Ask(verb, _) => 251 <= verb <= 254
      case _ => true
    }

    function Wire(): Bytes {
      match this
      case Plain(b) => [b]
      case Literal => [255, 255]
      case Bare(cmd) => [255, cmd]
      case Ask(verb, opt) => [255, verb, opt]
      case Block(payload) => [255, 250] + Escape(payload) + [255, 240]
    }

    function Carries(): Bytes {
      match this
      case Plain(b) => [b]
      case Literal => [255]
      case _ => []
    }

    function Refusal(): Bytes {
      match this
      case Ask(verb, opt) =>
        if verb == 253 then [255, 252, opt] else if verb == 251 then [255, 254, opt] else []
      case _ => []
    }
  }

  function Wire(tokens: seq<Token>): Bytes {
    if tokens == [] then [] else tokens[0].Wire() + Wire(tokens[1..])
  }

  function Carries(tokens: seq<Token>): Bytes {
    if tokens == [] then [] else tokens[0].Carries() + Carries(tokens[1..])
  }

  function Refusals(tokens: seq<Token>): Bytes {
    if tokens == [] then [] else tokens[0].Refusal() + Refusals(tokens[1..])
  }

  /** Nothing inside a subnegotiation is data, and only IAC SE ends it. */
  lemma {:induction false} ReadBlock(payload: Bytes, rest: Bytes)
    ensures Reads(Sub, Escape(payload) + ([IAC, SE] + rest), [], [], Ground, rest)
    decreases |payload|
  {
    var close := [IAC, SE] + rest;
    if payload == [] {
      assert Escape(payload) + close == [IAC] + ([SE] + rest);
      ReadOne(Sub, IAC, [SE] + rest);
      ReadOne(SubCommand, SE, rest);
      ReadOn(Sub, [IAC] + ([SE] + rest), SubCommand, [SE] + rest, [], [], Ground, rest);
    } else {
      ReadBlock(payload[1..], rest);
      SkipByte(payload, close);
      ReadOn(Sub, Escape(payload) + close, Sub, Escape(payload[1..]) + close, [], [], Ground, rest);
    }
  }

  lemma {:induction false} SkipByte(payload: Bytes, close: Bytes)
    requires payload != []
    ensures Reads(Sub, Escape(payload) + close, [], [], Sub, Escape(payload[1..]) + close)
  {
    var b, tail := payload[0], Escape(payload[1..]) + close;
    EscapeStep(payload);
    if b == IAC {
      assert Escape(payload) + close == [IAC] + ([IAC] + tail);
      ReadOne(Sub, IAC, [IAC] + tail);
      ReadOne(SubCommand, IAC, tail);
      ReadOn(Sub, [IAC] + ([IAC] + tail), SubCommand, [IAC] + tail, [], [], Sub, tail);
    } else {
      assert Escape(payload) + close == [b] + tail;
      ReadOne(Sub, b, tail);
    }
  }

  lemma {:induction false} ReadBare(cmd: Byte, rest: Bytes)
    requires Bare(cmd).Legal()
    ensures Reads(Ground, [IAC] + ([cmd] + rest), [], [], Ground, rest)
  {
    ReadOne(Ground, IAC, [cmd] + rest);
    ReadOne(Command, cmd, rest);
    ReadOn(Ground, [IAC] + ([cmd] + rest), Command, [cmd] + rest, [], [], Ground, rest);
  }

  lemma {:induction false} ReadAsk(verb: Byte, opt: Byte, rest: Bytes)
    requires Ask(verb, opt).Legal()
    ensures Reads(Ground, [IAC] + ([verb] + ([opt] + rest)), [], Ask(verb, opt).Refusal(), Ground, rest)
  {
    var after := [opt] + rest;
    ReadOne(Ground, IAC, [verb] + after);
    ReadOne(Command, verb, after);
    ReadOne(Negotiation(verb), opt, rest);
    ReadOn(Command, [verb] + after, Negotiation(verb), after, [], Ask(verb, opt).Refusal(), Ground, rest);
    ReadOn(Ground, [IAC] + ([verb] + after), Command, [verb] + after, [], Ask(verb, opt).Refusal(), Ground, rest);
  }

  lemma {:induction false} ReadWholeBlock(payload: Bytes, rest: Bytes)
    ensures Reads(Ground, [IAC] + ([SB] + (Escape(payload) + ([IAC, SE] + rest))), [], [], Ground, rest)
  {
    var inside := Escape(payload) + ([IAC, SE] + rest);
    ReadOne(Ground, IAC, [SB] + inside);
    ReadOne(Command, SB, inside);
    ReadBlock(payload, rest);
    ReadOn(Command, [SB] + inside, Sub, inside, [], [], Ground, rest);
    ReadOn(Ground, [IAC] + ([SB] + inside), Command, [SB] + inside, [], [], Ground, rest);
  }

  lemma {:induction false} TwoBytes(a: Byte, b: Byte, rest: Bytes)
    ensures [a, b] + rest == [a] + ([b] + rest)
  {
  }

  lemma {:induction false} ThreeBytes(a: Byte, b: Byte, c: Byte, rest: Bytes)
    ensures [a, b, c] + rest == [a] + ([b] + ([c] + rest))
  {
  }

  lemma {:induction false} BlockBytes(inside: Bytes, rest: Bytes)
    ensures [IAC, SB] + inside + [IAC, SE] + rest == [IAC] + ([SB] + (inside + ([IAC, SE] + rest)))
  {
    ConcatAssoc([IAC, SB] + inside, [IAC, SE], rest);
    ConcatAssoc([IAC, SB], inside, [IAC, SE] + rest);
    TwoBytes(IAC, SB, inside + ([IAC, SE] + rest));
  }

  lemma {:induction false} ReadToken(t: Token, rest: Bytes)
    requires t.Legal()
    ensures Reads(Ground, t.Wire() + rest, t.Carries(), t.Refusal(), Ground, rest)
  {
    match t {
      case Plain(b) =>
        ReadOne(Ground, b, rest);
      case Literal =>
        TwoBytes(IAC, IAC, rest);
        ReadLiteral(rest);
      case Bare(cmd) =>
        TwoBytes(IAC, cmd, rest);
        ReadBare(cmd, rest);
      case Ask(verb, opt) =>
        ThreeBytes(IAC, verb, opt, rest);
        ReadAsk(verb, opt, rest);
      case Block(payload) =>
        BlockBytes(Escape(payload), rest);
        ReadWholeBlock(payload, rest);
    }
  }

  /** The decoder reads every well-formed stream as its grammar says: the data of
      its data tokens, and one refusal for each DO and WILL, in order. */
  lemma {:induction false} ReadTokens(tokens: seq<Token>)
    requires forall i :: 0 <= i < |tokens| ==> tokens[i].Legal()
    ensures Data(Ground, Octets(Wire(tokens))) == Carries(tokens)
    ensures Replies(Ground, Octets(Wire(tokens))) == Refusals(tokens)
    ensures After(Ground, Octets(Wire(tokens))) == Ground
  {
    if tokens != [] {
      ReadToken(tokens[0], Wire(tokens[1..]));
      ReadTokens(tokens[1..]);
    }
  }

  /** The octets of a stream, its failures left out. */
  ghost function Sound(items: seq<Item>): seq<Item> {
    if items == [] then []
    else (if items[0].Octet? then [items[0]] else []) + Sound(items[1..])
  }

  /** No read fails inside a sequence. */
  ghost predicate BreaksBetween(st: State, items: seq<Item>)
    decreases |items|
  {
    items == [] ||
    match items[0]
    case Octet(b) => BreaksBetween(Next(st, b), items[1..])
    case Break(_) => st == Ground && BreaksBetween(Ground, items[1..])
  }

  /** Failed reads between sequences cost nothing. */
  lemma {:induction false} BreaksBetweenAreHarmless(st: State, items: seq<Item>)
    requires BreaksBetween(st, items)
    ensures Data(st, items) == Data(st, Sound(items))
    ensures Replies(st, items) == Replies(st, Sound(items))
    decreases |items|
  {
    if items != [] {
      match items[0] {
        case Octet(b) =>
          assert Sound(items)[1..] == Sound(items[1..]);
          BreaksBetweenAreHarmless(Next(st, b), items[1..]);
        case Break(_) =>
          assert Sound(items) == Sound(items[1..]);
          BreaksBetweenAreHarmless(Ground, items[1..]);
      }
    }
  }

  /** A failed read after `prefix` changes nothing, whatever follows. */
  ghost predicate Harmless(prefix: seq<Item>, e: Failure) {
    forall rest: seq<Item> :: SameReading(prefix + [Break(e)] + rest, prefix + rest)
  }

  ghost predicate SameReading(a: seq<Item>, b: seq<Item>) {
    Data(Ground, a) == Data(Ground, b) && Replies(Ground, a) == Replies(Ground, b)
  }

  /** A failed read is harmless if and only if the stream before it, whatever that is,
      ends between sequences. */
  lemma {:induction false} HarmlessIff(prefix: seq<Item>, e: Failure)
    ensures Harmless(prefix, e) <==> After(Ground, prefix) == Ground
  {
    if After(Ground, prefix) == Ground {
      forall rest: seq<Item> ensures SameReading(prefix + [Break(e)] + rest, prefix + rest) {
        ReadBroken(prefix, e, rest);
      }
    } else {
      var rest := [Octet(0)];
      ReadBroken(prefix, e, rest);
      OctetTells(After(Ground, prefix));
      assert !SameReading(prefix + [Break(e)] + rest, prefix + rest);
    }
  }

  /** So the failed reads of a stream are between sequences if and only if each of
      them is harmless where it stands. */
  lemma {:induction false} BreaksBetweenIff(items: seq<Item>)
    ensures BreaksBetween(Ground, items)
       <==> forall i :: 0 <= i < |items| && items[i].Break? ==> Harmless(items[..i], items[i].e)
  {
    BreaksAtGround(Ground, items);
    forall i | 0 <= i < |items| && items[i].Break?
      ensures Harmless(items[..i], items[i].e) <==> AtGround(Ground, items, i)
    {
      HarmlessIff(items[..i], items[i].e);
    }
  }

  ghost predicate AtGround(st: State, items: seq<Item>, i: nat)
    requires i < |items|
  {
    After(st, items[..i]) == Ground
  }

  lemma {:induction false} BreaksAtGround(st: State, items: seq<Item>)
    ensures BreaksBetween(st, items) <==> forall i :: 0 <= i < |items| && items[i].Break? ==> AtGround(st, items, i)
    decreases |items|
  {
    if items != [] {
      var next := if items[0].Octet? then Next(st, items[0].b) else Ground;
      var rest := items[1..];
      BreaksAtGround(next, rest);
      assert items[..0] == [];
      forall i | 0 < i < |items| ensures AtGround(st, items, i) <==> AtGround(next, rest, i - 1) {
        assert items[..i] == [items[0]] + rest[..i - 1] && items[..i][1..] == rest[..i - 1];
      }
      assert forall i :: 0 <= i < |rest| ==> rest[i] == items[i + 1] && (AtGround(next, rest, i) <==> AtGround(st, items, i + 1));
    }
  }

  /** What follows a failed read is read from Ground, and else from where the stream
      before it ends. */
  lemma {:induction false} ReadBroken(prefix: seq<Item>, e: Failure, rest: seq<Item>)
    ensures var st, broken, whole := After(Ground, prefix), prefix + [Break(e)] + rest, prefix + rest;
            && Data(Ground, broken) == Data(Ground, prefix) + Data(Ground, rest)
            && Replies(Ground, broken) == Replies(Ground, prefix) + Replies(Ground, rest)
            && Data(Ground, whole) == Data(Ground, prefix) + Data(st, rest)
            && Replies(Ground, whole) == Replies(Ground, prefix) + Replies(st, rest)
  {
    ConcatAssoc(prefix, [Break(e)], rest);
    DataConcat(Ground, prefix, [Break(e)] + rest);
    DataConcat(Ground, prefix, rest);
    assert ([Break(e)] + rest)[1..] == rest;
  }

  /** One octet tells Ground from any other state. */
  lemma {:induction false} OctetTells(st: State)
    requires st != Ground
    ensures Data(Ground, [Octet(0)]) == [0] && Data(st, [Octet(0)]) == []
  {
    assert [Octet(0)] + [] == [Octet(0)];
    Step(Ground, 0, []);
    Step(st, 0, []);
  }

  /** One inside a sequence does cost: a read that times out between IAC and
      WILL 1 turns the negotiation into data, and it is never refused. */
  lemma {:induction false} BreakInsideCorrupts(e: Failure)
    ensures var cut := [Octet(IAC), Break(e), Octet(WILL), Octet(1)];
            && Data(Ground, cut) == [WILL, 1] && Replies(Ground, cut) == []
            && Data(Ground, Sound(cut)) == [] && Replies(Ground, Sound(cut)) == [IAC, DONT, 1]
  {
    var tail := [Octet(WILL)] + ([Octet(1)] + []);
    var cut := [Octet(IAC)] + ([Break(e)] + tail);
    assert cut == [Octet(IAC), Break(e), Octet(WILL), Octet(1)];
    Step(Ground, 1, []);
    Step(Ground, WILL, [Octet(1)] + []);
    assert ([Break(e)] + tail)[1..] == tail;
    Step(Ground, IAC, [Break(e)] + tail);
    Step(Negotiation(WILL), 1, []);
    Step(Command, WILL, [Octet(1)] + []);
    Step(Ground, IAC, tail);
    SoundStep(Octet(1), []);
    SoundStep(Octet(WILL), [Octet(1)] + []);
    SoundStep(Break(e), tail);
    SoundStep(Octet(IAC), [Break(e)] + tail);
    assert Sound(cut) == [Octet(IAC)] + tail;
  }

  lemma {:induction false} SoundStep(item: Item, rest: seq<Item>)
    ensures Sound([item] + rest) == (if item.Octet? then [item] else []) + Sound(rest)
  {
    assert ([item] + rest)[1..] == rest;
  }
}
