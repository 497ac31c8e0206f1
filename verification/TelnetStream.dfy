/** What a telnet byte stream (RFC 854, RFC 855) means to an end that refuses
    every option: one state machine over its octets, and the escaping of data. */
module TelnetStream {
  import opened Prelude

  const IAC: Byte := 255
  const DONT: Byte := 254
  const DO: Byte := 253
  const WONT: Byte := 252
  const WILL: Byte := 251
  const SB: Byte := 250
  const SE: Byte := 240

  datatype Failure = Eof | Socket(code: nat) | ReplyNotWritten

  datatype State =
    | Ground
    | Command
    | Negotiation(verb: Byte)
    | Sub
    | SubCommand

  function Next(st: State, b: Byte): State {
    match st
    case Ground => if b == IAC then Command else Ground
    case Command =>
      if b == DO || b == DONT || b == WILL || b == WONT then Negotiation(b)
      else if b == SB then Sub
      else Ground
    case Negotiation(_) => Ground
    case Sub => if b == IAC then SubCommand else Sub
    case SubCommand => if b == SE then Ground else Sub
  }

  /** The data an octet completes: itself, or the 0xFF that IAC IAC stands for. */
  function Emit(st: State, b: Byte): Bytes {
    if st == Ground && b != IAC then [b]
    else if st == Command && b == IAC then [IAC]
    else []
  }

  /** The refusal an octet completes: WONT for DO, DONT for WILL. */
  function Answer(st: State, b: Byte): Bytes {
    match st
    case Negotiation(verb) =>
      if verb == DO then [IAC, WONT, b]
      else if verb == WILL then [IAC, DONT, b]
      else []
    case _ => []
  }

  /** What the socket delivers, one octet or one failed read at a time. */
  datatype Item = Octet(b: Byte) | Break(e: Failure)

  /** The decoder's state after some of the stream. A failed read makes the filter
      forget the sequence it was in the middle of, so it goes on from Ground. */
  ghost function After(st: State, items: seq<Item>): State
    decreases |items|
  {
    if items == [] then st
    else match items[0]
      case Octet(b) => After(Next(st, b), items[1..])
      case Break(_) => After(Ground, items[1..])
  }

  /** The data of a stream. */
  ghost function Data(st: State, items: seq<Item>): Bytes
    decreases |items|
  {
    if items == [] then []
    else match items[0]
      case Octet(b) => Emit(st, b) + Data(Next(st, b), items[1..])
      case Break(_) => Data(Ground, items[1..])
  }

  /** The option refusals a stream provokes, in order. */
  ghost function Replies(st: State, items: seq<Item>): Bytes
    decreases |items|
  {
    if items == [] then []
    else match items[0]
      case Octet(b) => Answer(st, b) + Replies(Next(st, b), items[1..])
      case Break(_) => Replies(Ground, items[1..])
  }

  /** One octet more. */
  lemma {:induction false} Step(st: State, b: Byte, rest: seq<Item>)
    ensures After(st, [Octet(b)] + rest) == After(Next(st, b), rest)
    ensures Data(st, [Octet(b)] + rest) == Emit(st, b) + Data(Next(st, b), rest)
    ensures Replies(st, [Octet(b)] + rest) == Answer(st, b) + Replies(Next(st, b), rest)
  {
    assert ([Octet(b)] + rest)[1..] == rest;
  }

  /** One octet more of a block. */
  lemma {:induction false} SubStep(b: Byte, rest: seq<Item>)
    ensures var st := if b == IAC then SubCommand else Sub;
            && After(Sub, [Octet(b)] + rest) == After(st, rest)
            && Data(Sub, [Octet(b)] + rest) == Data(st, rest)
            && Replies(Sub, [Octet(b)] + rest) == Replies(st, rest)
  {
    Step(Sub, b, rest);
  }

  /** One failed read more. */
  lemma {:induction false} StepBreak(st: State, e: Failure, rest: seq<Item>)
    ensures After(st, [Break(e)] + rest) == After(Ground, rest)
    ensures Data(st, [Break(e)] + rest) == Data(Ground, rest)
    ensures Replies(st, [Break(e)] + rest) == Replies(Ground, rest)
  {
    assert ([Break(e)] + rest)[1..] == rest;
  }

  lemma {:induction false} OctetConcat(st: State, x: Byte, rest: seq<Item>, b: seq<Item>)
    ensures After(st, [Octet(x)] + rest + b) == After(After(st, [Octet(x)] + rest), b)
    ensures Data(st, [Octet(x)] + rest + b) == Data(st, [Octet(x)] + rest) + Data(After(st, [Octet(x)] + rest), b)
    ensures Replies(st, [Octet(x)] + rest + b) == Replies(st, [Octet(x)] + rest) + Replies(After(st, [Octet(x)] + rest), b)
    decreases |rest| + 1, 0
  {
    var next := Next(st, x);
    DataConcat(next, rest, b);
    ConcatAssoc([Octet(x)], rest, b);
    Step(st, x, rest);
    Step(st, x, rest + b);
    ConcatAssoc(Emit(st, x), Data(next, rest), Data(After(next, rest), b));
    ConcatAssoc(Answer(st, x), Replies(next, rest), Replies(After(next, rest), b));
  }

  lemma {:induction false} DataConcat(st: State, a: seq<Item>, b: seq<Item>)
    ensures After(st, a + b) == After(After(st, a), b)
    ensures Data(st, a + b) == Data(st, a) + Data(After(st, a), b)
    ensures Replies(st, a + b) == Replies(st, a) + Replies(After(st, a), b)
    decreases |a|, 1
  {
    if a == [] {
      assert a + b == b;
    } else {
      var rest := a[1..];
      assert a == [a[0]] + rest;
      match a[0] {
        case Octet(x) => OctetConcat(st, x, rest, b);
        case Break(e) =>
          DataConcat(Ground, rest, b);
          ConcatAssoc([Break(e)], rest, b);
          StepBreak(st, e, rest);
          StepBreak(st, e, rest + b);
      }
    }
  }

  /** Decoding `was` from one state comes to decoding `left` from another: what
      lies between them carried no data. */
  ghost predicate Follows(from: State, was: seq<Item>, st: State, left: seq<Item>) {
    Data(from, was) == Data(st, left) && After(from, was) == After(st, left)
  }

  /** `was`, read from state `from`, ends before the sequence it is in does. */
  ghost predicate Overruns(from: State, was: seq<Item>) {
    After(from, was) != Ground && Data(from, was) == []
  }

  // ------------------------------------------------------------------
  // Escaping
  // ------------------------------------------------------------------

  function Escape(p: Bytes): Bytes
    decreases |p|
  {
    if p == [] then []
    else (if p[0] == IAC then [IAC, IAC] else [p[0]]) + Escape(p[1..])
  }

  lemma {:induction false} EscapeConcat(a: Bytes, b: Bytes)
    ensures Escape(a + b) == Escape(a) + Escape(b)
    decreases |a|
  {
    if a == [] {
      assert a + b == b;
    } else {
      assert (a + b)[0] == a[0] && (a + b)[1..] == a[1..] + b;
      EscapeConcat(a[1..], b);
    }
  }

  lemma {:induction false} EscapeNothing(p: Bytes)
    requires IAC !in p
    ensures Escape(p) == p
    decreases |p|
  {
    if p != [] {
      EscapeNothing(p[1..]);
      assert p == [p[0]] + p[1..];
    }
  }
}
