/** The telnet transport's byte filter: `telnetConn` strips commands, negotiations
    and subnegotiation blocks from what it reads, refuses every option, and
    escapes what it writes. */
module TelnetFilter {
  import opened Prelude
  import opened TelnetStream

  function Given(datum: Option<Byte>): Bytes {
    if datum.Some? then [datum.value] else []
  }

  class TelnetConn {
    var stream: seq<Item>     // what is still to be consumed, in order
    var buffered: nat         // how many octets of it bufio has already read
    const cuts: nat -> nat    // how many octets each socket read brings
    var fetches: nat          // socket reads so far
    const refused: nat -> bool  // whether a write fails, by how many bytes went before it
    const partial: nat -> nat   // and how many bytes it reports as written then
    var sent: Bytes           // every byte handed to the socket for writing

    constructor (stream: seq<Item>, cuts: nat -> nat, refused: nat -> bool, partial: nat -> nat)
      ensures this.stream == stream && this.cuts == cuts && this.refused == refused && this.partial == partial
      ensures buffered == 0 && fetches == 0 && sent == [] && Valid()
    {
      this.stream, this.cuts, this.refused, this.partial := stream, cuts, refused, partial;
      buffered, fetches, sent := 0, 0, [];
    }

    ghost predicate Valid()
      reads this
    {
      buffered <= |stream| && forall i :: 0 <= i < buffered ==> stream[i].Octet?
    }

    /** The octets in bufio's buffer. */
    ghost function Buf(): seq<Item>
      requires Valid()
      reads this
    {
      stream[..buffered]
    }

    /** One read of the socket: at least one octet, at most those before the next
        failure; or that failure; or end of file. */
    method Fill() returns (err: Option<Failure>)
      requires Valid() && buffered == 0
      modifies this`stream, this`buffered, this`fetches
      ensures Valid() && fetches == old(fetches) + 1
      ensures err.None? ==> stream == old(stream) && buffered > 0
      ensures err.Some? ==> buffered == 0
      ensures err.Some? ==>
                || old(stream) == [Break(err.value)] + stream
                || (old(stream) == [] == stream && err.value == Eof)
    {
      var want := 1 + cuts(fetches);
      fetches := fetches + 1;
      if stream == [] {
        return Some(Eof);
      }
      if stream[0].Break? {
        err := Some(stream[0].e);
        stream := stream[1..];
        return;
      }
      while buffered < want && buffered < |stream| && stream[buffered].Octet?
        invariant Valid() && stream == old(stream) && fetches == old(fetches) + 1
        invariant buffered == 0 ==> want > 0 && stream != [] && stream[0].Octet?
      {
        buffered := buffered + 1;
      }
      err := None;
    }

    /** bufio's ReadByte: a socket read only when the buffer is empty. */
    method ReadByte() returns (r: Result<Byte, Failure>)
      requires Valid()
      modifies this`stream, this`buffered, this`fetches
      ensures Valid()
      ensures r.Ok? ==> old(stream) == [Octet(r.value)] + stream
      ensures r.Err? ==> buffered == 0
      ensures r.Err? ==>
                || old(stream) == [Break(r.error)] + stream
                || (old(stream) == [] == stream && r.error == Eof)
      ensures old(buffered) > 0 ==> r.Ok? && old(Buf()) == [Octet(r.value)] + Buf() && fetches == old(fetches)
      ensures old(buffered) == 0 ==> old(Buf()) == [] && fetches > old(fetches)
    {
      if buffered == 0 {
        var err := Fill();
        if err.Some? {
          return Err(err.value);
        }
      }
      r := Ok(stream[0].b);
      stream := stream[1..];
      buffered := buffered - 1;
    }

    /** Answers DO with WONT and WILL with DONT; other verbs need no reply. */
    method Refuse(cmd: Byte, opt: Byte) returns (err: Option<Failure>)
      requires cmd == DO || cmd == DONT || cmd == WILL || cmd == WONT
      modifies this`sent
      ensures sent == old(sent) + Answer(Negotiation(cmd), opt)
      ensures err.Some? ==> err.value == ReplyNotWritten && refused(|old(sent)|)
    {
      var reply: Byte;
      if cmd == DO {
        reply := WONT;
      } else if cmd == WILL {
        reply := DONT;
      } else {
        return None;
      }
      err := if refused(|sent|) then Some(ReplyNotWritten) else None;
      sent := sent + [IAC, reply, opt];
    }

    /** The octet after an IAC in a block: SE ends it. */
    method SkipCommand() returns (ended: bool, err: Option<Failure>)
      requires Valid()
      modifies this`stream, this`buffered, this`fetches
      ensures Valid()
      ensures err.Some? ==> ended
      ensures old(Data(SubCommand, stream)) == Data(if ended then Ground else Sub, stream)
      ensures old(Replies(SubCommand, stream)) == Replies(if ended then Ground else Sub, stream)
      ensures |stream| <= |old(stream)|
      ensures fetches >= old(fetches)
      ensures err.Some? ==> fetches > old(fetches)
      ensures fetches == old(fetches) ==> Follows(SubCommand, old(Buf()), if ended then Ground else Sub, Buf())
      ensures fetches > old(fetches) ==> Overruns(SubCommand, old(Buf()))
    {
      var b := ReadByte();
      if b.Err? {
        return true, Some(b.error);
      }
      Step(SubCommand, b.value, stream);
      Step(SubCommand, b.value, Buf());
      return b.value == SE, None;
    }

    /** One turn of SkipSubnegotiation's loop: an octet, or an IAC and the octet
        after it. Here and below, `Buf()` says what the socket was needed for:
        nothing, when the sequence ends in the buffer. */
    method SkipOctet() returns (ended: bool, err: Option<Failure>)
      requires Valid()
      modifies this`stream, this`buffered, this`fetches
      ensures Valid()
      ensures err.Some? ==> ended
      ensures old(Data(Sub, stream)) == Data(if ended then Ground else Sub, stream)
      ensures old(Replies(Sub, stream)) == Replies(if ended then Ground else Sub, stream)
      ensures |stream| <= |old(stream)| && (ended || |stream| < |old(stream)|)
      ensures fetches >= old(fetches)
      ensures err.Some? ==> fetches > old(fetches)
      ensures fetches == old(fetches) ==> Follows(Sub, old(Buf()), if ended then Ground else Sub, Buf())
      ensures fetches > old(fetches) ==> Overruns(Sub, old(Buf()))
    {
      var b := ReadByte();
      if b.Err? {
        return true, Some(b.error);
      }
      SubStep(b.value, stream);
      SubStep(b.value, Buf());
      if b.value != IAC {
        return false, None;
      }
      ended, err := SkipCommand();
    }

    /** Discards the rest of an IAC SB ... IAC SE block. */
    method SkipSubnegotiation() returns (err: Option<Failure>)
      requires Valid()
      modifies this`stream, this`buffered, this`fetches
      ensures Valid()
      ensures old(Data(Sub, stream)) == Data(Ground, stream)
      ensures old(Replies(Sub, stream)) == Replies(Ground, stream)
      ensures |stream| <= |old(stream)|
      ensures fetches >= old(fetches)
      ensures err.Some? ==> fetches > old(fetches)
      ensures fetches == old(fetches) ==> Follows(Sub, old(Buf()), Ground, Buf())
      ensures fetches > old(fetches) ==> Overruns(Sub, old(Buf()))
    {
      err := None;
      var ended := false;
      while !ended
        invariant Valid()
        invariant old(Data(Sub, stream)) == Data(if ended then Ground else Sub, stream)
        invariant old(Replies(Sub, stream)) == Replies(if ended then Ground else Sub, stream)
        invariant |stream| <= |old(stream)|
        invariant fetches >= old(fetches)
        invariant err.Some? ==> ended && fetches > old(fetches)
        invariant fetches == old(fetches) ==> Follows(Sub, old(Buf()), if ended then Ground else Sub, Buf())
        invariant fetches > old(fetches) ==> Overruns(Sub, old(Buf()))
        decreases !ended, |stream|
      {
        ended, err := SkipOctet();
      }
    }

    /** A negotiation's option octet, and the refusal it calls for. */
    method Negotiate(cmd: Byte) returns (err: Option<Failure>)
      requires Valid()
      requires cmd == DO || cmd == DONT || cmd == WILL || cmd == WONT
      modifies this
      ensures Valid()
      ensures old(Data(Negotiation(cmd), stream)) == Data(Ground, stream)
      ensures old(sent) + old(Replies(Negotiation(cmd), stream)) == sent + Replies(Ground, stream)
      ensures |stream| <= |old(stream)|
      ensures fetches >= old(fetches)
      ensures fetches == old(fetches) ==> Follows(Negotiation(cmd), old(Buf()), Ground, Buf())
      ensures fetches > old(fetches) ==> Overruns(Negotiation(cmd), old(Buf()))
      ensures err.Some? && (forall k :: !refused(k)) ==> fetches > old(fetches)
    {
      var opt := ReadByte();
      if opt.Err? {
        return Some(opt.error);
      }
      ConcatAssoc(sent, Answer(Negotiation(cmd), opt.value), Replies(Ground, stream));
      err := Refuse(cmd, opt.value);
    }

    /** Consumes one sequence whose IAC has been read: `literal` exactly for IAC IAC. */
    method HandleIAC() returns (literal: bool, err: Option<Failure>)
      requires Valid()
      modifies this
      ensures Valid()
      ensures literal ==> err.None?
      ensures old(Data(Command, stream)) == (if literal then [IAC] else []) + Data(Ground, stream)
      ensures old(sent) + old(Replies(Command, stream)) == sent + Replies(Ground, stream)
      ensures |stream| <= |old(stream)|
      ensures fetches >= old(fetches)
      ensures literal && fetches == old(fetches) ==> old(Buf()) == [Octet(IAC)] + Buf()
      ensures !literal && fetches == old(fetches) ==> Follows(Command, old(Buf()), Ground, Buf())
      ensures fetches > old(fetches) ==> Overruns(Command, old(Buf()))
      ensures err.Some? && (forall k :: !refused(k)) ==> fetches > old(fetches)
    {
      literal, err := false, None;
      var cmd := ReadByte();
      if cmd.Err? {
        return false, Some(cmd.error);
      }
      if cmd.value == IAC {
        return true, None;
      }
      if cmd.value == DO || cmd.value == DONT || cmd.value == WILL || cmd.value == WONT {
        err := Negotiate(cmd.value);
      } else if cmd.value == SB {
        err := SkipSubnegotiation();
      }
    }

    /** One turn of Read's loop: the next data byte, or a sequence without one. */
    method ReadDatum() returns (datum: Option<Byte>, err: Option<Failure>)
      requires Valid()
      modifies this
      ensures Valid()
      ensures datum.Some? ==> err.None?
      ensures old(Data(Ground, stream)) == Given(datum) + Data(Ground, stream)
      ensures old(sent) + old(Replies(Ground, stream)) == sent + Replies(Ground, stream)
      ensures |stream| <= |old(stream)|
      ensures |stream| < |old(stream)| || (stream == [] && err == Some(Eof))
      ensures fetches >= old(fetches)
      ensures fetches == old(fetches) ==>
                && old(After(Ground, Buf())) == After(Ground, Buf())
                && old(Data(Ground, Buf())) == Given(datum) + Data(Ground, Buf())
      ensures fetches > old(fetches) ==> old(Buf()) == [] || Overruns(Ground, old(Buf()))
      ensures err.Some? && (forall k :: !refused(k)) ==> fetches > old(fetches)
    {
      var r := ReadByte();
      if r.Err? {
        return None, Some(r.error);
      }
      if r.value != IAC {
        return Some(r.value), None;
      }
      var literal;
      literal, err := HandleIAC();
      datum := if literal then Some(IAC) else None;
    }

    /** One turn of Read's loop: at most one byte more in p. */
    method ReadInto(p: array<Byte>, at: nat) returns (n: nat, done: bool, err: Option<Failure>, ghost datum: Bytes)
      requires Valid() && at < p.Length
      modifies this, p
      ensures Valid()
      ensures n == at + |datum| <= p.Length && p[..n] == old(p[..at]) + datum
      ensures forall i :: n <= i < p.Length ==> p[i] == old(p[i])
      ensures old(Data(Ground, stream)) == datum + Data(Ground, stream)
      ensures old(sent) + old(Replies(Ground, stream)) == sent + Replies(Ground, stream)
      ensures |stream| <= |old(stream)|
      ensures |stream| < |old(stream)| || (stream == [] && err == Some(Eof))
      ensures fetches >= old(fetches)
      ensures fetches == old(fetches) ==>
                && old(After(Ground, Buf())) == After(Ground, Buf())
                && old(Data(Ground, Buf())) == datum + Data(Ground, Buf())
      ensures fetches > old(fetches) ==> old(Buf()) == [] || Overruns(Ground, old(Buf()))
      ensures done <==> err.Some? || (n > 0 && buffered == 0)
      ensures err.Some? && (forall k :: !refused(k)) ==> fetches > old(fetches)
    {
      var got;
      got, err := ReadDatum();
      datum := Given(got);
      n := at;
      if got.Some? {
        p[n] := got.value;
        n := n + 1;
      }
      // Having data, do not wait for more; having none, look on.
      done := err.Some? || (n > 0 && buffered == 0);
    }

    /** io.Reader's Read: data bytes only, at least one before returning, and no
        wait for more once there is one, unless the buffer stops inside a
        sequence. */
    method Read(p: array<Byte>) returns (n: nat, err: Option<Failure>)
      requires Valid()
      modifies this, p
      ensures Valid()
      ensures n <= p.Length && forall i :: n <= i < p.Length ==> p[i] == old(p[i])
      // Nothing is lost, duplicated or reordered.
      ensures old(Data(Ground, stream)) == p[..n] + Data(Ground, stream)
      ensures old(sent) + old(Replies(Ground, stream)) == sent + Replies(Ground, stream)
      // Progress: data, or an error, unless no room was offered.
      ensures n == 0 && err.None? <==> p.Length == 0
      ensures err.Some? ==> n == 0
      ensures |stream| <= |old(stream)|
      ensures p.Length > 0 ==> |stream| < |old(stream)| || (stream == [] && err == Some(Eof))
      // With data at hand, the socket is read exactly when that data does not
      // fill p and the buffer ends inside a sequence.
      ensures fetches >= old(fetches)
      ensures p.Length > 0 && Data(Ground, old(Buf())) != [] && (forall k :: !refused(k)) ==>
                (fetches > old(fetches) <==>
                 |Data(Ground, old(Buf()))| < p.Length && After(Ground, old(Buf())) != Ground)
    {
      n, err := 0, None;
      if p.Length == 0 {
        assert Data(Ground, stream) == p[..0] + Data(Ground, stream);
        return;
      }
      ghost var data: Bytes := [];
      ghost var owed, replies := Data(Ground, stream), sent + Replies(Ground, stream);
      ghost var held, end := Data(Ground, Buf()), After(Ground, Buf());
      var done := false;
      while n < p.Length && !done
        invariant Valid()
        invariant n <= p.Length && forall i :: n <= i < p.Length ==> p[i] == old(p[i])
        invariant p[..n] == data
        invariant owed == data + Data(Ground, stream)
        invariant replies == sent + Replies(Ground, stream)
        invariant |stream| < |old(stream)| || if done then stream == [] && err == Some(Eof) else n == 0 && stream == old(stream)
        invariant fetches >= old(fetches)
        invariant fetches == old(fetches) ==> held == data + Data(Ground, Buf()) && end == After(Ground, Buf())
        invariant fetches > old(fetches) ==> held == [] || (end != Ground && |held| < p.Length)
        invariant done <==> err.Some? || (n > 0 && buffered == 0)
        invariant err.Some? && (forall k :: !refused(k)) ==> fetches > old(fetches)
        decreases !done, |stream|
      {
        ghost var datum;
        n, done, err, datum := ReadInto(p, n);
        ConcatAssoc(data, datum, Data(Ground, stream));
        ConcatAssoc(data, datum, Data(Ground, Buf()));
        data := data + datum;
      }
      if n > 0 {
        err := None;
      }
    }

    /** The socket's Write: all of it, or an error and as many bytes as it says. */
    method Put(bytes: Bytes) returns (n: nat, err: Option<Failure>)
      modifies this`sent
      ensures sent == old(sent) + bytes
      ensures err.Some? <==> refused(|old(sent)|)
      ensures n == if err.Some? && partial(|old(sent)|) < |bytes| then partial(|old(sent)|) else |bytes|
    {
      n, err := |bytes|, None;
      if refused(|sent|) {
        err := Some(ReplyNotWritten);
        n := if partial(|sent|) < |bytes| then partial(|sent|) else |bytes|;
      }
      sent := sent + bytes;
    }

    /** io.Writer's Write: every 0xFF byte goes out doubled. The count reported is the
        caller's; a write that fails reports the socket's own, if nothing was doubled,
        and else none. */
    method Write(p: Bytes) returns (n: nat, err: Option<Failure>)
      modifies this`sent
      ensures sent == old(sent) + Escape(p)
      ensures err.Some? <==> refused(|old(sent)|)
      ensures err.None? ==> n == |p|
      ensures err.Some? ==> n == if IAC in p then 0 else if partial(|old(sent)|) < |p| then partial(|old(sent)|) else |p|
    {
      if IAC !in p {
        EscapeNothing(p);
        n, err := Put(p);
        return;
      }
      var escaped: Bytes := [];
      for i := 0 to |p|
        invariant escaped == Escape(p[..i]) && sent == old(sent)
      {
        escaped := escaped + [p[i]];
        if p[i] == IAC {
          escaped := escaped + [IAC];
        }
        EscapeConcat(p[..i], [p[i]]);
        assert [p[i]][1..] == [];
        SliceStep(p, i);
      }
      WholeSlice(p);
      var written;
      written, err := Put(escaped);
      n := if err.Some? then 0 else |p|;
    }
  }

  /** The text is at some place in the data. */
  ghost predicate Shows(data: Bytes, text: Bytes) {
    exists i :: 0 <= i <= |data| - |text| && ShowsAt(data, text, i)
  }

  ghost predicate ShowsAt(data: Bytes, text: Bytes, i: nat)
    requires i <= |data| - |text|
  {
    data[i..i + |text|] == text
  }

  lemma {:induction false} ContainsIsShowing(data: Bytes, text: Bytes)
    ensures Contains(data, text) <==> Shows(data, text)
  {
    ContainsMeaning(data, text);
    if i :| 0 <= i <= |data| && text <= data[i..] {
      assert data[i..][..|text|] == data[i..i + |text|];
      assert ShowsAt(data, text, i);
    }
    if i :| 0 <= i <= |data| - |text| && ShowsAt(data, text, i) {
      assert data[i..][..|text|] == data[i..i + |text|];
    }
  }

  /** Reads until the data seen contains `needle`, as the login does before it
      sends a name or a password. */
  method ReadUntil(conn: TelnetConn, needle: Bytes) returns (r: Result<Bytes, Failure>, ghost seen: Bytes)
    requires conn.Valid()
    modifies conn
    ensures conn.Valid()
    ensures old(Data(Ground, conn.stream)) == seen + Data(Ground, conn.stream)
    ensures conn.sent + Replies(Ground, conn.stream) == old(conn.sent) + old(Replies(Ground, conn.stream))
    ensures r.Ok? ==> r.value == seen && Shows(seen, needle)
    ensures r.Ok? ==> exists k :: 0 <= k < |seen| && |seen| - k <= 256 && (k == 0 || !Shows(seen[..k], needle))
    ensures r.Err? ==> seen == [] || !Shows(seen, needle)
  {
    var buf: Bytes := [];
    var chunk := new Byte[256];
    seen := [];
    ghost var owed, replies := Data(Ground, conn.stream), conn.sent + Replies(Ground, conn.stream);
    assert owed == buf + owed;
    while true
      invariant conn.Valid() && fresh(chunk) && chunk.Length == 256
      invariant owed == buf + Data(Ground, conn.stream)
      invariant replies == conn.sent + Replies(Ground, conn.stream)
      invariant buf == [] || !Shows(buf, needle)
      decreases |conn.stream|
    {
      var n, err := conn.Read(chunk);
      ghost var before := buf;
      ConcatAssoc(buf, chunk[..n], Data(Ground, conn.stream));
      buf := buf + chunk[..n];
      seen := buf;
      if n > 0 {
        ContainsIsShowing(buf, needle);
        if Contains(buf, needle) {
          assert buf[..|before|] == before;
          return Ok(buf), buf;
        }
      }
      if err.Some? {
        assert chunk[..0] == [] && before + [] == before;
        return Err(err.value), buf;
      }
    }
  }

  /** Reads to the end of the stream, through any failures, with whatever buffer
      sizes: all the data, and every refusal, however the octets arrived. */
  method Drain(conn: TelnetConn, sizes: nat -> nat) returns (data: Bytes)
    requires conn.Valid()
    requires forall k :: sizes(k) > 0
    modifies conn
    ensures data == old(Data(Ground, conn.stream))
    ensures conn.sent == old(conn.sent) + old(Replies(Ground, conn.stream))
  {
    data := [];
    var turn := 0;
    ghost var owed, replies := Data(Ground, conn.stream), conn.sent + Replies(Ground, conn.stream);
    assert owed == data + owed;
    while conn.stream != []
      invariant conn.Valid()
      invariant owed == data + Data(Ground, conn.stream)
      invariant replies == conn.sent + Replies(Ground, conn.stream)
      decreases |conn.stream|
    {
      var p := new Byte[sizes(turn)];
      turn := turn + 1;
      var n, err := conn.Read(p);
      ConcatAssoc(data, p[..n], Data(Ground, conn.stream));
      data := data + p[..n];
    }
  }

  /** Data at hand, and a read of the socket all the same: with the letter A and an IAC
      in the buffer, and room for two bytes, Read waits for the rest of the command. */
  method WaitsWithDataAtHand(conn: TelnetConn)
    requires conn.Valid() && conn.buffered == 2 && conn.Buf() == [Octet(65), Octet(IAC)]
    requires forall k :: !conn.refused(k)
    modifies conn
    ensures conn.fetches > old(conn.fetches)
  {
    var p := new Byte[2];
    assert [Octet(65), Octet(IAC)] == [Octet(65)] + ([Octet(IAC)] + []);
    Step(Ground, 65, [Octet(IAC)] + []);
    Step(Ground, IAC, []);
    assert Data(Ground, conn.Buf()) == [65] && After(Ground, conn.Buf()) == Command;
    var n, err := conn.Read(p);
  }
}
