/** Both ends of the CLI shell protocol: ShellDriver, the client (fastpath/session.go),
    and cliListenerLoop, the server (virtual/cli_socket.go), over a byte pipe that
    cuts the server's text wherever it likes. */
module ShellSession {
  import opened Prelude
  import opened ShellText

  const MAX_READS: nat := 10000
  const RECV_CHUNK: nat := 4096

  // ------------------------------------------------------------------
  // The server
  // ------------------------------------------------------------------

  datatype Answer<+S> = Answer(state: S, output: string)

  /** The face behind the listener: what a command does, and the prompt of a state. */
  datatype Face<!S> = Face(run: (S, string) -> Answer<S>, prompt: S -> string)

  /** The face's prompts are prompts, on one line. */
  ghost predicate Prompts<S(!new)>(f: Face<S>) {
    forall s: S {:trigger f.prompt(s)} :: OneLine(f.prompt(s)) && PromptAtEnd(f.prompt(s))
  }

  /** strings.TrimRight(raw, "\r\n") */
  function TrimBreak(raw: string): string {
    if raw != "" && (raw[|raw| - 1] == '\n' || raw[|raw| - 1] == '\r') then TrimBreak(raw[..|raw| - 1]) else raw
  }

  /** The length of the first line, its break included; 0 if no line is complete. */
  function LineEnd(s: string): (n: nat)
    ensures n <= |s|
  {
    if s == "" then 0
    else if s[0] == '\n' then 1
    else if LineEnd(s[1..]) == 0 then 0
    else 1 + LineEnd(s[1..])
  }

  datatype Served<+S> = Served(state: S, unread: string, written: string)

  /** All the complete lines of the input, answered in turn. */
  function ServeAll<S>(f: Face<S>, s: S, input: string): Served<S>
    decreases |input|
  {
    var n := LineEnd(input);
    if n == 0 then Served(s, input, "")
    else
      var command := TrimBreak(input[..n]);
      var a := f.run(s, command);
      var rest := ServeAll(f, a.state, input[n..]);
      Served(rest.state, rest.unread, Response(command, a.output, f.prompt(a.state)) + rest.written)
  }

  /** How much one read takes of what is pending: at least one byte, if there is one,
      and at most a chunk. */
  function ReadSize(cut: nat, available: nat): (n: nat)
    ensures n <= available && n <= 4096
    ensures available > 0 ==> n > 0
  {
    var most := if available < RECV_CHUNK then available else RECV_CHUNK;
    if cut > most then most else if cut == 0 && most > 0 then 1 else cut
  }

  /** How many reads it takes to drain the pipe. */
  function Chunks(available: nat, cuts: nat -> nat, readCount: nat): (n: nat)
    ensures available > 0 ==> n > 0
    ensures n <= available
  {
    if available == 0 then 0 else 1 + Chunks(available - ReadSize(cuts(readCount), available), cuts, readCount + 1)
  }

  /** The connection, with the listener on the other side. */
  class Pipe<S(!new)> {
    const face: Face<S>
    const cuts: nat -> nat
    var state: S
    var unread: string
    var pending: string
    var readCount: nat

    /** A client connects: the listener's first act is to write a prompt. */
    constructor (face: Face<S>, cuts: nat -> nat, state: S)
      ensures this.face == face && this.cuts == cuts && this.state == state
      ensures unread == "" && pending == face.prompt(state) && readCount == 0
    {
      this.face := face;
      this.cuts := cuts;
      this.state := state;
      unread := "";
      pending := face.prompt(state);
      readCount := 0;
    }

    /** The client's bytes arrive, and the listener serves every line they complete. */
    method Write(bytes: string)
      modifies this`state, this`unread, this`pending
      ensures var served := ServeAll(face, old(state), old(unread) + bytes);
              state == served.state && unread == served.unread && pending == old(pending) + served.written
    {
      unread := unread + bytes;
      Listen();
    }

    /** cliListenerLoop: read a line, echo it, run it, write the output if there is
        any, write the next prompt. */
    method Listen()
      modifies this`state, this`unread, this`pending
      ensures var served := ServeAll(face, old(state), old(unread));
              state == served.state && unread == served.unread && pending == old(pending) + served.written
    {
      ghost var all := ServeAll(face, state, unread);
      ghost var before := pending;
      while LineEnd(unread) > 0
        invariant ServeAll(face, state, unread).state == all.state
        invariant ServeAll(face, state, unread).unread == all.unread
        invariant before + all.written == pending + ServeAll(face, state, unread).written
        decreases |unread|
      {
        var n := LineEnd(unread);
        ghost var rest := ServeAll(face, state, unread);
        var command := TrimBreak(unread[..n]);
        var a := face.run(state, command);
        var written := command + "\r\n";
        if a.output != "" {
          written := written + (Crlf(a.output) + "\r\n");
        } else {
          written := written + "";
        }
        written := written + face.prompt(a.state);
        ConcatAssoc(pending, written, ServeAll(face, a.state, unread[n..]).written);
        state, unread, pending := a.state, unread[n..], pending + written;
      }
    }

    /** The client closes: a last line without a break is served too. */
    method Close()
      requires LineEnd(unread) == 0
      modifies this`state, this`unread, this`pending
      ensures unread == ""
      ensures old(unread) == "" ==> state == old(state) && pending == old(pending)
      ensures old(unread) != "" ==>
                var command := TrimBreak(old(unread));
                var a := face.run(old(state), command);
                state == a.state && pending == old(pending) + Response(command, a.output, face.prompt(a.state))
    {
      if unread == "" {
        return;
      }
      var command := TrimBreak(unread);
      var a := face.run(state, command);
      state, unread, pending := a.state, "", pending + Response(command, a.output, face.prompt(a.state));
    }

    /** Some of what is pending; nothing if nothing is. */
    method Read() returns (data: string)
      modifies this`pending, this`readCount
      ensures old(pending) == data + pending && |data| == ReadSize(cuts(old(readCount)), |old(pending)|)
      ensures readCount == old(readCount) + 1
    {
      var n := ReadSize(cuts(readCount), |pending|);
      data, pending := pending[..n], pending[n..];
      readCount := readCount + 1;
    }
  }

  // ------------------------------------------------------------------
  // The client
  // ------------------------------------------------------------------

  /** Where reading stops. */
  predicate Stops(text: string, allowPassword: bool) {
    PromptAtEnd(text) || (allowPassword && PasswordAtEnd(text))
  }

  /** A match of the prompt's expression, or of the password's where that is expected. */
  lemma {:induction false} StopsMeaning(text: string, allowPassword: bool)
    ensures Stops(text, allowPassword) <==> MatchesPrompt(text) || (allowPassword && exists i: nat :: PasswordAt(text, i))
  {
    PromptMeaning(text);
    PasswordMeaning(text);
  }

  function Stop(allowPassword: bool): string -> bool {
    s => Stops(s, allowPassword)
  }

  /** Only the whole text is a place to stop. */
  ghost predicate StopsLast(text: string, stop: string -> bool) {
    text != "" && stop(text) && forall n :: 0 < n < |text| ==> !stop(text[..n])
  }

  /** Output as the client reports it. */
  function Seen(output: string): string {
    TrimBreaks(CrToLf(output))
  }

  datatype Config = Config(enableCmd: string, pagingOffCmd: string, enablePassword: string)

  class Driver<S(!new)> {
    const pipe: Pipe<S>
    const config: Config

    constructor (pipe: Pipe<S>, config: Config)
      ensures this.pipe == pipe && this.config == config
    {
      this.pipe := pipe;
      this.config := config;
    }

    /** readUntil: chunks are gathered until the text ends in a prompt, or, where it is
        expected, a password prompt. */
    method ReadUntil(allowPassword: bool) returns (r: Option<string>)
      modifies pipe`pending, pipe`readCount
      ensures r.Some? ==> Stops(r.value, allowPassword) && old(pipe.pending) == r.value + pipe.pending
      ensures StopsLast(old(pipe.pending), Stop(allowPassword)) ==>
                Drained(old(pipe.pending), Chunks(|old(pipe.pending)|, pipe.cuts, old(pipe.readCount)), old(pipe.readCount), r)
    {
      r := Gather(Stop(allowPassword));
    }

    /** A text read whole, if it did not take too many reads. */
    ghost predicate Drained(text: string, chunks: nat, before: nat, r: Option<string>)
      reads pipe
    {
      if chunks <= 10000 then r == Some(text) && pipe.pending == "" && pipe.readCount == before + chunks
      else r == None
    }

    /** One read, to go behind what was read before it. */
    method Append(buf: string, ghost text: string, ghost stop: string -> bool) returns (data: string)
      requires text == buf + pipe.pending
      modifies pipe`pending, pipe`readCount
      ensures text == buf + data + pipe.pending && pipe.readCount == old(pipe.readCount) + 1
      ensures data == "" <==> old(pipe.pending) == ""
      ensures data != "" ==> Chunks(|old(pipe.pending)|, pipe.cuts, old(pipe.readCount))
                             == 1 + Chunks(|pipe.pending|, pipe.cuts, pipe.readCount)
      ensures StopsLast(text, stop) && buf + data != "" ==> (stop(buf + data) <==> pipe.pending == "")
      ensures pipe.pending == "" ==> buf + data == text
    {
      data := pipe.Read();
      ConcatAssoc(buf, data, pipe.pending);
      OnlyAtEnd(text, buf + data, pipe.pending, stop);
    }

    method Gather(stop: string -> bool) returns (r: Option<string>)
      modifies pipe`pending, pipe`readCount
      ensures r.Some? ==> stop(r.value) && old(pipe.pending) == r.value + pipe.pending
      ensures StopsLast(old(pipe.pending), stop) ==>
                Drained(old(pipe.pending), Chunks(|old(pipe.pending)|, pipe.cuts, old(pipe.readCount)), old(pipe.readCount), r)
    {
      var buf := "";
      ghost var text := pipe.pending;
      ghost var chunks := Chunks(|text|, pipe.cuts, pipe.readCount);
      for i := 0 to MAX_READS
        invariant text == buf + pipe.pending
        invariant pipe.readCount == old(pipe.readCount) + i
        invariant Chunks(|pipe.pending|, pipe.cuts, pipe.readCount) + i == chunks
        invariant StopsLast(text, stop) ==> pipe.pending != ""
      {
        var data := Append(buf, text, stop);
        buf := buf + data;
        if stop(buf) {
          return Some(buf);
        }
        if data == "" {
          return None;
        }
      }
      r := None;
    }

    /** writeLine. */
    method WriteLine(text: string)
      modifies pipe`state, pipe`unread, pipe`pending
      ensures old(pipe.unread) == "" ==>
                pipe.unread == "" && pipe.state == ServeAll(pipe.face, old(pipe.state), text + "\r\n").state
      ensures old(pipe.unread) == "" && OneLine(text) ==>
                var a := pipe.face.run(old(pipe.state), text);
                pipe.state == a.state && pipe.unread == ""
                && pipe.pending == old(pipe.pending) + Response(text, a.output, pipe.face.prompt(a.state))
    {
      AllServed(pipe.face, pipe.state, text + "\r\n");
      if OneLine(text) {
        ServeLine(pipe.face, pipe.state, text);
      }
      assert "" + (text + "\r\n") == text + "\r\n";
      pipe.Write(text + "\r\n");
    }

    /** Nothing is in flight, either way. */
    ghost predicate Idle()
      reads pipe
    {
      pipe.pending == "" && pipe.unread == ""
    }

    /** A line out, and text back up to a place to stop. A line that is several to the
        listener is served as several, whatever is read of the answers. */
    method Exchange(line: string, allowPassword: bool) returns (r: Option<string>)
      modifies pipe`state, pipe`unread, pipe`pending, pipe`readCount
      ensures old(pipe.unread) == "" ==>
                pipe.unread == "" && pipe.state == ServeAll(pipe.face, old(pipe.state), line + "\r\n").state
      ensures var a := pipe.face.run(old(pipe.state), line);
              var text := Response(line, a.output, pipe.face.prompt(a.state));
              old(Idle()) && OneLine(line) && StopsLast(text, Stop(allowPassword)) ==>
                pipe.state == a.state && pipe.unread == ""
                && Drained(text, Chunks(|text|, pipe.cuts, old(pipe.readCount)), old(pipe.readCount), r)
    {
      ghost var a := pipe.face.run(pipe.state, line);
      ghost var text := Response(line, a.output, pipe.face.prompt(a.state));
      assert "" + text == text;
      WriteLine(line);
      r := ReadUntil(allowPassword);
    }

    /** Run: a command's own output and nothing else, and nothing left in the pipe,
        however the response is cut up, as long as nothing in it could be taken for its
        end and it does not take too many reads. */
    method Run(command: string) returns (r: Option<string>)
      modifies pipe`state, pipe`unread, pipe`pending, pipe`readCount
      ensures old(pipe.unread) == "" ==>
                pipe.unread == "" && pipe.state == ServeAll(pipe.face, old(pipe.state), command + "\r\n").state
      ensures var a := pipe.face.run(old(pipe.state), command);
              var text := Response(command, a.output, pipe.face.prompt(a.state));
              var chunks := Chunks(|text|, pipe.cuts, old(pipe.readCount));
              old(Idle()) && Prompts(pipe.face) && Sendable(command) && Quiet(text) ==>
                && pipe.state == a.state && pipe.unread == ""
                && (if chunks <= MAX_READS
                    then r == Some(Seen(a.output)) && Idle() && pipe.readCount == old(pipe.readCount) + chunks
                    else r == None)
    {
      ghost var a := pipe.face.run(pipe.state, command);
      ghost var text := Response(command, a.output, pipe.face.prompt(a.state));
      if Prompts(pipe.face) && Sendable(command) && Quiet(text) {
        QuietStops(command, a.output, pipe.face.prompt(a.state));
        CleanResponse(command, a.output, pipe.face.prompt(a.state));
      }
      var raw := Exchange(command, false);
      if raw.None? {
        return None;
      }
      var clean := CleanOutput(raw.value, command);
      r := Some(clean);
    }

    /** Setup: the banner, the enable command, the password if and only if the answer
        to that ends in asking for one, and paging off. */
    method Setup() returns (ok: bool)
      modifies pipe`state, pipe`unread, pipe`pending, pipe`readCount
      ensures old(Connected()) && SetupGoes(pipe.face, old(pipe.state), config) ==>
                ok && Idle() && pipe.state == AfterSetup(pipe.face, old(pipe.state), config)
    {
      var banner := ReadUntil(false);
      if banner.None? {
        return false;
      }
      var out := Exchange(config.enableCmd, true);
      if out.None? {
        return false;
      }
      NotBoth(out.value);
      if PasswordAtEnd(out.value) {
        var more := Exchange(config.enablePassword, false);
        if more.None? {
          return false;
        }
      }
      var last := Exchange(config.pagingOffCmd, false);
      ok := last.Some?;
    }

    /** Only the first prompt has been written. */
    ghost predicate Connected()
      reads pipe
    {
      pipe.unread == "" && pipe.pending == pipe.face.prompt(pipe.state)
    }
  }

  /** What the listener says to a line. */
  function Said<S>(f: Face<S>, s: S, line: string): string {
    var a := f.run(s, line);
    Response(line, a.output, f.prompt(a.state))
  }

  /** The state after the enable command, and after the password if one is asked for. */
  function AfterEnable<S>(f: Face<S>, s: S, config: Config): S {
    var a := f.run(s, config.enableCmd).state;
    if PasswordAtEnd(Said(f, s, config.enableCmd)) then f.run(a, config.enablePassword).state else a
  }

  function AfterSetup<S>(f: Face<S>, s: S, config: Config): S {
    f.run(AfterEnable(f, s, config), config.pagingOffCmd).state
  }

  /** What is said to a line is a place to stop at its end only, and is short enough for
      any cutting. */
  ghost predicate Goes<S(!new)>(f: Face<S>, s: S, line: string, allowPassword: bool) {
    OneLine(line) && StopsLast(Said(f, s, line), Stop(allowPassword)) && |Said(f, s, line)| <= MAX_READS
  }

  /** Every exchange of a setup is one that goes. */
  ghost predicate SetupGoes<S(!new)>(f: Face<S>, s: S, config: Config) {
    && StopsLast(f.prompt(s), Stop(false)) && |f.prompt(s)| <= MAX_READS
    && Goes(f, s, config.enableCmd, true)
    && (PasswordAtEnd(Said(f, s, config.enableCmd)) ==> Goes(f, f.run(s, config.enableCmd).state, config.enablePassword, false))
    && Goes(f, AfterEnable(f, s, config), config.pagingOffCmd, false)
  }

  /** The prompt and the two responses of a setup without a password, each quiet, also
      to one who waits for a password. */
  ghost predicate SetupQuiet<S(!new)>(f: Face<S>, s: S, config: Config) {
    var a := f.run(s, config.enableCmd).state;
    var enabled, unpaged := Said(f, s, config.enableCmd), Said(f, a, config.pagingOffCmd);
    && OneLine(config.enableCmd) && OneLine(config.pagingOffCmd)
    && Quiet(f.prompt(s)) && Quiet(enabled) && PasswordFree(enabled) && Quiet(unpaged)
    && |f.prompt(s)| <= MAX_READS && |enabled| <= MAX_READS && |unpaged| <= MAX_READS
  }

  ghost predicate PasswordFree(s: string) {
    forall n :: 0 < n < |s| ==> !PasswordAtEnd(s[..n])
  }

  /** A setup whose texts are quiet goes, and asks for no password. */
  lemma {:induction false} QuietSetup<S(!new)>(f: Face<S>, s: S, config: Config)
    requires Prompts(f) && SetupQuiet(f, s, config)
    ensures SetupGoes(f, s, config) && !PasswordAtEnd(Said(f, s, config.enableCmd))
  {
    var a := f.run(s, config.enableCmd);
    var b := f.run(a.state, config.pagingOffCmd);
    QuietNoPassword(config.enableCmd, a.output, f.prompt(a.state));
    NotBoth(Said(f, s, config.enableCmd));
    QuietStops(config.pagingOffCmd, b.output, f.prompt(b.state));
  }

  lemma {:induction false} QuietNoPassword(command: string, output: string, prompt: string)
    requires PromptAtEnd(prompt) && Quiet(Response(command, output, prompt)) && PasswordFree(Response(command, output, prompt))
    ensures StopsLast(Response(command, output, prompt), Stop(true))
    ensures PromptAtEnd(Response(command, output, prompt))
  {
    var head := command + "\r\n" + if output == "" then "" else Crlf(output) + "\r\n";
    PromptWithMore(head, prompt);
  }

  /** A switch that asks for the password: the answer to the enable command ends in
      asking for it, and nothing before that end could be taken for one. */
  ghost predicate SetupAsks<S(!new)>(f: Face<S>, s: S, config: Config) {
    var a := f.run(s, config.enableCmd).state;
    var b := f.run(a, config.enablePassword).state;
    var asked, enabled, unpaged := Said(f, s, config.enableCmd), Said(f, a, config.enablePassword), Said(f, b, config.pagingOffCmd);
    && OneLine(config.enableCmd) && OneLine(config.enablePassword) && OneLine(config.pagingOffCmd)
    && PromptAtEnd(f.prompt(s)) && PasswordAtEnd(f.prompt(a))
    && PromptAtEnd(f.prompt(b)) && PromptAtEnd(f.prompt(f.run(b, config.pagingOffCmd).state))
    && Quiet(f.prompt(s)) && Quiet(asked) && PasswordFree(asked) && Quiet(enabled) && Quiet(unpaged)
    && |f.prompt(s)| <= MAX_READS && |asked| <= MAX_READS && |enabled| <= MAX_READS && |unpaged| <= MAX_READS
  }

  /** Its setup goes too, with the password given where it is asked for. */
  lemma {:induction false} AskingSetup<S(!new)>(f: Face<S>, s: S, config: Config)
    requires SetupAsks(f, s, config)
    ensures SetupGoes(f, s, config) && PasswordAtEnd(Said(f, s, config.enableCmd))
    ensures AfterSetup(f, s, config)
         == f.run(f.run(f.run(s, config.enableCmd).state, config.enablePassword).state, config.pagingOffCmd).state
  {
    var a := f.run(s, config.enableCmd);
    var b := f.run(a.state, config.enablePassword);
    var c := f.run(b.state, config.pagingOffCmd);
    PasswordStops(config.enableCmd, a.output, f.prompt(a.state));
    QuietStops(config.enablePassword, b.output, f.prompt(b.state));
    QuietStops(config.pagingOffCmd, c.output, f.prompt(c.state));
  }

  lemma {:induction false} PasswordStops(command: string, output: string, prompt: string)
    requires PasswordAtEnd(prompt) && Quiet(Response(command, output, prompt)) && PasswordFree(Response(command, output, prompt))
    ensures StopsLast(Response(command, output, prompt), Stop(true))
    ensures PasswordAtEnd(Response(command, output, prompt))
  {
    var head := command + "\r\n" + if output == "" then "" else Crlf(output) + "\r\n";
    PasswordWithMore(head, prompt);
  }

  // ------------------------------------------------------------------
  // Whole sessions
  // ------------------------------------------------------------------

  /** What the client should see of some commands in turn: the output of each, its
      line breaks plain and those around it trimmed. */
  function Expected<S>(f: Face<S>, s: S, commands: seq<string>): seq<Option<string>>
    decreases |commands|
  {
    if commands == [] then []
    else
      var a := f.run(s, commands[0]);
      [Some(Seen(a.output))] + Expected(f, a.state, commands[1..])
  }

  function StateAfter<S>(f: Face<S>, s: S, commands: seq<string>): S
    decreases |commands|
  {
    if commands == [] then s else StateAfter(f, f.run(s, commands[0]).state, commands[1..])
  }

  /** Every command can be sent, every response is quiet, and none takes too many
      reads. */
  ghost predicate Smooth<S(!new)>(f: Face<S>, cuts: nat -> nat, s: S, readCount: nat, commands: seq<string>)
    decreases |commands|
  {
    commands != [] ==>
      var a := f.run(s, commands[0]);
      var text := Response(commands[0], a.output, f.prompt(a.state));
      var chunks := Chunks(|text|, cuts, readCount);
      && Sendable(commands[0]) && Quiet(text) && chunks <= MAX_READS
      && Smooth(f, cuts, a.state, readCount + chunks, commands[1..])
  }

  /** One command more of a smooth run. */
  lemma {:induction false} NextCommand<S(!new)>(f: Face<S>, cuts: nat -> nat, s: S, readCount: nat,
                                                commands: seq<string>, n: nat)
    requires n < |commands| && Smooth(f, cuts, s, readCount, commands[n..])
    ensures var a := f.run(s, commands[n]);
            var text := Said(f, s, commands[n]);
            && Sendable(commands[n]) && Quiet(text) && Chunks(|text|, cuts, readCount) <= MAX_READS
            && Smooth(f, cuts, a.state, readCount + Chunks(|text|, cuts, readCount), commands[n + 1..])
            && StateAfter(f, s, commands[n..]) == StateAfter(f, a.state, commands[n + 1..])
            && Expected(f, s, commands[n..]) == [Some(Seen(a.output))] + Expected(f, a.state, commands[n + 1..])
  {
    assert commands[n..][1..] == commands[n + 1..];
  }

  /** The next command of a smooth run, and its own output. */
  method RunNext<S(!new)>(d: Driver<S>, commands: seq<string>, n: nat) returns (out: Option<string>)
    requires n < |commands| && d.Idle() && Prompts(d.pipe.face)
    requires Smooth(d.pipe.face, d.pipe.cuts, d.pipe.state, d.pipe.readCount, commands[n..])
    modifies d.pipe
    ensures d.Idle() && Smooth(d.pipe.face, d.pipe.cuts, d.pipe.state, d.pipe.readCount, commands[n + 1..])
    ensures StateAfter(d.pipe.face, old(d.pipe.state), commands[n..]) == StateAfter(d.pipe.face, d.pipe.state, commands[n + 1..])
    ensures Expected(d.pipe.face, old(d.pipe.state), commands[n..])
         == [out] + Expected(d.pipe.face, d.pipe.state, commands[n + 1..])
  {
    NextCommand(d.pipe.face, d.pipe.cuts, d.pipe.state, d.pipe.readCount, commands, n);
    out := d.Run(commands[n]);
  }

  /** Any sequence of commands: each one is answered with its own output, and the two
      ends stay in step. */
  method RunAll<S(!new)>(d: Driver<S>, commands: seq<string>) returns (r: seq<Option<string>>)
    requires d.Idle() && Prompts(d.pipe.face)
    requires Smooth(d.pipe.face, d.pipe.cuts, d.pipe.state, d.pipe.readCount, commands)
    modifies d.pipe
    ensures d.Idle() && d.pipe.state == StateAfter(d.pipe.face, old(d.pipe.state), commands)
    ensures r == Expected(d.pipe.face, old(d.pipe.state), commands)
  {
    r := [];
    ghost var f, start := d.pipe.face, d.pipe.state;
    for n := 0 to |commands|
      invariant d.Idle() && Smooth(f, d.pipe.cuts, d.pipe.state, d.pipe.readCount, commands[n..])
      invariant StateAfter(f, start, commands) == StateAfter(f, d.pipe.state, commands[n..])
      invariant r + Expected(f, d.pipe.state, commands[n..]) == Expected(f, start, commands)
    {
      var out := RunNext(d, commands, n);
      ConcatAssoc(r, [out], Expected(f, d.pipe.state, commands[n + 1..]));
      r := r + [out];
    }
    assert r + [] == r;
  }

  // ------------------------------------------------------------------
  // The listener's prompts
  // ------------------------------------------------------------------

  datatype CliMode = Exec | ConfigMode | VlanDbMode | InterfaceMode(name: Option<string>)

  /** cliPrompt. */
  function CliPrompt(mode: CliMode, modelKey: string): string {
    match mode
    case Exec => "(" + modelKey + ") >"
    case ConfigMode => "(" + modelKey + ") (Config)#"
    case VlanDbMode => "(" + modelKey + ") (Vlan)#"
    case InterfaceMode(name) =>
      if name.Some? then "(" + modelKey + ") (Interface " + name.value + ")#" else "(" + modelKey + ") (Interface)#"
  }

  /** The word of a mode. */
  function ModeWord(mode: CliMode): string {
    match mode
    case Exec => ""
    case ConfigMode => "Config"
    case VlanDbMode => "Vlan"
    case InterfaceMode(name) => "Interface" + if name.Some? then " " + name.value else ""
  }

  /** The model's key in parentheses, then the mode's word in parentheses and a #, or,
      where nothing is entered, a >. */
  lemma {:induction false} CliPromptText(mode: CliMode, modelKey: string)
    ensures CliPrompt(mode, modelKey)
         == "(" + modelKey + ")" + (if mode == Exec then " >" else " (" + ModeWord(mode) + ")#")
  {
    var key := "(" + modelKey;
    var tail := if mode == Exec then " >" else " (" + ModeWord(mode) + ")#";
    if mode.InterfaceMode? && mode.name.Some? {
      InterfacePrompt(key, mode.name.value);
    } else {
      assert ")" + tail == if mode == Exec then ") >" else if mode == ConfigMode then ") (Config)#"
                           else if mode == VlanDbMode then ") (Vlan)#" else ") (Interface)#";
      ConcatAssoc(key, ")", tail);
    }
  }

  lemma {:induction false} InterfacePrompt(key: string, name: string)
    ensures key + ") (Interface " + name + ")#" == key + ")" + (" (" + ("Interface" + (" " + name)) + ")#")
  {
    var head := ") (Interface ";
    assert ")" + " (" + "Interface" + " " == head;
    var word := "Interface" + (" " + name);
    ConcatAssoc("Interface", " ", name);
    ConcatAssoc(" (", "Interface" + " ", name);
    ConcatAssoc(" (", "Interface", " ");
    ConcatAssoc(key, ")", " (" + word + ")#");
    ConcatAssoc(")", " (" + word, ")#");
    ConcatAssoc(")", " (" + ("Interface" + " "), name);
    ConcatAssoc(")", " (", "Interface" + " ");
    ConcatAssoc(")" + " (", "Interface", " ");
    assert ")" + (" (" + word + ")#") == head + name + ")#";
    ConcatAssoc(key, head + name, ")#");
    ConcatAssoc(key, head, name);
  }

  /** Every mode's prompt is recognised, whatever the model and the interface are
      called, and is on one line if they are. */
  lemma {:induction false} CliPromptIsPrompt(mode: CliMode, modelKey: string)
    ensures PromptAtEnd(CliPrompt(mode, modelKey))
    ensures OneLine(modelKey) && (mode.InterfaceMode? && mode.name.Some? ==> OneLine(mode.name.value)) ==>
              OneLine(CliPrompt(mode, modelKey))
  {
    var s := CliPrompt(mode, modelKey);
    if mode == Exec {
      PromptFrom(s, |s| - 3, |s| - 1);
    } else {
      PromptFrom(s, |s| - 2, |s| - 1);
    }
  }

  /** A quiet response is read to its end. */
  lemma {:induction false} QuietStops(command: string, output: string, prompt: string)
    requires PromptAtEnd(prompt) && Quiet(Response(command, output, prompt))
    ensures StopsLast(Response(command, output, prompt), Stop(false))
  {
    var head := command + "\r\n" + if output == "" then "" else Crlf(output) + "\r\n";
    PromptWithMore(head, prompt);
  }

  /** Input that ends in a line feed is all served. */
  lemma {:induction false} AllServed<S>(f: Face<S>, s: S, input: string)
    requires input != "" && input[|input| - 1] == '\n'
    ensures ServeAll(f, s, input).unread == ""
    decreases |input|
  {
    LineFound(input);
    var n := LineEnd(input);
    var a := f.run(s, TrimBreak(input[..n]));
    if n < |input| {
      AllServed(f, a.state, input[n..]);
    } else {
      assert input[n..] == "";
    }
  }

  lemma {:induction false} LineFound(input: string)
    requires input != "" && input[|input| - 1] == '\n'
    ensures LineEnd(input) > 0
  {
    if input[0] != '\n' {
      LineFound(input[1..]);
    }
  }

  /** One line in, one response out. */
  lemma {:induction false} ServeLine<S>(f: Face<S>, s: S, command: string)
    requires OneLine(command)
    ensures var a := f.run(s, command);
            ServeAll(f, s, command + "\r\n") == Served(a.state, "", Response(command, a.output, f.prompt(a.state)))
  {
    var input := command + "\r\n";
    LineEndAt(command);
    assert input[..|input|] == input && input[|input|..] == "";
    TrimBreakLine(command);
    var a := f.run(s, command);
    assert ServeAll(f, a.state, "") == Served(a.state, "", "");
    assert Response(command, a.output, f.prompt(a.state)) + "" == Response(command, a.output, f.prompt(a.state));
  }

  lemma {:induction false} LineEndAt(command: string)
    requires OneLine(command)
    ensures LineEnd(command + "\r\n") == |command| + 2
  {
    var input := command + "\r\n";
    if command == "" {
      assert input[1..] == "\n";
    } else {
      assert input[1..] == command[1..] + "\r\n";
      LineEndAt(command[1..]);
    }
  }

  lemma {:induction false} TrimBreakLine(command: string)
    requires OneLine(command)
    ensures TrimBreak(command + "\r\n") == command
  {
    var raw := command + "\r\n";
    assert raw[..|raw| - 1] == command + "\r";
    assert (command + "\r")[..|command|] == command;
    assert TrimBreak(command) == command;
    assert TrimBreak(command + "\r") == command;
  }

  lemma {:induction false} OnlyAtEnd(text: string, buf: string, rest: string, stop: string -> bool)
    requires text == buf + rest
    ensures StopsLast(text, stop) && buf != "" ==> (stop(buf) <==> rest == "")
    ensures rest == "" ==> buf == text
  {
    assert text[..|buf|] == buf;
    assert rest == "" ==> buf + rest == buf;
  }
}
