/** The configuration writers over the shell: inMode on a ShellDriver
    (fastpath/session.go), the listener at the other end (virtual/cli_socket.go), and
    behind it the virtual command line (virtual/cliface.go). */
module WriterShell {
  import opened Prelude
  import opened Decimal
  import opened Whitespace
  import opened ShellText
  import opened ModeStack
  import opened PortNaming
  import opened WriterModes
  import Shell = ShellSession

  /** A face whose state is the commands it has run. */
  type Log = Shell.Face<seq<string>>

  // ------------------------------------------------------------------
  // The device behind the listener
  // ------------------------------------------------------------------

  function PromptMode(modes: seq<Mode>): Shell.CliMode {
    match Innermost(modes)
    case None => Shell.Exec
    case Some(VlanDb) => Shell.VlanDbMode
    case Some(Config) => Shell.ConfigMode
    case Some(Interface(name)) => Shell.InterfaceMode(Some(name))
  }

  function CliFace(d: Device, start: seq<Mode>, modelKey: string): Log {
    Shell.Face((h: seq<string>, c: string) => Shell.Answer(h + [c], Dispatch(d, h, ModesAfter(d, start, h), c).output),
               (h: seq<string>) => Shell.CliPrompt(PromptMode(ModesAfter(d, start, h)), modelKey))
  }

  ghost predicate Logs(f: Log) {
    forall h: seq<string>, c: string {:trigger f.run(h, c)} :: f.run(h, c).state == h + [c]
  }

  /** Every interface of the stack has a name on one line. */
  predicate NamesOnOneLine(modes: seq<Mode>) {
    forall i :: 0 <= i < |modes| ==> modes[i].Interface? ==> OneLine(modes[i].name)
  }

  lemma {:induction false} ModesOnOneLine(d: Device, start: seq<Mode>, history: seq<string>)
    requires d.kind == Classify && NamesOnOneLine(start)
    ensures NamesOnOneLine(ModesAfter(d, start, history))
  {
    if history != [] {
      ModesOnOneLine(d, start, history[..|history| - 1]);
    }
  }

  /** The listener's prompts are prompts, whatever has been run. */
  lemma {:induction false} CliPrompts(d: Device, start: seq<Mode>, modelKey: string)
    requires d.kind == Classify && NamesOnOneLine(start) && OneLine(modelKey)
    ensures Shell.Prompts(CliFace(d, start, modelKey))
  {
    var f := CliFace(d, start, modelKey);
    forall h ensures OneLine(f.prompt(h)) && PromptAtEnd(f.prompt(h)) {
      ModesOnOneLine(d, start, h);
      Shell.CliPromptIsPrompt(PromptMode(ModesAfter(d, start, h)), modelKey);
    }
  }

  // ------------------------------------------------------------------
  // The commands the listener makes of a text
  // ------------------------------------------------------------------

  /** Each complete line of the input is a command. */
  function Commands(input: string): seq<string>
    decreases |input|
  {
    var n := Shell.LineEnd(input);
    if n == 0 then [] else [Shell.TrimBreak(input[..n])] + Commands(input[n..])
  }

  /** A command as Run sends it. */
  function ServedLines(command: string): seq<string> {
    Commands(command + "\r\n")
  }

  function AllLines(commands: seq<string>): seq<string> {
    if commands == [] then [] else ServedLines(commands[0]) + AllLines(commands[1..])
  }

  /** The listener runs just these. */
  lemma {:induction false} Serves(f: Log, h: seq<string>, input: string)
    requires Logs(f)
    ensures Shell.ServeAll(f, h, input).state == h + Commands(input)
    decreases |input|
  {
    var n := Shell.LineEnd(input);
    if n == 0 {
      assert h + [] == h;
    } else {
      var command := Shell.TrimBreak(input[..n]);
      Serves(f, f.run(h, command).state, input[n..]);
      ConcatAssoc(h, [command], Commands(input[n..]));
    }
  }

  lemma {:induction false} ServedOnce(command: string)
    requires OneLine(command)
    ensures ServedLines(command) == [command]
  {
    var input := command + "\r\n";
    Shell.LineEndAt(command);
    Shell.TrimBreakLine(command);
    WholeSlice(input);
    assert Commands("") == [];
  }

  predicate AllOneLine(commands: seq<string>) {
    forall i :: 0 <= i < |commands| ==> OneLine(commands[i])
  }

  lemma {:induction false} LinesOfOneLine(commands: seq<string>)
    requires AllOneLine(commands)
    ensures AllLines(commands) == commands
  {
    if commands != [] {
      ServedOnce(commands[0]);
      LinesOfOneLine(commands[1..]);
    }
  }

  lemma {:induction false} LinesSplit(a: seq<string>, b: seq<string>)
    ensures AllLines(a + b) == AllLines(a) + AllLines(b)
  {
    if a == [] {
      assert a + b == b;
    } else {
      assert (a + b)[1..] == a[1..] + b;
      LinesSplit(a[1..], b);
      ConcatAssoc(ServedLines(a[0]), AllLines(a[1..]), AllLines(b));
    }
  }

  // ------------------------------------------------------------------
  // Which commands leave the modes alone
  // ------------------------------------------------------------------

  /** A mode command that is accepted somewhere. */
  predicate Effective(d: Device, command: string) {
    match d.kind(command)
    case Plain => false
    case EnterInterface(name) => name in d.interfaces
    case _ => true
  }

  predicate NoneEffective(d: Device, commands: seq<string>) {
    forall i :: 0 <= i < |commands| ==> !Effective(d, commands[i])
  }

  /** Whatever the modes are, running these commands does not change them. */
  ghost predicate Neutral(d: Device, commands: seq<string>) {
    forall modes: seq<Mode> {:trigger ModesAfter(d, modes, commands)} :: ModesAfter(d, modes, commands) == modes
  }

  lemma {:induction false} ModesThrough(d: Device, start: seq<Mode>, history: seq<string>, commands: seq<string>)
    ensures ModesAfter(d, start, history + commands) == ModesAfter(d, ModesAfter(d, start, history), commands)
    decreases |commands|
  {
    if commands == [] {
      assert history + commands == history;
    } else {
      var n := |commands| - 1;
      var first, last := commands[..n], commands[n];
      ModesThrough(d, start, history, first);
      assert commands == first + [last];
      ConcatAssoc(history, first, [last]);
      ModesStep(d, start, history + first, last);
      ModesStep(d, ModesAfter(d, start, history), first, last);
    }
  }

  lemma {:induction false} IneffectiveKeep(d: Device, modes: seq<Mode>, commands: seq<string>)
    requires NoneEffective(d, commands)
    ensures ModesAfter(d, modes, commands) == modes
    decreases |commands|
  {
    if commands != [] {
      var n := |commands| - 1;
      IneffectiveKeep(d, modes, commands[..n]);
    }
  }

  /** Two stacks that an effective command makes one. */
  function Collapse(d: Device, command: string): (seq<Mode>, seq<Mode>) {
    match d.kind(command)
    case EnterVlanDb => ([], [VlanDb])
    case EnterInterface(name) => ([Config], [Config, Interface(name)])
    case _ => ([], [Config])
  }

  lemma {:induction false} Collapses(d: Device, history: seq<string>, command: string)
    requires Effective(d, command)
    ensures var (a, b) := Collapse(d, command);
            a != b && Dispatch(d, history, a, command).modes == Dispatch(d, history, b, command).modes
  {
    var (a, b) := Collapse(d, command);
    assert |a| != |b|;
    match d.kind(command) {
      case EnterVlanDb => assert [] + [VlanDb] == [VlanDb];
      case EnterInterface(name) => assert [Config] + [Interface(name)] == [Config, Interface(name)];
      case EnterConfig => assert [] + [Config] == [Config];
      case Exit => assert [Config][..0] == [];
      case End =>
      case Plain =>
    }
  }

  lemma {:induction false} CollapsesAfter(d: Device, first: seq<string>, command: string)
    requires Effective(d, command) && NoneEffective(d, first)
    ensures var (a, b) := Collapse(d, command);
            a != b && ModesAfter(d, a, first + [command]) == ModesAfter(d, b, first + [command])
  {
    var (a, b) := Collapse(d, command);
    Collapses(d, first, command);
    IneffectiveKeep(d, a, first);
    IneffectiveKeep(d, b, first);
    ModesStep(d, a, first, command);
    ModesStep(d, b, first, command);
  }

  /** What one effective command makes of two stacks, no later command tells apart. */
  lemma {:induction false} EffectiveDisturbs(d: Device, first: seq<string>, command: string, rest: seq<string>)
    requires Effective(d, command) && NoneEffective(d, first)
    ensures !Neutral(d, first + [command] + rest)
  {
    var (a, b) := Collapse(d, command);
    CollapsesAfter(d, first, command);
    ModesThrough(d, a, first + [command], rest);
    ModesThrough(d, b, first + [command], rest);
    assert ModesAfter(d, a, first + [command] + rest) == ModesAfter(d, b, first + [command] + rest);
  }

  function FirstEffective(d: Device, commands: seq<string>): (i: nat)
    ensures i <= |commands| && NoneEffective(d, commands[..i])
    ensures i < |commands| ==> Effective(d, commands[i])
    decreases |commands|
  {
    if commands == [] || Effective(d, commands[0]) then 0 else 1 + FirstEffective(d, commands[1..])
  }

  /** Commands leave the modes alone, whatever these are, if and only if none of them
      is a mode command that is accepted somewhere. */
  lemma {:induction false} NeutralIff(d: Device, commands: seq<string>)
    ensures Neutral(d, commands) <==> NoneEffective(d, commands)
  {
    if NoneEffective(d, commands) {
      forall modes: seq<Mode> ensures ModesAfter(d, modes, commands) == modes {
        IneffectiveKeep(d, modes, commands);
      }
    } else {
      var i := FirstEffective(d, commands);
      WholeSlice(commands);
      SliceStep(commands, i);
      assert commands == commands[..i] + [commands[i]] + commands[i + 1..];
      EffectiveDisturbs(d, commands[..i], commands[i], commands[i + 1..]);
    }
  }

  lemma {:induction false} FaceLogs(d: Device, start: seq<Mode>, modelKey: string)
    ensures Logs(CliFace(d, start, modelKey))
  {
  }

  /** Whatever the modes are, the listener, sent this, leaves them as they are. */
  ghost predicate Spares(d: Device, modelKey: string, input: string) {
    forall start: seq<Mode> {:trigger CliFace(d, start, modelKey)} ::
      ModesAfter(d, start, Shell.ServeAll(CliFace(d, start, modelKey), [], input).state) == start
  }

  /** A command, sent to the listener, leaves the modes alone if and only if none of the
      lines that are served of it is a mode command that is accepted somewhere. */
  lemma {:induction false} SparesIff(d: Device, modelKey: string, command: string)
    ensures Spares(d, modelKey, command + "\r\n") <==> NoneEffective(d, ServedLines(command))
  {
    forall start: seq<Mode>
      ensures Shell.ServeAll(CliFace(d, start, modelKey), [], command + "\r\n").state == ServedLines(command)
    {
      FaceLogs(d, start, modelKey);
      Serves(CliFace(d, start, modelKey), [], command + "\r\n");
      assert [] + ServedLines(command) == ServedLines(command);
    }
    NeutralIff(d, ServedLines(command));
    if !NoneEffective(d, ServedLines(command)) {
      var start: seq<Mode> :| ModesAfter(d, start, ServedLines(command)) != start;
      assert Shell.ServeAll(CliFace(d, start, modelKey), [], command + "\r\n").state == ServedLines(command);
    }
  }

  // ------------------------------------------------------------------
  // What the client hears
  // ------------------------------------------------------------------

  /** The session a face makes, where every answer is read whole. */
  function HeardFrom(f: Log): (seq<string>, string) -> Result<string, int> {
    (h: seq<string>, c: string) => Ok(Shell.Seen(f.run(h, c).output))
  }

  /** In every state the response to a command is its own and is read to its end. */
  ghost predicate Clear(f: Log, command: string) {
    Sendable(command)
    && forall h: seq<string> {:trigger f.run(h, command)} ::
         Quiet(Shell.Said(f, h, command)) && |Shell.Said(f, h, command)| <= Shell.MAX_READS
  }

  ghost predicate AllClear(f: Log, commands: seq<string>) {
    forall i :: 0 <= i < |commands| ==> Clear(f, commands[i])
  }

  lemma {:induction false} TrimBreaksBlank(s: string)
    ensures Blank(TrimBreaks(s)) <==> Blank(s)
  {
    if s != "" && s[0] == '\n' {
      TrimBreaksBlank(s[1..]);
      assert s == [s[0]] + s[1..];
    } else if s != "" && s[|s| - 1] == '\n' {
      TrimBreaksBlank(s[..|s| - 1]);
      assert s == s[..|s| - 1] + [s[|s| - 1]];
    }
  }

  lemma {:induction false} CrToLfBlank(s: string)
    ensures Blank(CrToLf(s)) <==> Blank(s)
  {
    var t := CrToLf(s);
    assert forall i :: 0 <= i < |s| ==> (IsSpace(t[i]) <==> IsSpace(s[i]));
  }

  /** The client hears silence where the device was silent, and nowhere else. */
  lemma {:induction false} SeenBlank(output: string)
    ensures TrimSpace(Shell.Seen(output)) == "" <==> TrimSpace(output) == ""
  {
    TrimSpaceBlank(Shell.Seen(output));
    TrimSpaceBlank(output);
    TrimBreaksBlank(CrToLf(output));
    CrToLfBlank(output);
  }

  lemma {:induction false} FaceTalks(d: Device, start: seq<Mode>, modelKey: string)
    ensures Logs(CliFace(d, start, modelKey)) && Talks(HeardFrom(CliFace(d, start, modelKey)), d, start)
  {
    var answer := HeardFrom(CliFace(d, start, modelKey));
    forall h: seq<string>, c: string
      ensures TrimSpace(answer(h, c).value) == ""
              <==> TrimSpace(Dispatch(d, h, ModesAfter(d, start, h), c).output) == ""
    {
      SeenBlank(Dispatch(d, h, ModesAfter(d, start, h), c).output);
    }
  }

  // ------------------------------------------------------------------
  // inMode on a shell
  // ------------------------------------------------------------------

  /** A driver of such a face. */
  ghost predicate Sound(driver: Shell.Driver<seq<string>>) {
    Logs(driver.pipe.face) && Shell.Prompts(driver.pipe.face)
  }

  /** run: whatever is heard, the listener has served the command, line by line; and a
      clear one is judged by what the face answered to it. */
  method RunChecked(driver: Shell.Driver<seq<string>>, command: string) returns (f: Option<Failure>)
    requires Sound(driver) && driver.pipe.unread == ""
    modifies driver.pipe
    ensures driver.pipe.unread == "" && driver.pipe.state == old(driver.pipe.state) + ServedLines(command)
    ensures old(driver.Idle()) && Clear(driver.pipe.face, command) ==>
              driver.Idle() && f == Verdict(HeardFrom(driver.pipe.face)(old(driver.pipe.state), command), command)
  {
    Serves(driver.pipe.face, driver.pipe.state, command + "\r\n");
    ghost var said := Shell.Said(driver.pipe.face, driver.pipe.state, command);
    var heard := driver.Run(command);
    var r := if heard.None? then Err(0) else Ok(heard.value);
    f := Verdict(r, command);
  }

  /** What is left to issue after the first commands of a run. */
  ghost predicate Underway(answer: (seq<string>, string) -> Result<string, int>, start: seq<string>, commands: seq<string>,
                           accepted: nat, f: Option<Failure>)
    requires accepted <= |commands|
  {
    if f.None? then
      Accepted(answer, start, commands) == accepted + Accepted(answer, start + commands[..accepted], commands[accepted..])
    else
      accepted < |commands| && accepted == Accepted(answer, start, commands)
      && f == Verdict(answer(start + commands[..accepted], commands[accepted]), commands[accepted])
  }

  lemma {:induction false} UnderwayStep(answer: (seq<string>, string) -> Result<string, int>, start: seq<string>,
                                        commands: seq<string>, accepted: nat, f: Option<Failure>)
    requires accepted < |commands| && Underway(answer, start, commands, accepted, None)
    requires f == Verdict(answer(start + commands[..accepted], commands[accepted]), commands[accepted])
    ensures Underway(answer, start, commands, if f.None? then accepted + 1 else accepted, f)
  {
    SliceStep(commands, accepted);
    ConcatAssoc(start, commands[..accepted], [commands[accepted]]);
  }

  lemma {:induction false} UnderwayDone(answer: (seq<string>, string) -> Result<string, int>, start: seq<string>,
                                        commands: seq<string>, accepted: nat, f: Option<Failure>)
    requires accepted <= |commands| && Underway(answer, start, commands, accepted, f)
    requires f.None? ==> accepted == |commands|
    ensures accepted == Accepted(answer, start, commands) && f == Stopped(answer, start, commands)
  {
  }

  lemma {:induction false} IssuedLines(commands: seq<string>, n: nat)
    requires n < |commands|
    ensures AllLines(commands[..n + 1]) == AllLines(commands[..n]) + ServedLines(commands[n])
  {
    SliceStep(commands, n);
    LinesSplit(commands[..n], [commands[n]]);
    assert AllLines([commands[n]]) == ServedLines(commands[n]) + AllLines([]);
  }

  lemma {:induction false} ClearLines(f: Log, commands: seq<string>, n: nat)
    requires AllClear(f, commands) && n <= |commands|
    ensures AllLines(commands[..n]) == commands[..n]
  {
    forall i | 0 <= i < n ensures OneLine(commands[..n][i]) {
      assert Clear(f, commands[i]);
    }
    LinesOfOneLine(commands[..n]);
  }

  /** The next command of a run. */
  method IssueNext(driver: Shell.Driver<seq<string>>, ghost start: seq<string>, commands: seq<string>, n: nat)
    returns (f: Option<Failure>)
    requires Sound(driver) && driver.pipe.unread == "" && n < |commands|
    requires driver.pipe.state == start + AllLines(commands[..n])
    modifies driver.pipe
    ensures driver.pipe.unread == "" && driver.pipe.state == start + AllLines(commands[..n + 1])
    ensures old(driver.Idle()) && AllClear(driver.pipe.face, commands)
            && Underway(HeardFrom(driver.pipe.face), start, commands, n, None) ==>
              driver.Idle() && Underway(HeardFrom(driver.pipe.face), start, commands, if f.None? then n + 1 else n, f)
  {
    ghost var answer, clear := HeardFrom(driver.pipe.face), driver.Idle() && AllClear(driver.pipe.face, commands);
    IssuedLines(commands, n);
    ConcatAssoc(start, AllLines(commands[..n]), ServedLines(commands[n]));
    if clear {
      ClearLines(driver.pipe.face, commands, n);
    }
    f := RunChecked(driver, commands[n]);
    if clear && Underway(answer, start, commands, n, None) {
      UnderwayStep(answer, start, commands, n, f);
    }
  }

  lemma {:induction false} UnderwayFirst(answer: (seq<string>, string) -> Result<string, int>, start: seq<string>,
                                         commands: seq<string>)
    ensures Underway(answer, start, commands, 0, None) && start + AllLines(commands[..0]) == start
  {
    WholeSlice(commands);
    assert commands[..0] == [] && start + [] == start;
  }

  lemma {:induction false} IssuedSlice(commands: seq<string>, accepted: nat)
    requires accepted <= |commands|
    ensures Issued(commands, accepted) == commands[..if accepted < |commands| then accepted + 1 else accepted]
  {
    WholeSlice(commands);
  }

  /** Issues commands until one is not accepted. What the listener has run is always the
      lines of the commands issued; where every answer is clear, the client is told what
      the face said, and they stay in step. */
  method Issue(driver: Shell.Driver<seq<string>>, commands: seq<string>) returns (f: Option<Failure>, accepted: nat)
    requires Sound(driver) && driver.pipe.unread == ""
    modifies driver.pipe
    ensures accepted <= |commands| && (accepted == |commands| <==> f.None?)
    ensures driver.pipe.unread == "" && driver.pipe.state == old(driver.pipe.state) + AllLines(Issued(commands, accepted))
    ensures old(driver.Idle()) && AllClear(driver.pipe.face, commands) ==>
              && driver.Idle()
              && accepted == Accepted(HeardFrom(driver.pipe.face), old(driver.pipe.state), commands)
              && f == Stopped(HeardFrom(driver.pipe.face), old(driver.pipe.state), commands)
  {
    accepted, f := 0, None;
    ghost var start, clear := driver.pipe.state, driver.Idle() && AllClear(driver.pipe.face, commands);
    ghost var answer := HeardFrom(driver.pipe.face);
    UnderwayFirst(answer, start, commands);
    while accepted < |commands| && f.None?
      invariant accepted <= |commands| && (f.Some? ==> accepted < |commands|)
      invariant driver.pipe.unread == ""
      invariant driver.pipe.state == start + AllLines(commands[..if f.None? then accepted else accepted + 1])
      invariant clear ==> driver.Idle() && Underway(answer, start, commands, accepted, f)
      decreases |commands| - accepted, f.None?
    {
      f := IssueNext(driver, start, commands, accepted);
      if f.None? {
        accepted := accepted + 1;
      }
    }
    IssuedSlice(commands, accepted);
    if clear {
      UnderwayDone(answer, start, commands, accepted, f);
    }
  }

  /** The deferred unwind. */
  method Unwind(driver: Shell.Driver<seq<string>>, exitCmd: string, entered: nat)
    requires Sound(driver) && driver.pipe.unread == "" && OneLine(exitCmd)
    modifies driver.pipe
    ensures driver.pipe.unread == "" && driver.pipe.state == old(driver.pipe.state) + Times(exitCmd, entered)
    ensures old(driver.Idle()) && Clear(driver.pipe.face, exitCmd) ==> driver.Idle()
  {
    ghost var start, clear := driver.pipe.state, driver.Idle() && Clear(driver.pipe.face, exitCmd);
    ServedOnce(exitCmd);
    assert start + Times(exitCmd, 0) == start;
    for i := 0 to entered
      invariant driver.pipe.unread == "" && driver.pipe.state == start + Times(exitCmd, i)
      invariant clear ==> driver.Idle()
    {
      var discarded := RunChecked(driver, exitCmd);
      assert Times(exitCmd, i + 1) == Times(exitCmd, i) + [exitCmd];
      ConcatAssoc(start, Times(exitCmd, i), [exitCmd]);
    }
  }

  /** inMode on a shell: what the listener has run, whatever is heard of the body; and
      where that is clear too, just what inMode promises. */
  method InMode(driver: Shell.Driver<seq<string>>, enter: seq<string>, body: seq<string>, exitCmd: string)
    returns (f: Option<Failure>, ghost entered: nat, ghost done: nat)
    requires Sound(driver) && driver.Idle() && AllClear(driver.pipe.face, enter) && OneLine(exitCmd)
    modifies driver.pipe
    ensures entered == Accepted(HeardFrom(driver.pipe.face), old(driver.pipe.state), enter) && done <= |body|
    ensures driver.pipe.state == old(driver.pipe.state) + Issued(enter, entered)
                                 + (if entered < |enter| then [] else AllLines(Issued(body, done))) + Times(exitCmd, entered)
    ensures AllClear(driver.pipe.face, body) && Clear(driver.pipe.face, exitCmd) ==>
              var answer, start := HeardFrom(driver.pipe.face), old(driver.pipe.state);
              var k := Accepted(answer, start, enter + body);
              && driver.Idle()
              && driver.pipe.state == start + Issued(enter + body, k) + Times(exitCmd, Levels(k, enter))
              && f == Stopped(answer, start, enter + body)
  {
    ghost var start, answer := driver.pipe.state, HeardFrom(driver.pipe.face);
    var levels;
    f, levels := Issue(driver, enter);
    entered, done := levels, 0;
    ClearIssued(driver.pipe.face, enter, entered);
    Combine(answer, start, enter, body);
    if f.None? {
      var issued;
      f, issued := Issue(driver, body);
      done := issued;
      if AllClear(driver.pipe.face, body) {
        ClearIssued(driver.pipe.face, body, done);
      }
    } else {
      assert driver.pipe.state + [] == driver.pipe.state;
    }
    Unwind(driver, exitCmd, levels);
  }

  lemma {:induction false} ClearIssued(f: Log, commands: seq<string>, k: nat)
    requires AllClear(f, commands) && k <= |commands|
    ensures AllLines(Issued(commands, k)) == Issued(commands, k)
    ensures k == |commands| ==> Issued(commands, k) == commands
  {
    IssuedSlice(commands, k);
    WholeSlice(commands);
    ClearLines(f, commands, if k < |commands| then k + 1 else k);
  }

  /** From some levels deep, lines that are not mode commands, and then as many exits. */
  lemma {:induction false} BackOut(d: Device, start: seq<Mode>, was: seq<Mode>, inside: seq<string>, lines: seq<string>,
                                   exitCmd: string, levels: nat)
    requires Deeper(was, ModesAfter(d, start, inside), levels)
    requires NoneEffective(d, lines) && d.kind(exitCmd).Exit?
    ensures ModesAfter(d, start, inside + lines + Times(exitCmd, levels)) == was
  {
    ModesThrough(d, start, inside, lines);
    IneffectiveKeep(d, ModesAfter(d, start, inside), lines);
    ExitsPop(d, start, inside + lines, exitCmd, levels);
  }

  lemma {:induction false} IssuedIneffective(d: Device, commands: seq<string>, k: nat)
    requires NoneEffective(d, AllLines(commands)) && k <= |commands|
    ensures NoneEffective(d, AllLines(Issued(commands, k)))
  {
    var n := if k < |commands| then k + 1 else k;
    IssuedSlice(commands, k);
    assert commands == commands[..n] + commands[n..];
    LinesSplit(commands[..n], commands[n..]);
    var head, all := AllLines(commands[..n]), AllLines(commands);
    assert forall i :: 0 <= i < |head| ==> head[i] == all[i];
  }

  /** inMode on a shell is balanced: whatever is heard of the body, the mode stack ends as
      it began if no line that the listener serves of it is a mode command. */
  method BalancedInMode(driver: Shell.Driver<seq<string>>, d: Device, start: seq<Mode>,
                        enter: seq<string>, body: seq<string>, exitCmd: string)
    returns (f: Option<Failure>)
    requires Sound(driver) && driver.Idle() && AllClear(driver.pipe.face, enter) && OneLine(exitCmd)
    requires Talks(HeardFrom(driver.pipe.face), d, start) && RefusesAloud(d)
    requires AllEntries(d, enter) && d.kind(exitCmd).Exit?
    modifies driver.pipe
    ensures NoneEffective(d, AllLines(body)) ==>
              ModesAfter(d, start, driver.pipe.state) == ModesAfter(d, start, old(driver.pipe.state))
    ensures AllClear(driver.pipe.face, body) && Clear(driver.pipe.face, exitCmd) ==>
              driver.Idle() && f == Stopped(HeardFrom(driver.pipe.face), old(driver.pipe.state), enter + body)
  {
    ghost var before := driver.pipe.state;
    ghost var entered, done;
    f, entered, done := InMode(driver, enter, body, exitCmd);
    if NoneEffective(d, AllLines(body)) {
      IssuedIneffective(d, body, done);
      Enters(HeardFrom(driver.pipe.face), d, start, before, enter);
      BackOut(d, start, ModesAfter(d, start, before), before + Issued(enter, entered),
              if entered < |enter| then [] else AllLines(Issued(body, done)), exitCmd, entered);
    }
  }

  // ------------------------------------------------------------------
  // The operations
  // ------------------------------------------------------------------

  /** The caller's own words in an operation. */
  function Text(op: Operation): string {
    match op
    case CreateVlan(_, name) => name
    case Describe(_, text) => text
    case SetHostname(name) => name
    case AddCollector(line) => line
    case _ => ""
  }

  lemma {:induction false} OneLineConcat(a: string, b: string)
    requires OneLine(a) && OneLine(b)
    ensures OneLine(a + b)
  {
  }

  lemma {:induction false} DigitsOneLine(n: nat)
    ensures OneLine(Itoa(n)) && OneLine(" " + Itoa(n))
  {
    var s := Itoa(n);
    assert forall i :: 0 <= i < |s| ==> IsDigit(s[i]);
    OneLineConcat(" ", s);
  }

  lemma {:induction false} RateOneLine(mbps: nat, fullDuplex: bool)
    ensures AllOneLine(["speed" + (" " + Rate(mbps) + (if fullDuplex then " full-duplex" else " half-duplex"))])
  {
    DigitsOneLine(mbps);
    DigitsOneLine(mbps / 1000);
    OneLineConcat(Itoa(mbps / 1000), "G");
    OneLineConcat(" ", Rate(mbps));
    OneLineConcat(" " + Rate(mbps), if fullDuplex then " full-duplex" else " half-duplex");
    OneLineConcat("speed", " " + Rate(mbps) + (if fullDuplex then " full-duplex" else " half-duplex"));
  }

  lemma {:induction false} ParticipationOneLine(vlan: nat, mode: VlanMode)
    ensures AllOneLine(Participation(vlan, mode))
  {
    DigitsOneLine(vlan);
    OneLineConcat(" exclude ", Itoa(vlan));
    OneLineConcat(" include ", Itoa(vlan));
    OneLineConcat("vlan participation", " exclude " + Itoa(vlan));
    OneLineConcat("vlan participation", " include " + Itoa(vlan));
    OneLineConcat("vlan tagging", " " + Itoa(vlan));
    OneLineConcat(No(mode == Tagged), VlanCmd("tagging", " " + Itoa(vlan)));
  }

  lemma {:induction false} GeneralOneLine(general: bool, more: seq<string>)
    requires AllOneLine(more)
    ensures AllOneLine(GeneralMode(general) + more)
  {
    assert OneLine("switchport mode general");
  }

  lemma {:induction false} SwitchOneLine(on: bool, word: string)
    requires OneLine(word)
    ensures AllOneLine([No(on) + word])
  {
    OneLineConcat(No(on), word);
  }

  lemma {:induction false} WordsOneLine(word: string, rest: string)
    requires OneLine(word) && OneLine(rest)
    ensures AllOneLine([word + rest])
  {
    OneLineConcat(word, rest);
  }

  lemma {:induction false} CreateOneLine(vlan: nat, name: string)
    requires OneLine(name)
    ensures AllOneLine([VlanCmd(Itoa(vlan), ""), VlanCmd("name", " " + Itoa(vlan) + " " + name)])
  {
    DigitsOneLine(vlan);
    OneLineConcat("vlan ", Itoa(vlan));
    OneLineConcat("vlan " + Itoa(vlan), "");
    OneLineConcat(" " + Itoa(vlan), " ");
    OneLineConcat(" " + Itoa(vlan) + " ", name);
    OneLineConcat("vlan ", "name");
    OneLineConcat("vlan " + "name", " " + Itoa(vlan) + " " + name);
  }

  lemma {:induction false} DeleteOneLine(vlan: nat)
    ensures AllOneLine(["no " + VlanCmd(Itoa(vlan), "")])
  {
    DigitsOneLine(vlan);
    OneLineConcat("vlan ", Itoa(vlan));
    OneLineConcat("vlan " + Itoa(vlan), "");
    WordsOneLine("no ", VlanCmd(Itoa(vlan), ""));
  }

  lemma {:induction false} PvidOneLine(vlan: nat)
    ensures AllOneLine([VlanCmd("pvid", " " + Itoa(vlan))])
  {
    DigitsOneLine(vlan);
    OneLineConcat("vlan ", "pvid");
    WordsOneLine("vlan " + "pvid", " " + Itoa(vlan));
  }

  lemma {:induction false} VlanBodyOneLine(general: bool, op: Operation)
    requires op.CreateVlan? || op.DeleteVlan? || op.SetMembership? || op.SetPvid?
    requires OneLine(Text(op))
    ensures AllOneLine(Body(general, op))
  {
    match op {
      case CreateVlan(vlan, name) => CreateOneLine(vlan, name);
      case DeleteVlan(vlan) => DeleteOneLine(vlan);
      case SetMembership(_, vlan, mode) =>
        ParticipationOneLine(vlan, mode);
        GeneralOneLine(general, Participation(vlan, mode));
      case SetPvid(_, vlan) =>
        PvidOneLine(vlan);
        GeneralOneLine(general, [VlanCmd("pvid", " " + Itoa(vlan))]);
    }
  }

  lemma {:induction false} DescriptionOneLine(text: string)
    requires OneLine(text)
    ensures AllOneLine([if text == "" then "no " + "description" else "description" + (" '" + text + "'")])
  {
    OneLineConcat(" '", text);
    OneLineConcat(" '" + text, "'");
    OneLineConcat("description", " '" + text + "'");
    OneLineConcat("no ", "description");
  }

  lemma {:induction false} RemoveOneLine(index: nat)
    ensures AllOneLine(["logging" + (" host remove " + Itoa(index))])
  {
    DigitsOneLine(index);
    OneLineConcat(" host remove ", Itoa(index));
    WordsOneLine("logging", " host remove " + Itoa(index));
  }

  lemma {:induction false} AddOneLine(line: string)
    requires OneLine(line)
    ensures AllOneLine(["logging" + (" host \"" + line)])
  {
    OneLineConcat(" host \"", line);
    WordsOneLine("logging", " host \"" + line);
  }

  lemma {:induction false} NameOneLine(name: string)
    requires OneLine(name)
    ensures AllOneLine(["hostname" + (" " + name)])
  {
    OneLineConcat(" ", name);
    WordsOneLine("hostname", " " + name);
  }

  lemma {:induction false} LoneBodyOneLine(general: bool, op: Operation)
    requires !op.CreateVlan? && !op.DeleteVlan? && !op.SetMembership? && !op.SetPvid?
    requires OneLine(Text(op))
    ensures AllOneLine(Body(general, op))
  {
    match op {
      case Describe(_, text) => DescriptionOneLine(text);
      case AutoSpeed(_) => WordsOneLine("speed", " auto");
      case ForceSpeed(_, mbps, fullDuplex) => RateOneLine(mbps, fullDuplex);
      case SetFlowControl(_, on) => SwitchOneLine(on, "flowcontrol");
      case SetPoe(_, on) => SwitchOneLine(on, "poe");
      case ResetPoe(_) => WordsOneLine("poe", " reset");
      case SetEnabled(_, on) => SwitchOneLine(!on, "shutdown");
      case SetHostname(name) => NameOneLine(name);
      case SetSyslog(on) => SwitchOneLine(on, "logging syslog");
      case AddCollector(line) => AddOneLine(line);
      case RemoveCollector(index) => RemoveOneLine(index);
    }
  }

  /** A text on one line makes commands on one line. */
  lemma {:induction false} BodyOneLine(general: bool, op: Operation)
    requires OneLine(Text(op))
    ensures AllOneLine(Body(general, op))
  {
    if op.CreateVlan? || op.DeleteVlan? || op.SetMembership? || op.SetPvid? {
      VlanBodyOneLine(general, op);
    } else {
      LoneBodyOneLine(general, op);
    }
  }

  /** A text on one line keeps every line that the listener serves from being a mode
      command. */
  lemma {:induction false} OneLineIsHarmless(general: bool, op: Operation, d: Device)
    requires OneLine(Text(op)) && d.kind == Classify
    ensures NoneEffective(d, AllLines(Body(general, op)))
  {
    BodyOneLine(general, op);
    LinesOfOneLine(Body(general, op));
    BodyPlain(general, op);
  }

  /** The listener is what inMode needs of it. */
  lemma {:induction false} FaceFits(d: Device, start: seq<Mode>, modelKey: string)
    requires d.kind == Classify && NamesOnOneLine(start) && OneLine(modelKey)
    ensures var f := CliFace(d, start, modelKey);
            Logs(f) && Shell.Prompts(f) && Talks(HeardFrom(f), d, start)
  {
    FaceTalks(d, start, modelKey);
    CliPrompts(d, start, modelKey);
  }

  /** So are the command lists. */
  lemma {:induction false} OperationFits(d: Device, n: Naming, general: bool, op: Operation)
    requires d.kind == Classify && (n == BASE || n == SMART)
    ensures AllEntries(d, Entry(n, op)) && d.kind("exit").Exit? && OneLine("exit")
    ensures OneLine(Text(op)) ==> NoneEffective(d, AllLines(Body(general, op)))
  {
    EntryEnters(n, op, d);
    TrimSolid("exit");
    if OneLine(Text(op)) {
      OneLineIsHarmless(general, op, d);
    }
  }

  /** Every operation of the writer, over the shell and whatever is heard of its body.
      The mode stack ends as it began if no line of a body command, as the listener
      serves it, is a mode command; that is so if the caller's text is one line. Where
      every answer is clear, the first refusal is the error, and the session is idle. */
  method Write(driver: Shell.Driver<seq<string>>, interfaces: set<string>, others: (seq<string>, string) -> string,
               start: seq<Mode>, modelKey: string, n: Naming, general: bool, op: Operation)
    returns (f: Option<Failure>)
    requires driver.pipe.face == CliFace(CliDevice(interfaces, others), start, modelKey)
    requires NamesOnOneLine(start) && OneLine(modelKey) && (n == BASE || n == SMART)
    requires driver.Idle() && AllClear(driver.pipe.face, Entry(n, op))
    modifies driver.pipe
    ensures var d := CliDevice(interfaces, others);
            NoneEffective(d, AllLines(Body(general, op))) || OneLine(Text(op)) ==>
              ModesAfter(d, start, driver.pipe.state) == ModesAfter(d, start, old(driver.pipe.state))
    ensures AllClear(driver.pipe.face, Body(general, op)) && Clear(driver.pipe.face, "exit") ==>
              driver.Idle()
              && f == Stopped(HeardFrom(driver.pipe.face), old(driver.pipe.state), Entry(n, op) + Body(general, op))
  {
    CliRefusesAloud(interfaces, others);
    FaceFits(CliDevice(interfaces, others), start, modelKey);
    OperationFits(CliDevice(interfaces, others), n, general, op);
    f := BalancedInMode(driver, CliDevice(interfaces, others), start, Entry(n, op), Body(general, op), "exit");
  }

  // ------------------------------------------------------------------
  // Mode commands are clear
  // ------------------------------------------------------------------

  /** A text of moderate length, on one line, without a prompt character. */
  predicate Tidy(s: string) {
    |s| <= 1000 && OneLine(s) && Unmarked(s)
  }

  predicate Unmarked(s: string) {
    forall i :: 0 <= i < |s| ==> !IsMark(s[i])
  }

  predicate NamesTidy(modes: seq<Mode>) {
    forall i :: 0 <= i < |modes| ==> modes[i].Interface? ==> Tidy(modes[i].name)
  }

  lemma {:induction false} ModesTidy(d: Device, start: seq<Mode>, history: seq<string>)
    requires NamesTidy(start) && forall name :: name in d.interfaces ==> Tidy(name)
    ensures NamesTidy(ModesAfter(d, start, history))
  {
    if history != [] {
      ModesTidy(d, start, history[..|history| - 1]);
    }
  }

  lemma {:induction false} UnmarkedConcat(a: string, b: string)
    requires Unmarked(a) && Unmarked(b)
    ensures Unmarked(a + b)
  {
  }

  /** A prompt's only prompt character is its last. */
  ghost predicate MarkedLast(s: string) {
    s != "" && Unmarked(s[..|s| - 1])
  }

  lemma {:induction false} MarkedLastOf(s: string, mark: string)
    requires Unmarked(s) && |mark| == 1
    ensures MarkedLast(s + mark)
  {
    assert (s + mark)[..|s|] == s;
  }

  lemma {:induction false} InterfacePromptMarked(modelKey: string, name: string)
    requires Tidy(modelKey) && Tidy(name)
    ensures var s := "(" + modelKey + ") (Interface " + name + ")#";
            MarkedLast(s) && |s| <= 2020
  {
    UnmarkedConcat("(", modelKey);
    UnmarkedConcat("(" + modelKey, ") (Interface ");
    UnmarkedConcat("(" + modelKey + ") (Interface ", name);
    UnmarkedConcat("(" + modelKey + ") (Interface " + name, ")");
    MarkedLastOf("(" + modelKey + ") (Interface " + name + ")", "#");
    assert "(" + modelKey + ") (Interface " + name + ")" + "#" == "(" + modelKey + ") (Interface " + name + ")#";
  }

  lemma {:induction false} PlainPromptMarked(modelKey: string, tail: string, mark: string)
    requires Tidy(modelKey) && Unmarked(tail) && |tail| <= 20 && |mark| == 1
    ensures var s := "(" + modelKey + (tail + mark);
            MarkedLast(s) && |s| <= 2020
  {
    UnmarkedConcat("(", modelKey);
    UnmarkedConcat("(" + modelKey, tail);
    MarkedLastOf("(" + modelKey + tail, mark);
    ConcatAssoc("(" + modelKey, tail, mark);
  }

  lemma {:induction false} PromptMarked(modes: seq<Mode>, modelKey: string)
    requires Tidy(modelKey) && NamesTidy(modes)
    ensures var s := Shell.CliPrompt(PromptMode(modes), modelKey);
            MarkedLast(s) && |s| <= 2020
  {
    if Innermost(modes).Some? && Innermost(modes).value.Interface? {
      InterfacePromptMarked(modelKey, Innermost(modes).value.name);
    } else {
      PlainPromptMarked(modelKey, ") ", ">");
      PlainPromptMarked(modelKey, ") (Config)", "#");
      PlainPromptMarked(modelKey, ") (Vlan)", "#");
      assert ") " + ">" == ") >" && ") (Config)" + "#" == ") (Config)#" && ") (Vlan)" + "#" == ") (Vlan)#";
    }
  }

  lemma {:induction false} ResponseQuiet(command: string, output: string, prompt: string)
    requires Unmarked(command) && OneLine(output) && Unmarked(output) && MarkedLast(prompt)
    requires |command| <= 1000 && |output| <= 1000 && |prompt| <= 2020
    ensures Quiet(Response(command, output, prompt)) && |Response(command, output, prompt)| <= Shell.MAX_READS
  {
    var body := if output == "" then "" else Crlf(output) + "\r\n";
    CrlfPlain(output);
    UnmarkedConcat(command, "\r\n");
    UnmarkedConcat(Crlf(output), "\r\n");
    UnmarkedConcat(command + "\r\n", body);
    var head, last := command + "\r\n" + body, |prompt| - 1;
    UnmarkedConcat(head, prompt[..last]);
    var s := head + prompt;
    assert forall i :: 0 <= i < |s| - 1 ==> s[i] == (head + prompt[..last])[i];
    UnmarkedIsQuiet(s);
  }

  lemma {:induction false} TidyConcat(a: string, b: string)
    requires Tidy(a) && Tidy(b) && |a| + |b| <= 1000
    ensures Tidy(a + b)
  {
  }

  lemma {:induction false} InvalidTidy()
    ensures Tidy(CLI_INVALID)
  {
  }

  lemma {:induction false} NotFoundTidy()
    ensures Tidy(CLI_NOT_FOUND)
  {
    var a, b, c := "Command not found / ", "Incomplete command. ", "Use ? to list commands.";
    TidyConcat(a, b);
    TidyConcat(a + b, c);
  }

  /** A mode command says little, and nothing in it looks like a prompt. */
  lemma {:induction false} ModeCommandClear(interfaces: set<string>, others: (seq<string>, string) -> string,
                                            start: seq<Mode>, modelKey: string, command: string)
    requires Classify(command) != Plain && Sendable(command) && Tidy(command)
    requires Tidy(modelKey) && NamesTidy(start) && forall name :: name in interfaces ==> Tidy(name)
    ensures Clear(CliFace(CliDevice(interfaces, others), start, modelKey), command)
  {
    var d := CliDevice(interfaces, others);
    var f := CliFace(d, start, modelKey);
    InvalidTidy();
    NotFoundTidy();
    forall h: seq<string>
      ensures Quiet(Shell.Said(f, h, command)) && |Shell.Said(f, h, command)| <= Shell.MAX_READS
    {
      ModesTidy(d, start, h + [command]);
      PromptMarked(ModesAfter(d, start, h + [command]), modelKey);
      ResponseQuiet(command, f.run(h, command).output, f.prompt(h + [command]));
    }
  }

  // ------------------------------------------------------------------
  // A text of more than one line
  // ------------------------------------------------------------------

  /** The bytes of some commands, sent in turn. */
  function Wire(commands: seq<string>): string {
    if commands == [] then "" else commands[0] + "\r\n" + Wire(commands[1..])
  }

  lemma {:induction false} FirstLine(line: string, rest: string)
    requires OneLine(line)
    ensures Shell.LineEnd(line + "\n" + rest) == |line| + 1
  {
    var input := line + "\n" + rest;
    if line != "" {
      assert input[1..] == line[1..] + "\n" + rest;
      FirstLine(line[1..], rest);
    }
  }

  lemma {:induction false} TrimmedLine(line: string)
    requires OneLine(line)
    ensures Shell.TrimBreak(line + "\n") == line
  {
    var raw := line + "\n";
    assert raw[..|raw| - 1] == line;
  }

  /** A line, and then the rest. */
  lemma {:induction false} CommandsCons(line: string, rest: string)
    requires OneLine(line)
    ensures Commands(line + "\n" + rest) == [line] + Commands(rest)
  {
    var input := line + "\n" + rest;
    FirstLine(line, rest);
    TrimmedLine(line);
    assert input[..|line| + 1] == line + "\n" && input[|line| + 1..] == rest;
  }

  lemma {:induction false} LineEndFirst(a: string, b: string)
    requires Shell.LineEnd(a) > 0
    ensures Shell.LineEnd(a + b) == Shell.LineEnd(a)
  {
    if a[0] != '\n' {
      assert (a + b)[1..] == a[1..] + b;
      LineEndFirst(a[1..], b);
    }
  }

  /** Complete lines, and then more. */
  lemma {:induction false} CommandsConcat(a: string, b: string)
    requires a == "" || a[|a| - 1] == '\n'
    ensures Commands(a + b) == Commands(a) + Commands(b)
    decreases |a|
  {
    if a == "" {
      assert a + b == b;
    } else {
      Shell.LineFound(a);
      var n := Shell.LineEnd(a);
      LineEndFirst(a, b);
      assert (a + b)[..n] == a[..n] && (a + b)[n..] == a[n..] + b;
      CommandsConcat(a[n..], b);
      ConcatAssoc([Shell.TrimBreak(a[..n])], Commands(a[n..]), Commands(b));
    }
  }

  lemma {:induction false} WireLines(commands: seq<string>)
    ensures Commands(Wire(commands)) == AllLines(commands)
  {
    if commands != [] {
      WireLines(commands[1..]);
      CommandsConcat(commands[0] + "\r\n", Wire(commands[1..]));
    }
  }

  /** The first line of a command, and then what is left of it. */
  lemma {:induction false} ServedCons(line: string, rest: string)
    requires OneLine(line)
    ensures ServedLines(line + "\n" + rest) == [line] + ServedLines(rest)
  {
    CommandsCons(line, rest + "\r\n");
    ConcatAssoc(line + "\n", rest, "\r\n");
  }

  lemma {:induction false} FourLines(a: string, b: string, c: string, d: string)
    requires OneLine(a) && OneLine(b) && OneLine(c) && OneLine(d)
    ensures ServedLines(a + "\n" + (b + "\n" + (c + "\n" + d))) == [a, b, c, d]
  {
    ServedCons(a, b + "\n" + (c + "\n" + d));
    ServedCons(b, c + "\n" + d);
    ServedCons(c, d);
    ServedOnce(d);
  }

  lemma {:induction false} SevenLines(enter: string, create: string, named: string, leave: string, lines: seq<string>)
    requires OneLine(enter) && OneLine(create) && OneLine(leave) && ServedLines(named) == lines
    ensures AllLines([enter, create, named, leave]) == [enter, create] + lines + [leave]
  {
    ServedOnce(enter);
    ServedOnce(create);
    ServedOnce(leave);
    LinesSplit([enter, create], [named]);
    LinesSplit([enter, create] + [named], [leave]);
    LinesOfOneLine([enter, create]);
    LinesOfOneLine([leave]);
    assert AllLines([named]) == lines + AllLines([]);
    assert [enter, create] + [named] + [leave] == [enter, create, named, leave];
  }

  lemma {:induction false} InVlanDb(d: Device, vlanDb: string, create: string, named: string)
    requires d.kind(vlanDb).EnterVlanDb? && d.kind(create).Plain? && d.kind(named).Plain?
    ensures ModesAfter(d, [], [vlanDb] + [create] + [named]) == [VlanDb]
  {
    ModesStep(d, [], [], vlanDb);
    ModesStep(d, [], [vlanDb], create);
    ModesStep(d, [], [vlanDb] + [create], named);
    assert [] + [vlanDb] == [vlanDb] && [] + [VlanDb] == [VlanDb];
  }

  lemma {:induction false} OneByOne(a: string, b: string, c: string, e: string, f: string)
    ensures [a, b] + [c, e, f, a] + [e] == [a] + [b] + [c] + [e] + [f] + [a] + [e]
  {
  }

  /** In at one mode, out of it in the middle, and into two others. */
  lemma {:induction false} WrongWay(d: Device, vlanDb: string, create: string, named: string, leave: string, config: string)
    requires d.kind(vlanDb).EnterVlanDb? && d.kind(create).Plain? && d.kind(named).Plain?
    requires d.kind(leave).Exit? && d.kind(config).EnterConfig?
    ensures ModesAfter(d, [], [vlanDb, create] + [named, leave, config, vlanDb] + [leave]) == [Config]
  {
    InVlanDb(d, vlanDb, create, named);
    LeftAndBack(d, [vlanDb] + [create] + [named], leave, config, vlanDb);
    OneByOne(vlanDb, create, named, leave, config);
  }

  lemma {:induction false} LeftAndBack(d: Device, inside: seq<string>, leave: string, config: string, vlanDb: string)
    requires d.kind(leave).Exit? && d.kind(config).EnterConfig? && d.kind(vlanDb).EnterVlanDb?
    requires ModesAfter(d, [], inside) == [VlanDb]
    ensures ModesAfter(d, [], inside + [leave] + [config] + [vlanDb] + [leave]) == [Config]
  {
    ModesStep(d, [], inside, leave);
    ModesStep(d, [], inside + [leave], config);
    ModesStep(d, [], inside + [leave] + [config], vlanDb);
    ModesStep(d, [], inside + [leave] + [config] + [vlanDb], leave);
    assert [Config] + [VlanDb] == [Config, VlanDb] && [Config, VlanDb][..1] == [Config];
  }

  /** A VLAN's name of four lines. */
  const FOUR_LINES := "a" + "\n" + ("exit" + "\n" + ("configure" + "\n" + "vlan database"))

  /** What is sent to create VLAN 10 with that name. */
  function FourLineCommands(n: Naming): seq<string> {
    Entry(n, CreateVlan(10, FOUR_LINES)) + Body(false, CreateVlan(10, FOUR_LINES)) + ["exit"]
  }

  lemma {:induction false} FourLinesServed(n: Naming, head: string)
    requires head == VlanCmd("name", " " + Itoa(10) + " ")
    ensures AllLines(FourLineCommands(n))
            == ["vlan database", VlanCmd(Itoa(10), "")] + [head + "a", "exit", "configure", "vlan database"] + ["exit"]
  {
    var create, named := VlanCmd(Itoa(10), ""), VlanCmd("name", " " + Itoa(10) + " " + FOUR_LINES);
    var rest := "exit" + "\n" + ("configure" + "\n" + "vlan database");
    CreateOneLine(10, "");
    assert AllOneLine([create, head]) by {
      assert VlanCmd("name", " " + Itoa(10) + " " + "") == head;
    }
    assert OneLine([create, head][0]) && OneLine([create, head][1]);
    OneLineConcat(head, "a");
    FourLines(head + "a", "exit", "configure", "vlan database");
    assert named == head + "a" + "\n" + rest by {
      assert named == head + FOUR_LINES;
      ConcatAssoc(head, "a", "\n");
      ConcatAssoc(head, "a" + "\n", rest);
    }
    SevenLines("vlan database", create, named, "exit", [head + "a", "exit", "configure", "vlan database"]);
    assert FourLineCommands(n) == ["vlan database", create, named, "exit"];
  }

  /** One such operation: started from the top, it ends in configuration. */
  lemma {:induction false} NameOfFourLines(interfaces: set<string>, others: (seq<string>, string) -> string,
                                       modelKey: string, n: Naming)
    ensures var d := CliDevice(interfaces, others);
            ModesAfter(d, [], Shell.ServeAll(CliFace(d, [], modelKey), [], Wire(FourLineCommands(n))).state) == [Config]
  {
    var d := CliDevice(interfaces, others);
    var create, head := VlanCmd(Itoa(10), ""), VlanCmd("name", " " + Itoa(10) + " ");
    FaceLogs(d, [], modelKey);
    Serves(CliFace(d, [], modelKey), [], Wire(FourLineCommands(n)));
    WireLines(FourLineCommands(n));
    FourLinesServed(n, head);
    FourLineKinds(head);
    WrongWay(d, "vlan database", create, head + "a", "exit", "configure");
    assert [] + AllLines(FourLineCommands(n)) == AllLines(FourLineCommands(n));
  }

  lemma {:induction false} FourLineKinds(head: string)
    requires head == VlanCmd("name", " " + Itoa(10) + " ")
    ensures Classify("vlan database") == EnterVlanDb && Classify("exit") == Exit && Classify("configure") == EnterConfig
    ensures Classify(VlanCmd(Itoa(10), "")) == Plain && Classify(head + "a") == Plain
  {
    WriterCommands("1");
    VlanCreateIsPlain(10);
    VlanIsPlain("name", " " + Itoa(10) + " " + "a");
    assert head + "a" == VlanCmd("name", " " + Itoa(10) + " " + "a");
  }
}
