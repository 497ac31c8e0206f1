/** Nested configuration modes: inMode's counted unwind (fastpath/session.go), and the
    mode stack of the device at the other end (virtual/cliface.go). */
module ModeStack {
  import opened Prelude
  import opened Whitespace
  import ShellText

  // ------------------------------------------------------------------
  // A session
  // ------------------------------------------------------------------

  /** Any session: each answer may depend on every command before it. An error is a
      transport failure. */
  class Session {
    const answer: (seq<string>, string) -> Result<string, int>
    var sent: seq<string>

    constructor (answer: (seq<string>, string) -> Result<string, int>)
      ensures this.answer == answer && sent == []
    {
      this.answer := answer;
      sent := [];
    }

    method Run(command: string) returns (r: Result<string, int>)
      modifies this`sent
      ensures sent == old(sent) + [command] && r == answer(old(sent), command)
    {
      r := answer(sent, command);
      sent := sent + [command];
    }
  }

  datatype Failure = Transport(code: int) | Rejected(command: string, text: string)

  /** Any text back, other than white space, is a rejection. */
  function Verdict(r: Result<string, int>, command: string): Option<Failure> {
    if r.Err? then Some(Transport(r.error))
    else if TrimSpace(r.value) != "" then Some(Rejected(command, TrimSpace(r.value)))
    else None
  }

  /** Accepted means nothing but white space came back; what is rejected is reported
      with the command and the text, the white space around it dropped. */
  lemma {:induction false} VerdictMeaning(r: Result<string, int>, command: string)
    ensures Verdict(r, command).None? <==> r.Ok? && Blank(r.value)
    ensures r.Err? ==> Verdict(r, command) == Some(Transport(r.error))
    ensures r.Ok? && !Blank(r.value) ==>
              exists before, text, after ::
                Verdict(r, command) == Some(Rejected(command, text)) && Trimmed(r.value, before, text, after)
  {
    if r.Ok? {
      TrimSpaceBlank(r.value);
      var before, after := TrimmedParts(r.value);
    }
  }

  /** A text between white space. */
  ghost predicate Trimmed(s: string, before: string, text: string, after: string) {
    && s == before + text + after && Blank(before) && Blank(after)
    && text != "" && !IsSpace(text[0]) && !IsSpace(text[|text| - 1])
  }

  lemma {:induction false} MiddlePart(s: string, r: string, t: string)
    requires r <= s && |t| <= |r| && r[|r| - |t|..] == t
    requires Blank(s[|r|..]) && Blank(r[..|r| - |t|])
    requires t != "" && !IsSpace(t[0]) && !IsSpace(r[|r| - 1])
    ensures Trimmed(s, r[..|r| - |t|], t, s[|r|..])
  {
    assert r == r[..|r| - |t|] + r[|r| - |t|..];
    assert s == r + s[|r|..];
    assert t[|t| - 1] == r[|r| - 1];
  }

  lemma {:induction false} TrimmedParts(s: string) returns (before: string, after: string)
    ensures TrimSpace(s) != "" ==> Trimmed(s, before, TrimSpace(s), after)
  {
    var r := TrimRight(s);
    TrimRightMeaning(s);
    TrimLeftMeaning(r);
    var t := TrimLeft(r);
    before, after := r[..|r| - |t|], s[|r|..];
    if t != "" {
      MiddlePart(s, r, t);
    }
  }

  /** run. */
  method RunChecked(s: Session, command: string) returns (f: Option<Failure>)
    modifies s`sent
    ensures s.sent == old(s.sent) + [command] && f == Verdict(s.answer(old(s.sent), command), command)
  {
    var r := s.Run(command);
    f := Verdict(r, command);
  }

  // ------------------------------------------------------------------
  // inMode
  // ------------------------------------------------------------------

  /** How many of the commands, issued in turn after some history, are accepted before
      the first that is not. */
  function Accepted(answer: (seq<string>, string) -> Result<string, int>, history: seq<string>, commands: seq<string>): (k: nat)
    ensures k <= |commands|
    decreases |commands|
  {
    if commands == [] || Verdict(answer(history, commands[0]), commands[0]).Some? then 0
    else 1 + Accepted(answer, history + [commands[0]], commands[1..])
  }

  function Times(command: string, n: nat): (r: seq<string>)
    ensures |r| == n
  {
    seq(n, _ => command)
  }

  /** The commands of a run: those accepted, and the first that was not. */
  function Issued(commands: seq<string>, accepted: nat): seq<string>
    requires accepted <= |commands|
  {
    if accepted < |commands| then commands[..accepted + 1] else commands
  }

  /** What stopped a run of commands, if anything did: the first refusal or failure. */
  function Stopped(answer: (seq<string>, string) -> Result<string, int>, history: seq<string>, commands: seq<string>): Option<Failure> {
    var k := Accepted(answer, history, commands);
    if k == |commands| then None else Verdict(answer(history + commands[..k], commands[k]), commands[k])
  }

  /** Issues commands until one is not accepted. */
  method Issue(s: Session, commands: seq<string>) returns (f: Option<Failure>, accepted: nat)
    modifies s`sent
    ensures accepted == Accepted(s.answer, old(s.sent), commands)
    ensures s.sent == old(s.sent) + Issued(commands, accepted)
    ensures f == Stopped(s.answer, old(s.sent), commands)
    ensures accepted == |commands| <==> f.None?
  {
    accepted, f := 0, None;
    ghost var start := s.sent;
    while accepted < |commands| && f.None?
      invariant accepted <= |commands|
      invariant f.None? ==> s.sent == start + commands[..accepted]
      invariant f.None? ==> Accepted(s.answer, start, commands)
                            == accepted + Accepted(s.answer, start + commands[..accepted], commands[accepted..])
      invariant f.Some? ==> accepted < |commands| && s.sent == start + commands[..accepted + 1]
                            && accepted == Accepted(s.answer, start, commands)
                            && f == Verdict(s.answer(start + commands[..accepted], commands[accepted]), commands[accepted])
      decreases |commands| - accepted, f.None?
    {
      SliceStep(commands, accepted);
      ConcatAssoc(start, commands[..accepted], [commands[accepted]]);
      f := RunChecked(s, commands[accepted]);
      if f.None? {
        accepted := accepted + 1;
      }
    }
    WholeSlice(commands);
  }

  /** The levels entered: the accepted commands that are entry commands. */
  function Levels(accepted: nat, enter: seq<string>): nat {
    if accepted < |enter| then accepted else |enter|
  }

  /** inMode: enter, then body, and in every case one exit for each enter command that
      was accepted; what the exits answer is discarded. */
  method InMode(s: Session, enter: seq<string>, body: seq<string>, exitCmd: string) returns (f: Option<Failure>)
    modifies s`sent
    ensures var k := Accepted(s.answer, old(s.sent), enter + body);
            s.sent == old(s.sent) + Issued(enter + body, k) + Times(exitCmd, Levels(k, enter))
    ensures f == Stopped(s.answer, old(s.sent), enter + body)
  {
    ghost var start := s.sent;
    var entered;
    f, entered := Issue(s, enter);
    ghost var done := 0;
    if f.None? {
      assert Issued(enter, entered) == enter;
      f, done := Issue(s, body);
    }
    Combine(s.answer, start, enter, body);
    Unwind(s, exitCmd, entered);
  }

  /** The deferred unwind. */
  method Unwind(s: Session, exitCmd: string, entered: nat)
    modifies s`sent
    ensures s.sent == old(s.sent) + Times(exitCmd, entered)
  {
    for i := 0 to entered
      invariant s.sent == old(s.sent) + Times(exitCmd, i)
    {
      var discarded := s.Run(exitCmd);
      assert Times(exitCmd, i + 1) == Times(exitCmd, i) + [exitCmd];
    }
  }

  lemma {:induction false} AcceptedConcat(answer: (seq<string>, string) -> Result<string, int>, history: seq<string>,
                                          a: seq<string>, b: seq<string>)
    ensures Accepted(answer, history, a + b) ==
            var k := Accepted(answer, history, a);
            if k < |a| then k else k + Accepted(answer, history + a, b)
    decreases |a|
  {
    if a == [] {
      assert a + b == b && history + a == history;
    } else {
      assert (a + b)[1..] == a[1..] + b;
      assert history + [a[0]] + a[1..] == history + a;
      AcceptedConcat(answer, history + [a[0]], a[1..], b);
    }
  }

  lemma {:induction false} PrefixOfConcat(a: seq<string>, b: seq<string>, n: nat)
    requires n <= |a + b|
    ensures (a + b)[..n] == if n < |a| then a[..n] else a + b[..n - |a|]
  {
  }

  lemma {:induction false} IssuedConcat(a: seq<string>, b: seq<string>, k: nat)
    requires k <= |a + b|
    ensures Issued(a + b, k) == if k < |a| then Issued(a, k) else a + Issued(b, k - |a|)
  {
    if k < |a + b| {
      PrefixOfConcat(a, b, k + 1);
      if k + 1 == |a| {
        assert a + b[..0] == a && a[..k + 1] == a;
      }
    }
  }

  lemma {:induction false} StoppedConcat(answer: (seq<string>, string) -> Result<string, int>, start: seq<string>,
                                         a: seq<string>, b: seq<string>)
    ensures Stopped(answer, start, a + b)
            == if Accepted(answer, start, a) < |a| then Stopped(answer, start, a) else Stopped(answer, start + a, b)
  {
    AcceptedConcat(answer, start, a, b);
    var k := Accepted(answer, start, a + b);
    PrefixOfConcat(a, b, k);
    if k >= |a| {
      ConcatAssoc(start, a, b[..k - |a|]);
    }
  }

  /** Issuing two lists one after the other, the second if the first goes through, is
      issuing both. */
  lemma {:induction false} Combine(answer: (seq<string>, string) -> Result<string, int>, start: seq<string>,
                                   a: seq<string>, b: seq<string>)
    ensures var j, k := Accepted(answer, start, a), Accepted(answer, start, a + b);
            && Levels(k, a) == j
            && start + Issued(a + b, k)
               == (if j < |a| then start + Issued(a, j) else start + a + Issued(b, Accepted(answer, start + a, b)))
    ensures Stopped(answer, start, a + b)
            == if Accepted(answer, start, a) < |a| then Stopped(answer, start, a) else Stopped(answer, start + a, b)
  {
    AcceptedConcat(answer, start, a, b);
    StoppedConcat(answer, start, a, b);
    var k := Accepted(answer, start, a + b);
    IssuedConcat(a, b, k);
    if k >= |a| {
      ConcatAssoc(start, a, Issued(b, k - |a|));
    }
  }

  // ------------------------------------------------------------------
  // The device
  // ------------------------------------------------------------------

  datatype Mode = VlanDb | Config | Interface(name: string)

  /** What a command asks of the mode stack. */
  datatype Kind = Exit | End | EnterVlanDb | EnterConfig | EnterInterface(name: string) | Plain

  const INTERFACE_PREFIX := "interface "

  /** The mode commands of configCommand. */
  function Classify(command: string): Kind {
    var c := TrimSpace(command);
    if c == "exit" then Exit
    else if c == "end" then End
    else if c == "vlan database" then EnterVlanDb
    else if c == "config" || c == "configure" || c == "config terminal" || c == "configure terminal" then EnterConfig
    else if IsInterface(c) then EnterInterface(c[|INTERFACE_PREFIX|..])
    else Plain
  }

  /** ^interface (\S+)$ */
  predicate IsInterface(c: string) {
    INTERFACE_PREFIX <= c && |c| > |INTERFACE_PREFIX|
    && forall i :: |INTERFACE_PREFIX| <= i < |c| ==> !ShellText.IsWs(c[i])
  }

  /** The texts of the mode commands: ^config(?:ure)?(?: terminal)?$ and the others, white
      space around them aside. */
  lemma {:induction false} ClassifyMeaning(command: string)
    ensures var c := TrimSpace(command);
            && (Classify(command) == Exit <==> c == "exit") && (Classify(command) == End <==> c == "end")
            && (Classify(command) == EnterVlanDb <==> c == "vlan database")
            && (Classify(command) == EnterConfig <==>
                  c == "config" || c == "config" + "ure" || c == "config" + " terminal" || c == "config" + "ure" + " terminal")
            && (forall name :: Classify(command) == EnterInterface(name) <==>
                  c == "interface " + name && name != "" && forall i :: 0 <= i < |name| ==> !ShellText.IsWs(name[i]))
  {
    var c := TrimSpace(command);
    ConfigTexts();
    assert "exit"[1] == 'x' && "end"[1] == 'n' && "vlan database"[0] == 'v' && "config"[0] == 'c' && "configure"[0] == 'c';
    forall name ensures Classify(command) == EnterInterface(name) <==>
                          c == "interface " + name && name != "" && forall i :: 0 <= i < |name| ==> !ShellText.IsWs(name[i]) {
      InterfaceText(c, name);
    }
  }

  lemma {:induction false} ConfigTexts()
    ensures "config" + "ure" == "configure" && "config" + " terminal" == "config terminal"
    ensures "config" + "ure" + " terminal" == "configure terminal"
  {
  }

  lemma {:induction false} InterfaceText(c: string, name: string)
    ensures IsInterface(c) && c[|INTERFACE_PREFIX|..] == name
       <==> c == "interface " + name && name != "" && forall i :: 0 <= i < |name| ==> !ShellText.IsWs(name[i])
    ensures c == "interface " + name ==> c[0] == 'i'
  {
    if IsInterface(c) {
      assert c == INTERFACE_PREFIX + c[|INTERFACE_PREFIX|..];
      assert forall i :: 0 <= i < |c| - |INTERFACE_PREFIX| ==> c[|INTERFACE_PREFIX|..][i] == c[|INTERFACE_PREFIX| + i];
    }
    if c == "interface " + name {
      assert c[|INTERFACE_PREFIX|..] == name;
    }
  }

  /** A device: how it reads commands, the interfaces it has, the text it refuses mode
      commands with, and what it answers to everything else. */
  datatype Device = Device(
    kind: string -> Kind,
    interfaces: set<string>,
    refusal: string,
    others: (seq<string>, string) -> string)

  datatype Reply = Reply(modes: seq<Mode>, output: string)

  function Innermost(modes: seq<Mode>): Option<Mode> {
    if modes == [] then None else Some(modes[|modes| - 1])
  }

  /** One command: the VLAN database is entered from the top or from configuration, an
      interface only from configuration; every other command leaves the modes alone. */
  function Dispatch(d: Device, history: seq<string>, modes: seq<Mode>, command: string): Reply {
    var mode := Innermost(modes);
    match d.kind(command)
    case Exit => Reply(if modes == [] then [] else modes[..|modes| - 1], "")
    case End => Reply([], "")
    case EnterVlanDb =>
      if mode == None || mode == Some(Config) then Reply(modes + [VlanDb], "") else Reply(modes, d.refusal)
    case EnterConfig =>
      if mode == None then Reply(modes + [Config], "") else Reply(modes, d.refusal)
    case EnterInterface(name) =>
      if mode != Some(Config) then Reply(modes, d.others(history, command))
      else if name in d.interfaces then Reply(modes + [Interface(name)], "")
      else Reply(modes, d.refusal)
    case Plain => Reply(modes, d.others(history, command))
  }

  /** The mode stack after some commands. */
  function ModesAfter(d: Device, start: seq<Mode>, history: seq<string>): seq<Mode> {
    if history == [] then start
    else
      var before := history[..|history| - 1];
      Dispatch(d, before, ModesAfter(d, start, before), history[|history| - 1]).modes
  }

  /** The only nestings there are: nothing, the VLAN database or configuration, and in
      configuration the VLAN database or an interface of the device. */
  ghost predicate Nesting(d: Device, modes: seq<Mode>) {
    || modes == [] || modes == [VlanDb] || modes == [Config] || modes == [Config, VlanDb]
    || (|modes| == 2 && modes[0] == Config && modes[1].Interface? && modes[1].name in d.interfaces)
  }

  lemma {:induction false} NestingKept(d: Device, history: seq<string>, modes: seq<Mode>, command: string)
    requires Nesting(d, modes)
    ensures Nesting(d, Dispatch(d, history, modes, command).modes)
    ensures d.kind(command).Exit? || d.kind(command).End? ==> Dispatch(d, history, modes, command).output == ""
  {
    if |modes| == 2 {
      assert modes[..1] == [Config];
      assert modes == [Config, modes[1]];
    }
  }

  /** Whatever is sent to a device in any order, its modes are never nested otherwise. */
  lemma {:induction false} NestingsReached(d: Device, history: seq<string>)
    ensures Nesting(d, ModesAfter(d, [], history))
  {
    if history != [] {
      var before := history[..|history| - 1];
      NestingsReached(d, before);
      NestingKept(d, before, ModesAfter(d, [], before), history[|history| - 1]);
    }
  }

  /** A session with the device over a transport that does not fail, and that turns no
      text into silence nor silence into text. */
  ghost predicate Talks(answer: (seq<string>, string) -> Result<string, int>, d: Device, start: seq<Mode>) {
    forall history: seq<string>, c: string {:trigger answer(history, c)} ::
      && answer(history, c).Ok?
      && (TrimSpace(answer(history, c).value) == ""
          <==> TrimSpace(Dispatch(d, history, ModesAfter(d, start, history), c).output) == "")
  }

  /** A refusal says something, also to an `interface` outside configuration, where it
      is not a command at all. */
  ghost predicate RefusesAloud(d: Device) {
    TrimSpace(d.refusal) != ""
    && forall history: seq<string>, c: string {:trigger d.others(history, c)} ::
         d.kind(c).EnterInterface? ==> TrimSpace(d.others(history, c)) != ""
  }

  /** A command that, if it is accepted, goes one level deeper. */
  predicate IsEntry(d: Device, command: string) {
    d.kind(command).EnterVlanDb? || d.kind(command).EnterConfig? || d.kind(command).EnterInterface?
  }

  predicate AllEntries(d: Device, commands: seq<string>) {
    forall i :: 0 <= i < |commands| ==> IsEntry(d, commands[i])
  }

  predicate AllPlain(d: Device, commands: seq<string>) {
    forall i :: 0 <= i < |commands| ==> d.kind(commands[i]).Plain?
  }

  lemma {:induction false} ModesStep(d: Device, start: seq<Mode>, history: seq<string>, c: string)
    ensures ModesAfter(d, start, history + [c]) == Dispatch(d, history, ModesAfter(d, start, history), c).modes
  {
    assert (history + [c])[..|history|] == history;
  }

  /** One command: an accepted entry pushes one mode, a refused one none. */
  lemma {:induction false} EntryStep(answer: (seq<string>, string) -> Result<string, int>, d: Device, start: seq<Mode>,
                                     history: seq<string>, c: string)
    requires Talks(answer, d, start) && RefusesAloud(d) && IsEntry(d, c)
    ensures var was, now := ModesAfter(d, start, history), ModesAfter(d, start, history + [c]);
            if Verdict(answer(history, c), c).None? then Deeper(was, now, 1) else now == was
  {
    ModesStep(d, start, history, c);
  }

  /** Some levels deeper than before, with all that was there still underneath. */
  ghost predicate Deeper(was: seq<Mode>, now: seq<Mode>, levels: nat) {
    |now| == |was| + levels && now[..|was|] == was
  }

  lemma {:induction false} DeeperTwice(a: seq<Mode>, b: seq<Mode>, c: seq<Mode>, m: nat, n: nat)
    requires Deeper(a, b, m) && Deeper(b, c, n)
    ensures Deeper(a, c, m + n)
  {
    assert c[..|b|][..|a|] == c[..|a|];
  }

  /** Entering: each accepted command is one level on top of the stack. */
  lemma {:induction false} Enters(answer: (seq<string>, string) -> Result<string, int>, d: Device, start: seq<Mode>,
                                  history: seq<string>, enter: seq<string>)
    requires Talks(answer, d, start) && RefusesAloud(d) && AllEntries(d, enter)
    ensures var k := Accepted(answer, history, enter);
            Deeper(ModesAfter(d, start, history), ModesAfter(d, start, history + Issued(enter, k)), k)
    decreases |enter|
  {
    var k := Accepted(answer, history, enter);
    var was := ModesAfter(d, start, history);
    if enter == [] {
      assert history + Issued(enter, k) == history;
      assert was[..|was|] == was;
    } else {
      var next := history + [enter[0]];
      EntryStep(answer, d, start, history, enter[0]);
      if k == 0 {
        assert Issued(enter, k) == [enter[0]];
        assert was[..|was|] == was;
      } else {
        Enters(answer, d, start, next, enter[1..]);
        IssuedStep(history, enter, k);
        DeeperTwice(was, ModesAfter(d, start, next), ModesAfter(d, start, history + Issued(enter, k)), 1, k - 1);
      }
    }
  }

  lemma {:induction false} IssuedStep(history: seq<string>, commands: seq<string>, k: nat)
    requires 0 < k <= |commands|
    ensures history + [commands[0]] + Issued(commands[1..], k - 1) == history + Issued(commands, k)
  {
    assert [commands[0]] + Issued(commands[1..], k - 1) == Issued(commands, k);
    ConcatAssoc(history, [commands[0]], Issued(commands[1..], k - 1));
  }

  lemma {:induction false} PlainKeeps(d: Device, start: seq<Mode>, history: seq<string>, commands: seq<string>)
    requires AllPlain(d, commands)
    ensures ModesAfter(d, start, history + commands) == ModesAfter(d, start, history)
    decreases |commands|
  {
    if commands == [] {
      assert history + commands == history;
    } else {
      var n := |commands| - 1;
      PlainKeeps(d, start, history, commands[..n]);
      ModesStep(d, start, history + commands[..n], commands[n]);
      assert commands == commands[..n] + [commands[n]];
      ConcatAssoc(history, commands[..n], [commands[n]]);
    }
  }

  lemma {:induction false} ExitsPop(d: Device, start: seq<Mode>, history: seq<string>, exitCmd: string, n: nat)
    requires d.kind(exitCmd).Exit? && n <= |ModesAfter(d, start, history)|
    ensures var was := ModesAfter(d, start, history);
            ModesAfter(d, start, history + Times(exitCmd, n)) == was[..|was| - n]
  {
    var was := ModesAfter(d, start, history);
    if n == 0 {
      assert history + Times(exitCmd, n) == history && was[..|was|] == was;
    } else {
      ExitsPop(d, start, history, exitCmd, n - 1);
      ModesStep(d, start, history + Times(exitCmd, n - 1), exitCmd);
      assert Times(exitCmd, n) == Times(exitCmd, n - 1) + [exitCmd];
      ConcatAssoc(history, Times(exitCmd, n - 1), [exitCmd]);
      assert was[..|was| - (n - 1)][..|was| - n] == was[..|was| - n];
    }
  }

  /** When an inMode is about to unwind, it is as deep as it entered. */
  lemma {:induction false} StaysDeep(answer: (seq<string>, string) -> Result<string, int>, d: Device, start: seq<Mode>,
                                     history: seq<string>, enter: seq<string>, body: seq<string>)
    requires Talks(answer, d, start) && RefusesAloud(d) && AllEntries(d, enter) && AllPlain(d, body)
    ensures var k := Accepted(answer, history, enter + body);
            Deeper(ModesAfter(d, start, history), ModesAfter(d, start, history + Issued(enter + body, k)), Levels(k, enter))
  {
    var entered := Accepted(answer, history, enter);
    Combine(answer, history, enter, body);
    Enters(answer, d, start, history, enter);
    if entered == |enter| {
      assert Issued(enter, entered) == enter;
      PlainKeeps(d, start, history + enter, Issued(body, Accepted(answer, history + enter, body)));
    }
  }

  /** The commands of a whole inMode leave the mode stack as they found it. */
  lemma {:induction false} Balanced(answer: (seq<string>, string) -> Result<string, int>, d: Device, start: seq<Mode>,
                                    history: seq<string>, enter: seq<string>, body: seq<string>, exitCmd: string)
    requires Talks(answer, d, start) && RefusesAloud(d)
    requires AllEntries(d, enter) && AllPlain(d, body) && d.kind(exitCmd).Exit?
    ensures var k := Accepted(answer, history, enter + body);
            var after := history + Issued(enter + body, k) + Times(exitCmd, Levels(k, enter));
            ModesAfter(d, start, after) == ModesAfter(d, start, history)
  {
    var k := Accepted(answer, history, enter + body);
    var entered := Levels(k, enter);
    StaysDeep(answer, d, start, history, enter, body);
    ExitsPop(d, start, history + Issued(enter + body, k), exitCmd, entered);
  }

  /** inMode is balanced: whatever the device refuses, and wherever, its mode stack is
      afterwards what it was before. */
  method BalancedInMode(s: Session, d: Device, start: seq<Mode>, enter: seq<string>, body: seq<string>, exitCmd: string)
    returns (f: Option<Failure>)
    requires Talks(s.answer, d, start) && RefusesAloud(d)
    requires AllEntries(d, enter) && AllPlain(d, body) && d.kind(exitCmd).Exit?
    modifies s`sent
    ensures ModesAfter(d, start, s.sent) == ModesAfter(d, start, old(s.sent))
    ensures f == Stopped(s.answer, old(s.sent), enter + body)
  {
    ghost var before := s.sent;
    f := InMode(s, enter, body, exitCmd);
    Balanced(s.answer, d, start, before, enter, body, exitCmd);
  }

  // ------------------------------------------------------------------
  // The commands the writer uses
  // ------------------------------------------------------------------

  /** The writer's entry and exit commands are what they are taken for. */
  lemma {:induction false} WriterCommands(iface: string)
    requires iface != "" && forall i :: 0 <= i < |iface| ==> !IsSpace(iface[i])
    ensures Classify("exit") == Exit
    ensures Classify("vlan database") == EnterVlanDb
    ensures Classify("configure") == EnterConfig
    ensures Classify(INTERFACE_PREFIX + iface) == EnterInterface(iface)
  {
    TrimSolid("exit");
    TrimSolid("vlan database");
    TrimSolid("configure");
    var c := INTERFACE_PREFIX + iface;
    assert c[|c| - 1] == iface[|iface| - 1];
    TrimSolid(c);
    assert c[0] == 'i';
    assert "exit"[0] == 'e' && "end"[0] == 'e' && "vlan database"[0] == 'v' && "config"[0] == 'c' && "configure"[0] == 'c';
    assert c[|INTERFACE_PREFIX|..] == iface;
  }
}
