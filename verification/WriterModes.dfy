/** The configuration writers' command lists (fastpath/writer.go, fastpath/spec.go), run
    by inMode on the virtual switch's command line (virtual/cliface.go). */
module WriterModes {
  import opened Prelude
  import opened Decimal
  import opened Whitespace
  import opened ModeStack
  import opened PortNaming

  // ------------------------------------------------------------------
  // The virtual command line
  // ------------------------------------------------------------------

  const CLI_INVALID := "% Invalid input detected at '^' marker."
  const CLI_NOT_FOUND := "Command not found / " + "Incomplete command. " + "Use ? to list commands."

  /** Its mode commands, and any answers to the others. Outside configuration,
      `interface` is not among the commands at all. */
  function CliDevice(interfaces: set<string>, others: (seq<string>, string) -> string): Device {
    Device(Classify, interfaces, CLI_INVALID, (h, c) => if Classify(c).EnterInterface? then CLI_NOT_FOUND else others(h, c))
  }

  /** It never refuses a mode command in silence. */
  lemma {:induction false} CliRefusesAloud(interfaces: set<string>, others: (seq<string>, string) -> string)
    ensures RefusesAloud(CliDevice(interfaces, others))
  {
    assert CLI_INVALID[0] == '%' && CLI_INVALID[|CLI_INVALID| - 1] == '.';
    TrimSolid(CLI_INVALID);
    assert CLI_NOT_FOUND[0] == "Command not found / "[0] == 'C';
    var usage := "Use ? to list commands.";
    assert CLI_NOT_FOUND[|CLI_NOT_FOUND| - 1] == usage[|usage| - 1] == '.';
    TrimSolid(CLI_NOT_FOUND);
  }

  // ------------------------------------------------------------------
  // The operations
  // ------------------------------------------------------------------

  datatype Operation =
    | CreateVlan(vlan: nat, name: string)
    | DeleteVlan(vlan: nat)
    | SetMembership(port: nat, vlan: nat, mode: VlanMode)
    | SetPvid(port: nat, vlan: nat)
    | Describe(port: nat, text: string)
    | AutoSpeed(port: nat)
    | ForceSpeed(port: nat, mbps: nat, fullDuplex: bool)
    | SetFlowControl(port: nat, on: bool)
    | SetPoe(port: nat, on: bool)
    | ResetPoe(port: nat)
    | SetEnabled(port: nat, on: bool)
    | SetHostname(name: string)
    | SetSyslog(on: bool)
    | AddCollector(line: string)      // the line from the address on
    | RemoveCollector(index: nat)

  /** The modes an operation enters. */
  function Entry(n: Naming, op: Operation): seq<string> {
    match op
    case CreateVlan(_, _) => ["vlan database"]
    case DeleteVlan(_) => ["vlan database"]
    case SetHostname(_) => ["configure"]
    case SetSyslog(_) => ["configure"]
    case AddCollector(_) => ["configure"]
    case RemoveCollector(_) => ["configure"]
    case _ => ["configure", INTERFACE_PREFIX + Iface(n, op.port)]
  }

  function No(on: bool): string {
    if on then "" else "no "
  }

  /** What models with switchport modes are told first. */
  function GeneralMode(general: bool): seq<string> {
    if general then ["switchport mode general"] else []
  }

  function VlanCmd(word: string, rest: string): string {
    "vlan " + word + rest
  }

  function Participation(vlan: nat, mode: VlanMode): seq<string> {
    if mode == Excluded then [VlanCmd("participation", " exclude " + Itoa(vlan))]
    else [VlanCmd("participation", " include " + Itoa(vlan)), No(mode == Tagged) + VlanCmd("tagging", " " + Itoa(vlan))]
  }

  /** What it does there. */
  function Body(general: bool, op: Operation): seq<string> {
    match op
    case CreateVlan(vlan, name) => [VlanCmd(Itoa(vlan), ""), VlanCmd("name", " " + Itoa(vlan) + " " + name)]
    case DeleteVlan(vlan) => ["no " + VlanCmd(Itoa(vlan), "")]
    case SetMembership(_, vlan, mode) => GeneralMode(general) + Participation(vlan, mode)
    case SetPvid(_, vlan) => GeneralMode(general) + [VlanCmd("pvid", " " + Itoa(vlan))]
    case Describe(_, text) => [if text == "" then "no " + "description" else "description" + (" '" + text + "'")]
    case AutoSpeed(_) => ["speed" + " auto"]
    case ForceSpeed(_, mbps, fullDuplex) => ["speed" + (" " + Rate(mbps) + (if fullDuplex then " full-duplex" else " half-duplex"))]
    case SetFlowControl(_, on) => [No(on) + "flowcontrol"]
    case SetPoe(_, on) => [No(on) + "poe"]
    case ResetPoe(_) => ["poe" + " reset"]
    case SetEnabled(_, on) => [No(!on) + "shutdown"]
    case SetHostname(name) => ["hostname" + (" " + name)]
    case SetSyslog(on) => [No(on) + "logging syslog"]
    case AddCollector(line) => ["logging" + (" host \"" + line)]
    case RemoveCollector(index) => ["logging" + (" host remove " + Itoa(index))]
  }

  // ------------------------------------------------------------------
  // None of it touches the modes
  // ------------------------------------------------------------------

  /** Words no mode command begins with. */
  predicate Foreign(head: string) {
    && head != "" && !IsSpace(head[0]) && !IsSpace(head[|head| - 1])
    && head[0] != 'e' && head[0] != 'c' && head[0] != 'i' && !(head <= "vlan database")
  }

  lemma {:induction false} TrimKeeps(s: string, k: nat)
    requires k < |s| && !IsSpace(s[k])
    ensures k < |TrimRight(s)|
  {
    if IsSpace(s[|s| - 1]) {
      TrimKeeps(s[..|s| - 1], k);
    }
  }

  lemma {:induction false} TrimKeepsHead(head: string, rest: string)
    requires head != "" && !IsSpace(head[0]) && !IsSpace(head[|head| - 1])
    ensures head <= TrimSpace(head + rest)
  {
    var s := head + rest;
    TrimRightMeaning(s);
    TrimKeeps(s, |head| - 1);
    assert head <= TrimRight(s);
  }

  /** A command that begins with them is not one. */
  lemma {:induction false} ForeignIsPlain(head: string, rest: string)
    requires Foreign(head)
    ensures Classify(head + rest) == Plain
  {
    var c := TrimSpace(head + rest);
    TrimKeepsHead(head, rest);
    assert c[0] == head[0];
    assert "exit"[0] == 'e' && "end"[0] == 'e' && "config"[0] == 'c' && "configure"[0] == 'c';
    assert "config terminal"[0] == 'c' && "configure terminal"[0] == 'c' && INTERFACE_PREFIX[0] == 'i';
  }

  lemma {:induction false} NoIsPlain(rest: string)
    ensures Classify("no " + rest) == Plain
  {
    assert "no"[0] == 'n' && "vlan database"[0] == 'v';
    assert "no " + rest == "no" + (" " + rest);
    ForeignIsPlain("no", " " + rest);
  }

  /** The commands about VLANs are told from `vlan database` by their second word. */
  lemma {:induction false} VlanIsPlain(word: string, rest: string)
    requires word != "" && word[0] != 'd' && !IsSpace(word[0]) && !IsSpace(word[|word| - 1])
    ensures Classify(VlanCmd(word, rest)) == Plain
  {
    var head := "vlan " + word;
    assert head[0] == 'v' && head[5] == word[0] && "vlan database"[5] == 'd' && head[|head| - 1] == word[|word| - 1];
    ForeignIsPlain(head, rest);
  }

  lemma {:induction false} WordIsPlain(word: string, rest: string)
    requires word != "" && !IsSpace(word[|word| - 1])
    requires word[0] == 's' || word[0] == 'd' || word[0] == 'f' || word[0] == 'p' || word[0] == 'h' || word[0] == 'l'
    ensures Classify(word + rest) == Plain
  {
    assert "vlan database"[0] == 'v';
    ForeignIsPlain(word, rest);
  }

  lemma {:induction false} VlanCreateIsPlain(vlan: nat)
    ensures Classify(VlanCmd(Itoa(vlan), "")) == Plain
  {
    var digits := Itoa(vlan);
    assert IsDigit(digits[0]) && IsDigit(digits[|digits| - 1]);
    VlanIsPlain(digits, "");
  }

  predicate AllPlainText(commands: seq<string>) {
    forall i :: 0 <= i < |commands| ==> Classify(commands[i]) == Plain
  }

  lemma {:induction false} OnePlain(command: string)
    requires Classify(command) == Plain
    ensures AllPlainText([command])
  {
  }

  lemma {:induction false} TwoPlain(first: string, second: string)
    requires Classify(first) == Plain && Classify(second) == Plain
    ensures AllPlainText([first, second])
  {
  }

  lemma {:induction false} GeneralPlain(general: bool, more: seq<string>)
    requires AllPlainText(more)
    ensures AllPlainText(GeneralMode(general) + more)
  {
    WordIsPlain("switchport mode general", "");
    assert "switchport mode general" + "" == "switchport mode general";
  }

  lemma {:induction false} TaggingPlain(vlan: nat, tagged: bool)
    ensures Classify(No(tagged) + VlanCmd("tagging", " " + Itoa(vlan))) == Plain
  {
    var tagging := VlanCmd("tagging", " " + Itoa(vlan));
    assert "" + tagging == tagging;
    VlanIsPlain("tagging", " " + Itoa(vlan));
    NoIsPlain(tagging);
  }

  lemma {:induction false} ParticipationPlain(vlan: nat, mode: VlanMode)
    ensures AllPlainText(Participation(vlan, mode))
  {
    if mode == Excluded {
      VlanIsPlain("participation", " exclude " + Itoa(vlan));
      OnePlain(VlanCmd("participation", " exclude " + Itoa(vlan)));
    } else {
      VlanIsPlain("participation", " include " + Itoa(vlan));
      TaggingPlain(vlan, mode == Tagged);
      TwoPlain(VlanCmd("participation", " include " + Itoa(vlan)), No(mode == Tagged) + VlanCmd("tagging", " " + Itoa(vlan)));
    }
  }

  lemma {:induction false} SwitchPlain(on: bool, word: string)
    requires word != "" && !IsSpace(word[|word| - 1])
    requires word[0] == 's' || word[0] == 'f' || word[0] == 'p' || word[0] == 'l'
    ensures Classify(No(on) + word) == Plain
  {
    assert "" + word == word && word + "" == word;
    NoIsPlain(word);
    WordIsPlain(word, "");
  }

  lemma {:induction false} VlanBodyPlain(general: bool, op: Operation)
    requires op.CreateVlan? || op.DeleteVlan? || op.SetMembership? || op.SetPvid?
    ensures AllPlainText(Body(general, op))
  {
    match op {
      case CreateVlan(vlan, name) =>
        VlanCreateIsPlain(vlan);
        VlanIsPlain("name", " " + Itoa(vlan) + " " + name);
        TwoPlain(VlanCmd(Itoa(vlan), ""), VlanCmd("name", " " + Itoa(vlan) + " " + name));
      case DeleteVlan(vlan) =>
        NoIsPlain(VlanCmd(Itoa(vlan), ""));
        OnePlain("no " + VlanCmd(Itoa(vlan), ""));
      case SetMembership(_, vlan, mode) =>
        ParticipationPlain(vlan, mode);
        GeneralPlain(general, Participation(vlan, mode));
      case SetPvid(_, vlan) =>
        VlanIsPlain("pvid", " " + Itoa(vlan));
        OnePlain(VlanCmd("pvid", " " + Itoa(vlan)));
        GeneralPlain(general, [VlanCmd("pvid", " " + Itoa(vlan))]);
    }
  }

  lemma {:induction false} DescriptionPlain(text: string)
    ensures Classify("no " + "description") == Plain && Classify("description" + (" '" + text + "'")) == Plain
  {
    NoIsPlain("description");
    WordIsPlain("description", " '" + text + "'");
  }

  /** Every other body is one command. */
  lemma {:induction false} LoneBodyPlain(general: bool, op: Operation)
    requires !op.CreateVlan? && !op.DeleteVlan? && !op.SetMembership? && !op.SetPvid?
    ensures AllPlainText(Body(general, op))
  {
    match op {
      case Describe(_, text) => DescriptionPlain(text);
      case AutoSpeed(_) => WordIsPlain("speed", " auto");
      case ForceSpeed(_, mbps, fullDuplex) =>
        WordIsPlain("speed", " " + Rate(mbps) + (if fullDuplex then " full-duplex" else " half-duplex"));
      case SetFlowControl(_, on) => SwitchPlain(on, "flowcontrol");
      case SetPoe(_, on) => SwitchPlain(on, "poe");
      case ResetPoe(_) => WordIsPlain("poe", " reset");
      case SetEnabled(_, on) => SwitchPlain(!on, "shutdown");
      case SetHostname(name) => WordIsPlain("hostname", " " + name);
      case SetSyslog(on) => SwitchPlain(on, "logging syslog");
      case AddCollector(line) => WordIsPlain("logging", " host \"" + line);
      case RemoveCollector(index) => WordIsPlain("logging", " host remove " + Itoa(index));
    }
    OnePlain(Body(general, op)[0]);
  }

  /** No body command of any operation, taken as one command, is a mode command,
      whatever names and texts are put in it. */
  lemma {:induction false} BodyPlain(general: bool, op: Operation)
    ensures AllPlainText(Body(general, op))
  {
    if op.CreateVlan? || op.DeleteVlan? || op.SetMembership? || op.SetPvid? {
      VlanBodyPlain(general, op);
    } else {
      LoneBodyPlain(general, op);
    }
  }

  /** An interface's name is one word. */
  lemma {:induction false} IfaceIsWord(n: Naming, port: nat)
    requires n == BASE || n == SMART
    ensures Iface(n, port) != "" && forall i :: 0 <= i < |Iface(n, port)| ==> !IsSpace(Iface(n, port)[i])
  {
    IfaceText(n, port);
  }

  /** Every entry command of an operation enters a mode. */
  lemma {:induction false} EntryEnters(n: Naming, op: Operation, d: Device)
    requires (n == BASE || n == SMART) && d.kind == Classify
    ensures AllEntries(d, Entry(n, op))
  {
    var iface := if |Entry(n, op)| == 2 then Iface(n, op.port) else "1";
    if |Entry(n, op)| == 2 {
      IfaceIsWord(n, op.port);
    }
    WriterCommands(iface);
  }

  /** Every operation of the writer, on a session that hands each command whole to the
      virtual command line, whatever that refuses and wherever: the mode stack is
      afterwards what it was, and the first refusal is the error. */
  method WriteInProcess(s: Session, interfaces: set<string>, others: (seq<string>, string) -> string, start: seq<Mode>,
                        n: Naming, general: bool, op: Operation)
    returns (f: Option<Failure>)
    requires Talks(s.answer, CliDevice(interfaces, others), start) && (n == BASE || n == SMART)
    modifies s`sent
    ensures ModesAfter(CliDevice(interfaces, others), start, s.sent) == ModesAfter(CliDevice(interfaces, others), start, old(s.sent))
    ensures f == Stopped(s.answer, old(s.sent), Entry(n, op) + Body(general, op))
  {
    ghost var d := CliDevice(interfaces, others);
    CliRefusesAloud(interfaces, others);
    EntryEnters(n, op, d);
    BodyPlain(general, op);
    TrimSolid("exit");
    f := BalancedInMode(s, CliDevice(interfaces, others), start, Entry(n, op), Body(general, op), "exit");
  }
}
