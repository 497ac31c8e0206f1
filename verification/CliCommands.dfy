/** What the configuration commands do to the virtual switch (virtual/cliface.go), and so
    what the writer's command lists ask for (fastpath/writer.go, fastpath/spec.go). */
module CliCommands {
  import opened Prelude
  import opened Decimal
  import opened Whitespace
  import opened PortNaming
  import opened WriterModes
  import ShellText

  // ------------------------------------------------------------------
  // The switch
  // ------------------------------------------------------------------

  datatype CliVlan = CliVlan(name: string, member: set<int>, untagged: set<int>)

  datatype CliPort = CliPort(
    switchportMode: string,
    locked: bool,                  // what a port without a switchport mode allows
    admin: bool,
    poe: bool,
    flow: bool,
    physicalMode: string,
    description: Option<string>)

  /** A remote logging collector: a row of a table whose indices are not its positions. */
  datatype Collector = Collector(host: string, port: int, severity: int, index: int)

  datatype Cfg = Cfg(
    vlans: map<int, CliVlan>,
    pvids: map<int, int>,
    ports: map<int, CliPort>,
    hostname: string,
    syslog: bool,
    collectors: seq<Collector>)

  /** What the model has. */
  datatype Hardware = Hardware(switchportModes: bool, poe: bool)

  /** Where a command is given: the VLAN database, configuration, or an interface. */
  datatype Place = Database | Global | Port(port: int)

  datatype Command =
    | MakeVlan(vid: int)
    | NameVlan(vid: int, name: string)
    | DropVlan(vid: int)
    | PortMode(word: string)
    | RestartPoe
    | Poe(on: bool)
    | Admin(on: bool)
    | Participate(vid: int, joins: bool)
    | Tagging(vid: int, tagged: bool)
    | Pvid(vid: int)
    | Flow(on: bool)
    | SpeedAuto
    | SpeedForced(rate: string, duplex: string)
    | Label(text: string)
    | NoLabel
    | Hostname(text: string)
    | Syslog(on: bool)
    | AddHost(host: string, digits: string, word: string)
    | RemoveHost(digits: string)

  // ------------------------------------------------------------------
  // Reading a command
  // ------------------------------------------------------------------

  /** strconv.Atoi on digits, its error ignored: too large a number is the largest. */
  function IdOf(digits: string): int
    requires Number(digits)
  {
    if Atoi(digits).Some? then Atoi(digits).value else MAX_INT
  }

  /** prefix(\d+)$ */
  function Numbered(c: string, prefix: string): Option<int> {
    if prefix <= c && Number(c[|prefix|..]) then Some(IdOf(c[|prefix|..])) else None
  }

  predicate OneWord(s: string) {
    s != "" && forall i :: 0 <= i < |s| ==> !ShellText.IsWs(s[i])
  }

  /** ^vlan name (\d+) (\S+)$ */
  function ReadName(c: string): Option<Command> {
    if !("vlan name " <= c) then None
    else
      var rest := c[10..];
      var n := DigitRun(rest);
      if n > 0 && n < |rest| && rest[n] == ' ' && OneWord(rest[n + 1..]) && Number(rest[..n])
      then Some(NameVlan(IdOf(rest[..n]), rest[n + 1..]))
      else None
  }

  /** vlanDBCommand's patterns. */
  function ReadDatabase(c: string): Option<Command> {
    if Numbered(c, "vlan ").Some? then Some(MakeVlan(Numbered(c, "vlan ").value))
    else if ReadName(c).Some? then ReadName(c)
    else if Numbered(c, "no vlan ").Some? then Some(DropVlan(Numbered(c, "no vlan ").value))
    else None
  }

  /** A word with or without "no " before it. */
  function Toggle(c: string, word: string): Option<bool> {
    if c == word then Some(true) else if c == "no " + word then Some(false) else None
  }

  /** ^speed (\d+G?) (full|half)-duplex$ */
  function ReadSpeed(c: string): Option<Command> {
    if !("speed " <= c) then None
    else
      var rest := c[6..];
      var n := DigitRun(rest);
      var k := if n < |rest| && rest[n] == 'G' then n + 1 else n;
      if n > 0 && rest[k..] == " full-duplex" then Some(SpeedForced(rest[..k], "full"))
      else if n > 0 && rest[k..] == " half-duplex" then Some(SpeedForced(rest[..k], "half"))
      else None
  }

  /** ^description '([^']*)'$ */
  function ReadLabel(c: string): Option<Command> {
    if "description '" <= c && |c| > 13 && c[|c| - 1] == '\'' && (forall i :: 13 <= i < |c| - 1 ==> c[i] != '\'')
    then Some(Label(c[13..|c| - 1]))
    else None
  }

  /** The VLAN patterns of interfaceCommand. */
  function ReadPortVlan(c: string): Option<Command> {
    if Numbered(c, "vlan participation include ").Some?
    then Some(Participate(Numbered(c, "vlan participation include ").value, true))
    else if Numbered(c, "vlan participation exclude ").Some?
    then Some(Participate(Numbered(c, "vlan participation exclude ").value, false))
    else if Numbered(c, "vlan tagging ").Some? then Some(Tagging(Numbered(c, "vlan tagging ").value, true))
    else if Numbered(c, "no vlan tagging ").Some? then Some(Tagging(Numbered(c, "no vlan tagging ").value, false))
    else if Numbered(c, "vlan pvid ").Some? then Some(Pvid(Numbered(c, "vlan pvid ").value))
    else None
  }

  /** interfaceCommand's patterns, no two of which match the same text. */
  function ReadInterface(c: string): Option<Command> {
    if c == "switchport mode access" then Some(PortMode("access"))
    else if c == "switchport mode general" then Some(PortMode("general"))
    else if c == "switchport mode trunk" then Some(PortMode("trunk"))
    else if c == "poe reset" then Some(RestartPoe)
    else if Toggle(c, "poe").Some? then Some(Poe(Toggle(c, "poe").value))
    else if Toggle(c, "shutdown").Some? then Some(Admin(!Toggle(c, "shutdown").value))
    else if Toggle(c, "flowcontrol").Some? then Some(Flow(Toggle(c, "flowcontrol").value))
    else if c == "speed auto" then Some(SpeedAuto)
    else if c == "no description" then Some(NoLabel)
    else if ReadPortVlan(c).Some? then ReadPortVlan(c)
    else if ReadSpeed(c).Some? then ReadSpeed(c)
    else ReadLabel(c)
  }

  /** strings.Trim(s, "\"") */
  function Unquoted(s: string): string {
    if s != "" && s[0] == '"' then Unquoted(s[1..])
    else if s != "" && s[|s| - 1] == '"' then Unquoted(s[..|s| - 1])
    else s
  }

  /** Where the first quote is. */
  function QuoteAt(s: string): (n: nat)
    ensures n <= |s|
  {
    if s == "" || s[0] == '"' then 0 else 1 + QuoteAt(s[1..])
  }

  predicate WordChars(s: string) {
    s != "" && forall i :: 0 <= i < |s| ==> IsDigit(s[i]) || 'a' <= s[i] <= 'z' || 'A' <= s[i] <= 'Z' || s[i] == '_'
  }

  function AfterKind(t: string): Option<string> {
    if " ipv4 " <= t || " ipv6 " <= t then Some(t[6..]) else if " dns " <= t then Some(t[5..]) else None
  }

  /** ^logging host "([^"]+)" (ipv4|ipv6|dns) (\d+) (\w+)$ */
  function ReadHost(c: string): Option<Command> {
    if !("logging host \"" <= c) then None
    else
      var rest := c[14..];
      var q := QuoteAt(rest);
      if q == 0 || q == |rest| || AfterKind(rest[q + 1..]).None? then None
      else
        var t := AfterKind(rest[q + 1..]).value;
        var n := DigitRun(t);
        if n > 0 && n < |t| && t[n] == ' ' && WordChars(t[n + 1..]) then Some(AddHost(rest[..q], t[..n], t[n + 1..])) else None
  }

  /** The patterns of configCommand in configuration that the writer's commands are for:
      ^hostname (.+)$, where a dot is no line feed, and those of remote logging. */
  function ReadGlobal(c: string): Option<Command> {
    if "hostname " <= c && |c| > 9 && '\n' !in c[9..] then Some(Hostname(Unquoted(TrimSpace(c[9..]))))
    else if Toggle(c, "logging syslog").Some? then Some(Syslog(Toggle(c, "logging syslog").value))
    else if ReadHost(c).Some? then ReadHost(c)
    else if "logging host remove " <= c && Number(c[20..]) then Some(RemoveHost(c[20..]))
    else None
  }

  function Read(place: Place, c: string): Option<Command> {
    match place
    case Database => ReadDatabase(c)
    case Global => ReadGlobal(c)
    case Port(_) => ReadInterface(c)
  }

  // ------------------------------------------------------------------
  // Doing it
  // ------------------------------------------------------------------

  datatype Outcome = Outcome(cfg: Cfg, said: string)

  function NoSuchVlan(vid: int): string {
    "ERROR: VLAN " + Itoa(if vid < 0 then 0 else vid) + " does not exist"
  }

  function NoSuchRow(index: int): string {
    "Error! Logging Host with index of " + Itoa(if index < 0 then 0 else index) + " is non-existent."
  }

  /** general: memberships can be changed on the port. */
  predicate General(p: CliPort) {
    if p.switchportMode != "" then p.switchportMode == "general" || p.switchportMode == "trunk" else !p.locked
  }

  function DoVlans(cfg: Cfg, command: Command): (r: Outcome)
    requires command.MakeVlan? || command.NameVlan? || command.DropVlan?
    ensures r.cfg.ports.Keys == cfg.ports.Keys
  {
    var vid := command.vid;
    match command
    case MakeVlan(_) => Outcome(if vid in cfg.vlans then cfg else cfg.(vlans := cfg.vlans[vid := CliVlan("", {}, {})]), "")
    case NameVlan(_, name) =>
      if vid !in cfg.vlans then Outcome(cfg, NoSuchVlan(vid))
      else Outcome(cfg.(vlans := cfg.vlans[vid := cfg.vlans[vid].(name := name)]), "")
    case DropVlan(_) =>
      if vid == 1 then Outcome(cfg, "ERROR: The default VLAN cannot be deleted")
      else if vid !in cfg.vlans then Outcome(cfg, NoSuchVlan(vid))
      else
        Outcome(cfg.(vlans := cfg.vlans - {vid},
                     pvids := map p | p in cfg.pvids :: if cfg.pvids[p] == vid then 1 else cfg.pvids[p]), "")
  }

  /** A membership command: accepted and without effect on a port that is not general. */
  function DoPortVlan(cfg: Cfg, port: int, command: Command): (r: Outcome)
    requires port in cfg.ports && (command.Participate? || command.Tagging? || command.Pvid?)
    ensures r.cfg.ports.Keys == cfg.ports.Keys
  {
    var vid := command.vid;
    if vid !in cfg.vlans then Outcome(cfg, NoSuchVlan(vid))
    else if !General(cfg.ports[port]) then Outcome(cfg, "")
    else
      var v := cfg.vlans[vid];
      match command
      case Participate(_, joins) =>
        if joins then
          Outcome(cfg.(vlans := cfg.vlans[vid := v.(member := v.member + {port}, untagged := v.untagged + {port})]), "")
        else
          Outcome(cfg.(vlans := cfg.vlans[vid := v.(member := v.member - {port}, untagged := v.untagged - {port})]), "")
      case Tagging(_, tagged) =>
        Outcome(cfg.(vlans := cfg.vlans[vid := v.(untagged := if tagged then v.untagged - {port} else v.untagged + {port})]), "")
      case Pvid(_) => Outcome(cfg.(pvids := cfg.pvids[port := vid]), "")
  }

  function WithPort(cfg: Cfg, port: int, p: CliPort): Outcome {
    Outcome(cfg.(ports := cfg.ports[port := p]), "")
  }

  /** A command about the port itself. */
  function DoPort(hw: Hardware, cfg: Cfg, port: int, command: Command): (r: Outcome)
    requires port in cfg.ports
    ensures r.cfg.ports.Keys == cfg.ports.Keys
  {
    var p := cfg.ports[port];
    match command
    case PortMode(word) => if hw.switchportModes then WithPort(cfg, port, p.(switchportMode := word)) else Outcome(cfg, CLI_INVALID)
    case RestartPoe => if hw.poe then WithPort(cfg, port, p.(poe := true)) else Outcome(cfg, CLI_INVALID)
    case Poe(on) => if hw.poe then WithPort(cfg, port, p.(poe := on)) else Outcome(cfg, CLI_INVALID)
    case Admin(on) => WithPort(cfg, port, p.(admin := on))
    case Flow(on) => WithPort(cfg, port, p.(flow := on))
    case SpeedAuto => WithPort(cfg, port, p.(physicalMode := "Auto"))
    case SpeedForced(rate, duplex) =>
      if rate == "1000" then Outcome(cfg, CLI_INVALID)
      else WithPort(cfg, port, p.(physicalMode := rate + (if duplex == "full" then " Full" else " Half")))
    case Label(text) => WithPort(cfg, port, p.(description := if text == "" then None else Some(text)))
    case NoLabel => WithPort(cfg, port, p.(description := None))
    case _ => Outcome(cfg, CLI_NOT_FOUND)
  }

  /** SyslogSeverity: the measured words, in any case. */
  function SeverityOf(name: string): Option<int> {
    var text := Lower(TrimSpace(name));
    if text == "emergency" then Some(0)
    else if text == "alert" then Some(1)
    else if text == "critical" then Some(2)
    else if text == "error" then Some(3)
    else if text == "warning" then Some(4)
    else if text == "notice" then Some(5)
    else if text == "info" || text == "informational" then Some(6)
    else if text == "debug" then Some(7)
    else None
  }

  /** The greatest index there is, or 0. */
  function TopIndex(collectors: seq<Collector>): (top: int)
    ensures top >= 0 && forall i :: 0 <= i < |collectors| ==> collectors[i].index <= top
  {
    if collectors == [] then 0
    else
      var n := |collectors| - 1;
      var top := TopIndex(collectors[..n]);
      assert forall i :: 0 <= i < n ==> collectors[..n][i] == collectors[i];
      if collectors[n].index > top then collectors[n].index else top
  }

  /** The collectors without the first one of an index. */
  function Without(collectors: seq<Collector>, index: int): seq<Collector> {
    if collectors == [] then []
    else if collectors[0].index == index then collectors[1..]
    else [collectors[0]] + Without(collectors[1..], index)
  }

  function DoLogging(cfg: Cfg, command: Command): (r: Outcome)
    requires command.AddHost? || command.RemoveHost?
    ensures r.cfg.ports.Keys == cfg.ports.Keys
  {
    match command
    case AddHost(host, digits, word) =>
      if SeverityOf(word).None? || Atoi(digits).None? then Outcome(cfg, CLI_INVALID)
      else
        var row := Collector(host, Atoi(digits).value, SeverityOf(word).value, TopIndex(cfg.collectors) + 1);
        Outcome(cfg.(collectors := cfg.collectors + [row]), "")
    case RemoveHost(digits) =>
      if Atoi(digits).None? then Outcome(cfg, CLI_INVALID)
      else if exists i :: 0 <= i < |cfg.collectors| && cfg.collectors[i].index == Atoi(digits).value
      then Outcome(cfg.(collectors := Without(cfg.collectors, Atoi(digits).value)), "")
      else Outcome(cfg, NoSuchRow(Atoi(digits).value))
  }

  function Do(hw: Hardware, cfg: Cfg, place: Place, command: Command): (r: Outcome)
    requires place.Port? ==> place.port in cfg.ports
    ensures r.cfg.ports.Keys == cfg.ports.Keys
  {
    match place
    case Database =>
      if command.MakeVlan? || command.NameVlan? || command.DropVlan? then DoVlans(cfg, command) else Outcome(cfg, CLI_NOT_FOUND)
    case Global =>
      if command.Hostname? then Outcome(cfg.(hostname := command.text), "")
      else if command.Syslog? then Outcome(cfg.(syslog := command.on), "")
      else if command.AddHost? || command.RemoveHost? then DoLogging(cfg, command)
      else Outcome(cfg, CLI_NOT_FOUND)
    case Port(port) =>
      if command.Participate? || command.Tagging? || command.Pvid? then DoPortVlan(cfg, port, command)
      else DoPort(hw, cfg, port, command)
  }

  /** One command as it is given. */
  function Give(hw: Hardware, cfg: Cfg, place: Place, text: string): (r: Outcome)
    requires place.Port? ==> place.port in cfg.ports
    ensures r.cfg.ports.Keys == cfg.ports.Keys
  {
    var command := Read(place, TrimSpace(text));
    if command.None? then Outcome(cfg, CLI_NOT_FOUND) else Do(hw, cfg, place, command.value)
  }

  /** Commands in turn, until one is refused. */
  function GiveAll(hw: Hardware, cfg: Cfg, place: Place, texts: seq<string>): (r: Outcome)
    requires place.Port? ==> place.port in cfg.ports
    ensures r.cfg.ports.Keys == cfg.ports.Keys
    decreases |texts|
  {
    if texts == [] then Outcome(cfg, "")
    else
      var o := Give(hw, cfg, place, texts[0]);
      if o.said != "" then o
      else GiveAll(hw, o.cfg, place, texts[1..])
  }

  // ------------------------------------------------------------------
  // The writer's commands, read
  // ------------------------------------------------------------------

  lemma {:induction false} NumberedIs(prefix: string, n: nat)
    requires prefix != "" && !IsSpace(prefix[0]) && n <= MAX_INT
    ensures Numbered(prefix + Itoa(n), prefix) == Some(n)
    ensures TrimSpace(prefix + Itoa(n)) == prefix + Itoa(n)
  {
    var c := prefix + Itoa(n);
    AtoiOfItoa(n);
    assert c[|prefix|..] == Itoa(n);
    assert c[0] == prefix[0] && c[|c| - 1] == Itoa(n)[|Itoa(n)| - 1];
    TrimSolid(c);
  }

  /** A text is not prefixed by what differs from it somewhere. */
  lemma {:induction false} NoPrefix(c: string, prefix: string, i: nat)
    requires i < |prefix| && (i < |c| ==> c[i] != prefix[i])
    ensures !(prefix <= c)
  {
  }

  lemma {:induction false} VlanText(word: string, verb: string, digits: string)
    ensures VlanCmd(word, verb + digits) == "vlan " + word + verb + digits
  {
    ConcatAssoc("vlan " + word, verb, digits);
  }

  lemma {:induction false} DatabaseReads(vid: nat)
    requires vid <= MAX_INT
    ensures ReadDatabase(TrimSpace(VlanCmd(Itoa(vid), ""))) == Some(MakeVlan(vid))
    ensures ReadDatabase(TrimSpace("no " + VlanCmd(Itoa(vid), ""))) == Some(DropVlan(vid))
  {
    var made, dropped := VlanCmd(Itoa(vid), ""), "no " + VlanCmd(Itoa(vid), "");
    assert made == "vlan " + Itoa(vid);
    NumberedIs("vlan ", vid);
    assert "no " + "vlan " == "no vlan ";
    ConcatAssoc("no ", "vlan ", Itoa(vid));
    NumberedIs("no vlan ", vid);
    NoPrefix(dropped, "vlan ", 0);
    NoPrefix(dropped, "vlan name ", 0);
  }

  lemma {:induction false} NameText(digits: string, name: string)
    ensures VlanCmd("name", " " + digits + " " + name) == "vlan name " + (digits + (" " + name))
  {
    var verb := " ";
    assert "vlan " + "name" + verb == "vlan name ";
    ConcatAssoc("vlan " + "name", verb + digits + " ", name);
    ConcatAssoc("vlan " + "name", verb + digits, " ");
    ConcatAssoc("vlan " + "name", verb, digits);
    ConcatAssoc("vlan name " + digits, " ", name);
    ConcatAssoc("vlan name ", digits, " " + name);
  }

  /** A number, a space, and a word. */
  lemma {:induction false} NameRead(c: string, digits: string, name: string)
    requires c == "vlan name " + (digits + (" " + name)) && Number(digits) && OneWord(name)
    ensures ReadDatabase(c) == Some(NameVlan(IdOf(digits), name))
  {
    var rest := digits + (" " + name);
    assert c[10..] == rest && c[5..][0] == 'n';
    DigitRunOf(digits, " " + name);
    assert rest[..|digits|] == digits && rest[|digits| + 1..] == name;
  }

  /** What is left of the command once the white space at its end is cut off. */
  lemma {:induction false} NameTrimmed(digits: string, name: string)
    requires Number(digits)
    ensures TrimSpace("vlan name " + (digits + (" " + name)))
         == "vlan name " + (digits + (if Blank(name) then "" else " " + TrimRight(name)))
  {
    var head := "vlan name " + digits;
    var c := "vlan name " + (digits + (" " + name));
    assert c == head + (" " + name);
    assert Blank(" " + name) <==> Blank(name) by {
      assert Blank(" " + name) ==> forall i :: 0 <= i < |name| ==> (" " + name)[i + 1] == name[i];
    }
    TrimRightConcat(head, " " + name);
    TrimRightConcat(" ", name);
    assert head[0] == 'v' && head[|head| - 1] == digits[|digits| - 1];
    assert TrimRight(head) == head;
    assert digits + "" == digits;
    if !Blank(name) {
      ConcatAssoc("vlan name ", digits, " " + TrimRight(name));
    }
  }

  /** A number, a space, and what is not one word. */
  lemma {:induction false} NameUnread(c: string, digits: string, tail: string)
    requires c == "vlan name " + (digits + tail) && Number(digits)
    requires tail == "" || (tail[0] == ' ' && !OneWord(tail[1..]))
    ensures ReadDatabase(c) == None
  {
    var rest := digits + tail;
    assert c[10..] == rest && c[5..][0] == 'n' && c[0] == 'v';
    DigitRunOf(digits, tail);
    if tail != "" {
      assert rest[|digits| + 1..] == tail[1..];
    }
    assert "no vlan "[0] == 'n';
  }

  /** A name is taken if it is one word, white space at its end aside. */
  lemma {:induction false} NameReads(vid: nat, name: string)
    requires vid <= MAX_INT
    ensures ReadDatabase(TrimSpace(VlanCmd("name", " " + Itoa(vid) + " " + name)))
         == if OneWord(TrimRight(name)) then Some(NameVlan(vid, TrimRight(name))) else None
  {
    var digits, word := Itoa(vid), TrimRight(name);
    NameText(digits, name);
    NameTrimmed(digits, name);
    AtoiOfItoa(vid);
    TrimRightConcat("", name);
    assert "" + name == name && "" + word == word;
    if OneWord(word) {
      NameRead("vlan name " + (digits + (" " + word)), digits, word);
    } else if Blank(name) {
      NameUnread("vlan name " + (digits + ""), digits, "");
    } else {
      assert (" " + word)[1..] == word;
      NameUnread("vlan name " + (digits + (" " + word)), digits, " " + word);
    }
  }

  lemma {:induction false} JoinText(vid: nat)
    ensures VlanCmd("participation", " include " + Itoa(vid)) == "vlan participation include " + Itoa(vid)
  {
    VlanText("participation", " include ", Itoa(vid));
    assert "vlan " + "participation" + " include " == "vlan participation include ";
  }

  lemma {:induction false} LeaveText(vid: nat)
    ensures VlanCmd("participation", " exclude " + Itoa(vid)) == "vlan participation exclude " + Itoa(vid)
  {
    VlanText("participation", " exclude ", Itoa(vid));
    assert "vlan " + "participation" + " exclude " == "vlan participation exclude ";
  }

  lemma {:induction false} PvidText(vid: nat)
    ensures VlanCmd("pvid", " " + Itoa(vid)) == "vlan pvid " + Itoa(vid)
  {
    VlanText("pvid", " ", Itoa(vid));
    assert "vlan " + "pvid" + " " == "vlan pvid ";
  }

  lemma {:induction false} Joins(vid: nat)
    requires vid <= MAX_INT
    ensures ReadPortVlan("vlan participation include " + Itoa(vid)) == Some(Participate(vid, true))
  {
    NumberedIs("vlan participation include ", vid);
  }

  lemma {:induction false} Leaves(vid: nat)
    requires vid <= MAX_INT
    ensures ReadPortVlan("vlan participation exclude " + Itoa(vid)) == Some(Participate(vid, false))
  {
    var c := "vlan participation exclude " + Itoa(vid);
    NumberedIs("vlan participation exclude ", vid);
    assert c[19] == 'e' && "vlan participation include "[19] == 'i';
    NoPrefix(c, "vlan participation include ", 19);
  }

  lemma {:induction false} Pvids(vid: nat)
    requires vid <= MAX_INT
    ensures ReadPortVlan("vlan pvid " + Itoa(vid)) == Some(Pvid(vid))
  {
    var c := "vlan pvid " + Itoa(vid);
    NumberedIs("vlan pvid ", vid);
    NotMembership(c);
  }

  lemma {:induction false} NotMembership(c: string)
    requires |c| > 6 && c[0] == 'v' && c[5] == 'p' && c[6] == 'v'
    ensures !("vlan participation include " <= c) && !("vlan participation exclude " <= c)
    ensures !("vlan tagging " <= c) && !("no vlan tagging " <= c)
  {
    assert "vlan participation include "[6] == 'a' && "vlan participation exclude "[6] == 'a';
    assert "vlan tagging "[5] == 't' && "no vlan tagging "[0] == 'n';
  }

  lemma {:induction false} TaggingYes(vid: nat)
    requires vid <= MAX_INT
    ensures ReadPortVlan("vlan tagging " + Itoa(vid)) == Some(Tagging(vid, true))
  {
    var c := "vlan tagging " + Itoa(vid);
    NumberedIs("vlan tagging ", vid);
    assert c[5] == 't' && "vlan participation include "[5] == 'p' && "vlan participation exclude "[5] == 'p';
    NoPrefix(c, "vlan participation include ", 5);
    NoPrefix(c, "vlan participation exclude ", 5);
  }

  lemma {:induction false} TaggingNo(vid: nat)
    requires vid <= MAX_INT
    ensures ReadPortVlan("no vlan tagging " + Itoa(vid)) == Some(Tagging(vid, false))
  {
    var c := "no vlan tagging " + Itoa(vid);
    NumberedIs("no vlan tagging ", vid);
    assert c[0] == 'n' && "vlan participation include "[0] == 'v' && "vlan participation exclude "[0] == 'v';
    NoPrefix(c, "vlan participation include ", 0);
    NoPrefix(c, "vlan participation exclude ", 0);
    NoPrefix(c, "vlan tagging ", 0);
  }

  lemma {:induction false} TagText(vid: nat, tagged: bool)
    ensures No(tagged) + VlanCmd("tagging", " " + Itoa(vid))
         == (if tagged then "vlan tagging " else "no vlan tagging ") + Itoa(vid)
  {
    VlanText("tagging", " ", Itoa(vid));
    var yes := VlanCmd("tagging", " " + Itoa(vid));
    assert "" + yes == yes;
    assert "vlan " + "tagging" + " " == "vlan tagging " && "no " + "vlan tagging " == "no vlan tagging ";
    ConcatAssoc("no ", "vlan tagging ", Itoa(vid));
  }

  /** No other pattern of an interface starts like one about VLANs. */
  lemma {:induction false} OnlyVlans(c: string)
    requires |c| > 3 && (c[0] == 'v' || (c[0] == 'n' && c[3] == 'v')) && ReadPortVlan(c).Some?
    ensures ReadInterface(c) == ReadPortVlan(c)
  {
    assert "switchport mode access"[0] == 's' && "switchport mode general"[0] == 's' && "switchport mode trunk"[0] == 's';
    assert "poe reset"[0] == 'p' && "speed auto"[0] == 's' && "no description"[0] == 'n' && "no description"[3] == 'd';
    NotToggle(c, "poe");
    NotToggle(c, "shutdown");
    NotToggle(c, "flowcontrol");
  }

  lemma {:induction false} NotToggle(c: string, word: string)
    requires |c| > 3 && (c[0] == 'v' || (c[0] == 'n' && c[3] == 'v')) && word != "" && word[0] != 'v' && word[0] != 'n'
    ensures Toggle(c, word).None?
  {
    assert ("no " + word)[0] == 'n' && ("no " + word)[3] == word[0];
  }

  lemma {:induction false} ToggleIs(word: string, on: bool)
    requires word != "" && !IsSpace(word[0]) && !IsSpace(word[|word| - 1]) && !("no " <= word)
    ensures TrimSpace(No(on) + word) == No(on) + word && Toggle(No(on) + word, word) == Some(on)
  {
    var c := No(on) + word;
    assert on ==> c == word;
    assert c[|c| - 1] == word[|word| - 1] && c[0] == if on then word[0] else 'n';
    TrimSolid(c);
    assert !on ==> |c| == |word| + 3;
  }

  // ------------------------------------------------------------------
  // What the lists do
  // ------------------------------------------------------------------

  /** A command read and accepted, then the rest. */
  lemma {:induction false} FirstGiven(hw: Hardware, cfg: Cfg, place: Place, text: string, command: Command, rest: seq<string>)
    requires place.Port? ==> place.port in cfg.ports
    requires Read(place, TrimSpace(text)) == Some(command) && Do(hw, cfg, place, command).said == ""
    ensures GiveAll(hw, cfg, place, [text] + rest) == GiveAll(hw, Do(hw, cfg, place, command).cfg, place, rest)
  {
    assert ([text] + rest)[1..] == rest;
  }

  /** One command only, accepted or not. */
  lemma {:induction false} OneGiven(hw: Hardware, cfg: Cfg, place: Place, text: string, command: Command)
    requires place.Port? ==> place.port in cfg.ports
    requires Read(place, TrimSpace(text)) == Some(command)
    ensures GiveAll(hw, cfg, place, [text]) == Do(hw, cfg, place, command)
  {
    assert [text][1..] == [];
  }

  lemma {:induction false} TwoGiven(hw: Hardware, cfg: Cfg, place: Place, a: string, first: Command, b: string, second: Command)
    requires place.Port? ==> place.port in cfg.ports
    requires Read(place, TrimSpace(a)) == Some(first) && Do(hw, cfg, place, first).said == ""
    requires Read(place, TrimSpace(b)) == Some(second)
    ensures GiveAll(hw, cfg, place, [a, b]) == Do(hw, Do(hw, cfg, place, first).cfg, place, second)
  {
    FirstGiven(hw, cfg, place, a, first, [b]);
    OneGiven(hw, Do(hw, cfg, place, first).cfg, place, b, second);
    assert [a] + [b] == [a, b];
  }

  /** One command about the port itself. */
  lemma {:induction false} PortGiven(hw: Hardware, cfg: Cfg, port: int, text: string, command: Command, p: CliPort)
    requires port in cfg.ports && ReadInterface(TrimSpace(text)) == Some(command)
    requires !command.Participate? && !command.Tagging? && !command.Pvid?
    requires DoPort(hw, cfg, port, command) == WithPort(cfg, port, p)
    ensures GiveAll(hw, cfg, Port(port), [text]) == Outcome(cfg.(ports := cfg.ports[port := p]), "")
  {
    OneGiven(hw, cfg, Port(port), text, command);
  }

  function ModeOf(v: CliVlan, port: int): VlanMode {
    if port !in v.member then Excluded else if port in v.untagged then Untagged else Tagged
  }

  /** A port's mode in one VLAN is changed and nothing else, in that VLAN or another. */
  ghost predicate OnlyMode(before: map<int, CliVlan>, after: map<int, CliVlan>, vid: int, port: int, mode: VlanMode) {
    && vid in before && after.Keys == before.Keys
    && (forall v :: v in before && v != vid ==> after[v] == before[v])
    && after[vid].name == before[vid].name && ModeOf(after[vid], port) == mode
    && (forall q :: q != port ==> ModeOf(after[vid], q) == ModeOf(before[vid], q))
  }

  lemma {:induction false} ParticipationGiven(hw: Hardware, cfg: Cfg, port: int, vid: nat, mode: VlanMode)
    requires port in cfg.ports && General(cfg.ports[port]) && vid in cfg.vlans && vid <= MAX_INT
    ensures var o := GiveAll(hw, cfg, Port(port), Participation(vid, mode));
            o.said == "" && o.cfg == cfg.(vlans := o.cfg.vlans) && OnlyMode(cfg.vlans, o.cfg.vlans, vid, port, mode)
  {
    if mode == Excluded {
      LeaveGiven(hw, cfg, port, vid);
    } else {
      JoinGiven(hw, cfg, port, vid, mode == Tagged);
    }
  }

  lemma {:induction false} JoinRead(vid: nat)
    requires vid <= MAX_INT
    ensures ReadInterface(TrimSpace(VlanCmd("participation", " include " + Itoa(vid)))) == Some(Participate(vid, true))
  {
    JoinText(vid);
    Joins(vid);
    NumberedIs("vlan participation include ", vid);
    OnlyVlans("vlan participation include " + Itoa(vid));
  }

  lemma {:induction false} LeaveRead(vid: nat)
    requires vid <= MAX_INT
    ensures ReadInterface(TrimSpace(VlanCmd("participation", " exclude " + Itoa(vid)))) == Some(Participate(vid, false))
  {
    LeaveText(vid);
    Leaves(vid);
    NumberedIs("vlan participation exclude ", vid);
    OnlyVlans("vlan participation exclude " + Itoa(vid));
  }

  lemma {:induction false} TagRead(vid: nat, tagged: bool)
    requires vid <= MAX_INT
    ensures ReadInterface(TrimSpace(No(tagged) + VlanCmd("tagging", " " + Itoa(vid)))) == Some(Tagging(vid, tagged))
  {
    TagText(vid, tagged);
    if tagged {
      TaggingYes(vid);
      NumberedIs("vlan tagging ", vid);
      OnlyVlans("vlan tagging " + Itoa(vid));
    } else {
      TaggingNo(vid);
      NumberedIs("no vlan tagging ", vid);
      OnlyVlans("no vlan tagging " + Itoa(vid));
    }
  }

  lemma {:induction false} LeaveGiven(hw: Hardware, cfg: Cfg, port: int, vid: nat)
    requires port in cfg.ports && General(cfg.ports[port]) && vid in cfg.vlans && vid <= MAX_INT
    ensures var o := GiveAll(hw, cfg, Port(port), Participation(vid, Excluded));
            o.said == "" && o.cfg == cfg.(vlans := o.cfg.vlans) && OnlyMode(cfg.vlans, o.cfg.vlans, vid, port, Excluded)
  {
    LeaveRead(vid);
    OneGiven(hw, cfg, Port(port), VlanCmd("participation", " exclude " + Itoa(vid)), Participate(vid, false));
  }

  lemma {:induction false} JoinGiven(hw: Hardware, cfg: Cfg, port: int, vid: nat, tagged: bool)
    requires port in cfg.ports && General(cfg.ports[port]) && vid in cfg.vlans && vid <= MAX_INT
    ensures var mode := if tagged then Tagged else Untagged;
            var o := GiveAll(hw, cfg, Port(port), Participation(vid, mode));
            o.said == "" && o.cfg == cfg.(vlans := o.cfg.vlans) && OnlyMode(cfg.vlans, o.cfg.vlans, vid, port, mode)
  {
    var join, tag := VlanCmd("participation", " include " + Itoa(vid)), No(tagged) + VlanCmd("tagging", " " + Itoa(vid));
    JoinRead(vid);
    TagRead(vid, tagged);
    TwoGiven(hw, cfg, Port(port), join, Participate(vid, true), tag, Tagging(vid, tagged));
  }

  lemma {:induction false} GeneralGiven(hw: Hardware, cfg: Cfg, port: int, rest: seq<string>)
    requires port in cfg.ports && hw.switchportModes
    ensures var general := cfg.(ports := cfg.ports[port := cfg.ports[port].(switchportMode := "general")]);
            GiveAll(hw, cfg, Port(port), GeneralMode(true) + rest) == GiveAll(hw, general, Port(port), rest)
  {
    var c := "switchport mode general";
    TrimSolid(c);
    assert "switchport mode access"[16] == 'a' && c[16] == 'g';
    FirstGiven(hw, cfg, Port(port), c, PortMode("general"), rest);
  }

  /** The configuration once the port is in the mode the writer needs. */
  function Ready(cfg: Cfg, port: int, general: bool): Cfg
    requires port in cfg.ports
  {
    if general then cfg.(ports := cfg.ports[port := cfg.ports[port].(switchportMode := "general")]) else cfg
  }

  lemma {:induction false} ReadyGiven(hw: Hardware, cfg: Cfg, port: int, general: bool, rest: seq<string>)
    requires port in cfg.ports && general == hw.switchportModes
    ensures GiveAll(hw, cfg, Port(port), GeneralMode(general) + rest) == GiveAll(hw, Ready(cfg, port, general), Port(port), rest)
  {
    if general {
      GeneralGiven(hw, cfg, port, rest);
    } else {
      assert [] + rest == rest;
    }
  }

  /** Setting a membership: on a model whose mode commands the writer knows, and a port
      that allows it, the port has the mode asked for, and nothing else has changed but
      the port's own mode. */
  lemma {:induction false} MembershipBody(hw: Hardware, cfg: Cfg, general: bool, port: nat, vid: nat, mode: VlanMode)
    requires port in cfg.ports && vid in cfg.vlans && vid <= MAX_INT && general == hw.switchportModes
    requires general || General(cfg.ports[port])
    ensures var o := GiveAll(hw, cfg, Port(port), Body(general, SetMembership(port, vid, mode)));
            && o.said == "" && OnlyMode(cfg.vlans, o.cfg.vlans, vid, port, mode)
            && o.cfg == Ready(cfg, port, general).(vlans := o.cfg.vlans)
  {
    ReadyGiven(hw, cfg, port, general, Participation(vid, mode));
    ParticipationGiven(hw, Ready(cfg, port, general), port, vid, mode);
  }

  lemma {:induction false} PvidRead(vid: nat)
    requires vid <= MAX_INT
    ensures ReadInterface(TrimSpace(VlanCmd("pvid", " " + Itoa(vid)))) == Some(Pvid(vid))
  {
    PvidText(vid);
    Pvids(vid);
    NumberedIs("vlan pvid ", vid);
    OnlyVlans("vlan pvid " + Itoa(vid));
  }

  lemma {:induction false} PvidDone(hw: Hardware, cfg: Cfg, general: bool, port: nat, vid: nat, texts: seq<string>)
    requires port in cfg.ports && vid <= MAX_INT && general == hw.switchportModes
    requires general || General(cfg.ports[port])
    requires texts == GeneralMode(general) + [VlanCmd("pvid", " " + Itoa(vid))]
    ensures var o := GiveAll(hw, cfg, Port(port), texts);
            && (o.said == "" <==> vid in cfg.vlans)
            && o.cfg == Ready(cfg, port, general).(pvids := if vid in cfg.vlans then cfg.pvids[port := vid] else cfg.pvids)
  {
    var c := VlanCmd("pvid", " " + Itoa(vid));
    ReadyGiven(hw, cfg, port, general, [c]);
    PvidRead(vid);
    PvidGiven(hw, Ready(cfg, port, general), port, vid, c);
  }

  /** Setting a PVID: that port's, to a VLAN there is. A VLAN there is not is refused. */
  lemma {:induction false} PvidBody(hw: Hardware, cfg: Cfg, general: bool, port: nat, vid: nat)
    requires port in cfg.ports && vid <= MAX_INT && general == hw.switchportModes
    requires general || General(cfg.ports[port])
    ensures var o := GiveAll(hw, cfg, Port(port), Body(general, SetPvid(port, vid)));
            && (o.said == "" <==> vid in cfg.vlans)
            && o.cfg == Ready(cfg, port, general).(pvids := if vid in cfg.vlans then cfg.pvids[port := vid] else cfg.pvids)
  {
    PvidDone(hw, cfg, general, port, vid, Body(general, SetPvid(port, vid)));
  }

  lemma {:induction false} PvidGiven(hw: Hardware, cfg: Cfg, port: nat, vid: nat, c: string)
    requires port in cfg.ports && General(cfg.ports[port]) && ReadInterface(TrimSpace(c)) == Some(Pvid(vid))
    ensures var o := GiveAll(hw, cfg, Port(port), [c]);
            && (o.said == "" <==> vid in cfg.vlans)
            && o.cfg == cfg.(pvids := if vid in cfg.vlans then cfg.pvids[port := vid] else cfg.pvids)
  {
    OneGiven(hw, cfg, Port(port), c, Pvid(vid));
  }

  lemma {:induction false} InertLeave(hw: Hardware, cfg: Cfg, port: nat, vid: nat, texts: seq<string>)
    requires port in cfg.ports && vid in cfg.vlans && vid <= MAX_INT && !General(cfg.ports[port])
    requires texts == Participation(vid, Excluded)
    ensures GiveAll(hw, cfg, Port(port), texts) == Outcome(cfg, "")
  {
    LeaveRead(vid);
    OneGiven(hw, cfg, Port(port), texts[0], Participate(vid, false));
    assert texts == [texts[0]];
  }

  lemma {:induction false} InertJoin(hw: Hardware, cfg: Cfg, port: nat, vid: nat, tagged: bool, texts: seq<string>)
    requires port in cfg.ports && vid in cfg.vlans && vid <= MAX_INT && !General(cfg.ports[port])
    requires texts == Participation(vid, if tagged then Tagged else Untagged)
    ensures GiveAll(hw, cfg, Port(port), texts) == Outcome(cfg, "")
  {
    JoinRead(vid);
    TagRead(vid, tagged);
    TwoGiven(hw, cfg, Port(port), texts[0], Participate(vid, true), texts[1], Tagging(vid, tagged));
    assert texts == [texts[0], texts[1]];
  }

  /** On a port that is not general, and a model without modes to put it in, all of it
      is accepted and nothing happens: only reading back can tell. */
  lemma {:induction false} AcceptedWithoutEffect(hw: Hardware, cfg: Cfg, port: nat, vid: nat, mode: VlanMode)
    requires port in cfg.ports && vid in cfg.vlans && vid <= MAX_INT && !General(cfg.ports[port])
    ensures GiveAll(hw, cfg, Port(port), Body(false, SetMembership(port, vid, mode))) == Outcome(cfg, "")
  {
    var body := Participation(vid, mode);
    assert [] + body == body;
    if mode == Excluded {
      InertLeave(hw, cfg, port, vid, body);
    } else {
      InertJoin(hw, cfg, port, vid, mode == Tagged, body);
    }
  }

  /** The VLAN as it is, or a new one. */
  function VlanOr(cfg: Cfg, vid: int): CliVlan {
    if vid in cfg.vlans then cfg.vlans[vid] else CliVlan("", {}, {})
  }

  lemma {:induction false} MakeThenName(cfg: Cfg, vid: int, name: string)
    ensures var made := DoVlans(cfg, MakeVlan(vid));
            && made == Outcome(cfg.(vlans := cfg.vlans[vid := VlanOr(cfg, vid)]), "")
            && DoVlans(made.cfg, NameVlan(vid, name))
               == Outcome(cfg.(vlans := cfg.vlans[vid := VlanOr(cfg, vid).(name := name)]), "")
  {
    var v := VlanOr(cfg, vid);
    var made := DoVlans(cfg, MakeVlan(vid)).cfg.vlans;
    assert made == cfg.vlans[vid := v];
    assert made[vid := v.(name := name)] == cfg.vlans[vid := v.(name := name)];
  }

  lemma {:induction false} CreateDone(hw: Hardware, cfg: Cfg, vid: nat, name: string, texts: seq<string>)
    requires vid <= MAX_INT && OneWord(TrimRight(name))
    requires texts == [VlanCmd(Itoa(vid), ""), VlanCmd("name", " " + Itoa(vid) + " " + name)]
    ensures GiveAll(hw, cfg, Database, texts)
         == Outcome(cfg.(vlans := cfg.vlans[vid := VlanOr(cfg, vid).(name := TrimRight(name))]), "")
  {
    DatabaseReads(vid);
    NameReads(vid, name);
    MakeThenName(cfg, vid, TrimRight(name));
    assert Do(hw, cfg, Database, MakeVlan(vid)) == DoVlans(cfg, MakeVlan(vid));
    TwoGiven(hw, cfg, Database, texts[0], MakeVlan(vid), texts[1], NameVlan(vid, TrimRight(name)));
  }

  lemma {:induction false} CreateUnnamed(hw: Hardware, cfg: Cfg, vid: nat, name: string, texts: seq<string>)
    requires vid <= MAX_INT && !OneWord(TrimRight(name))
    requires texts == [VlanCmd(Itoa(vid), ""), VlanCmd("name", " " + Itoa(vid) + " " + name)]
    ensures GiveAll(hw, cfg, Database, texts)
         == Outcome(cfg.(vlans := cfg.vlans[vid := VlanOr(cfg, vid)]), CLI_NOT_FOUND)
  {
    DatabaseReads(vid);
    NameReads(vid, name);
    MakeThenName(cfg, vid, name);
    var made := Do(hw, cfg, Database, MakeVlan(vid));
    assert made == DoVlans(cfg, MakeVlan(vid));
    FirstGiven(hw, cfg, Database, texts[0], MakeVlan(vid), [texts[1]]);
    Unread(hw, made.cfg, Database, [texts[1]]);
    assert texts == [texts[0]] + [texts[1]];
  }

  /** Creating a VLAN: it is there, with its members if it was there before, and no other
      changes. It has the name asked for, white space at the end cut off, if that is one
      word; otherwise the name is refused and the VLAN is there all the same. */
  lemma {:induction false} CreateBody(hw: Hardware, cfg: Cfg, general: bool, vid: nat, name: string)
    requires vid <= MAX_INT
    ensures var v := VlanOr(cfg, vid);
            GiveAll(hw, cfg, Database, Body(general, CreateVlan(vid, name)))
            == if OneWord(TrimRight(name)) then Outcome(cfg.(vlans := cfg.vlans[vid := v.(name := TrimRight(name))]), "")
               else Outcome(cfg.(vlans := cfg.vlans[vid := v]), CLI_NOT_FOUND)
  {
    if OneWord(TrimRight(name)) {
      CreateDone(hw, cfg, vid, name, Body(general, CreateVlan(vid, name)));
    } else {
      CreateUnnamed(hw, cfg, vid, name, Body(general, CreateVlan(vid, name)));
    }
  }

  /** Deleting one: it is gone, and the ports that had it as their PVID are on VLAN 1;
      VLAN 1, and one that is not there, are refused. */
  lemma {:induction false} DeleteBody(hw: Hardware, cfg: Cfg, general: bool, vid: nat)
    requires vid <= MAX_INT
    ensures var o := GiveAll(hw, cfg, Database, Body(general, DeleteVlan(vid)));
            && (o.said == "" <==> vid != 1 && vid in cfg.vlans)
            && (o.said != "" ==> o.cfg == cfg)
            && (o.said == "" ==>
                  && o.cfg == cfg.(vlans := cfg.vlans - {vid}, pvids := o.cfg.pvids) && o.cfg.pvids.Keys == cfg.pvids.Keys
                  && forall p :: p in cfg.pvids ==> o.cfg.pvids[p] == if cfg.pvids[p] == vid then 1 else cfg.pvids[p])
  {
    DatabaseReads(vid);
    OneGiven(hw, cfg, Database, "no " + VlanCmd(Itoa(vid), ""), DropVlan(vid));
  }

  // ------------------------------------------------------------------
  // Speeds, labels and switches
  // ------------------------------------------------------------------

  /** The texts of the bodies that switch something. */
  lemma {:induction false} SwitchTexts(general: bool, port: nat, on: bool)
    ensures Body(general, SetFlowControl(port, on)) == [No(on) + "flowcontrol"]
    ensures Body(general, SetEnabled(port, on)) == [No(!on) + "shutdown"]
    ensures Body(general, SetPoe(port, on)) == [No(on) + "poe"] && Body(general, ResetPoe(port)) == ["poe" + " reset"]
    ensures Body(general, SetSyslog(on)) == [No(on) + "logging syslog"]
    ensures Body(general, AutoSpeed(port)) == ["speed" + " auto"]
  {
  }

  /** The patterns about VLANs begin with v or n. */
  lemma {:induction false} NoPortVlan(c: string)
    requires c != "" && c[0] != 'v' && c[0] != 'n'
    ensures ReadPortVlan(c).None?
  {
    NoPrefix(c, "vlan participation include ", 0);
    NoPrefix(c, "vlan participation exclude ", 0);
    NoPrefix(c, "vlan tagging ", 0);
    NoPrefix(c, "no vlan tagging ", 0);
    NoPrefix(c, "vlan pvid ", 0);
  }

  lemma {:induction false} OtherToggle(c: string, word: string)
    requires c != "" && word != "" && c[0] != 'n' && c[0] != word[0]
    ensures Toggle(c, word).None?
  {
  }

  lemma {:induction false} NoOtherSpeed(c: string)
    requires |c| > 6 && c[0] == 's' && c[1] == 'p' && c[6] != 'a'
    ensures c != "switchport mode access" && c != "switchport mode general" && c != "switchport mode trunk"
    ensures c != "poe reset" && c != "speed auto" && c != "no description"
    ensures Toggle(c, "poe").None? && Toggle(c, "shutdown").None? && Toggle(c, "flowcontrol").None?
  {
    assert "switchport mode access"[1] == 'w' && "switchport mode general"[1] == 'w' && "switchport mode trunk"[1] == 'w';
    assert "poe reset"[0] == 'p' && "speed auto"[6] == 'a' && "no description"[0] == 'n';
    assert "shutdown"[1] == 'h' && ("no " + "shutdown")[0] == 'n';
    OtherToggle(c, "poe");
    OtherToggle(c, "flowcontrol");
  }

  lemma {:induction false} OnlySpeed(c: string)
    requires |c| > 6 && c[0] == 's' && c[1] == 'p' && c[6] != 'a' && ReadSpeed(c).Some?
    ensures ReadInterface(c) == ReadSpeed(c)
  {
    NoOtherSpeed(c);
    NoPortVlan(c);
  }

  /** The rate in front of a duplex word. */
  lemma {:induction false} RateRun(digits: string, unit: string, tail: string)
    requires Number(digits) && (unit == "G" || unit == "") && tail != "" && tail[0] == ' '
    ensures var rest := digits + (unit + tail);
            var n := DigitRun(rest);
            var k := if n < |rest| && rest[n] == 'G' then n + 1 else n;
            n > 0 && rest[..k] == digits + unit && rest[k..] == tail
  {
    DigitRunOf(digits, unit + tail);
    ConcatAssoc(digits, unit, tail);
  }

  lemma {:induction false} SpeedRead(c: string, digits: string, unit: string, tail: string)
    requires Number(digits) && (unit == "G" || unit == "")
    requires (tail == " full-duplex" || tail == " half-duplex") && c == "speed " + (digits + (unit + tail))
    ensures ReadSpeed(c) == Some(SpeedForced(digits + unit, if tail == " full-duplex" then "full" else "half"))
  {
    var rest := digits + (unit + tail);
    assert c[6..] == rest && "speed " <= c;
    assert tail[0] == ' ';
    RateRun(digits, unit, tail);
    SpeedParts(c, rest, digits + unit, tail);
  }

  lemma {:induction false} SpeedParts(c: string, rest: string, rate: string, tail: string)
    requires "speed " <= c && c[6..] == rest && (tail == " full-duplex" || tail == " half-duplex")
    requires var n := DigitRun(rest);
             var k := if n < |rest| && rest[n] == 'G' then n + 1 else n;
             n > 0 && rest[..k] == rate && rest[k..] == tail
    ensures ReadSpeed(c) == Some(SpeedForced(rate, if tail == " full-duplex" then "full" else "half"))
  {
  }

  lemma {:induction false} RateParts(mbps: nat) returns (digits: string, unit: string)
    ensures Number(digits) && (unit == "G" || unit == "") && Rate(mbps) == digits + unit
  {
    if mbps >= 1000 && mbps % 1000 == 0 {
      digits, unit := Itoa(mbps / 1000), "G";
    } else {
      digits, unit := Itoa(mbps), "";
      assert Itoa(mbps) + "" == Itoa(mbps);
    }
  }

  lemma {:induction false} ThousandValue()
    ensures AllDigits("1000") && Value("1000") == 1000
  {
    assert "1000"[..3] == "100" && "100"[..2] == "10" && "10"[..1] == "1" && "1"[..0] == "";
    assert Value("1") == 1;
    assert Value("10") == 10;
    assert Value("100") == 100;
  }

  /** The writer never asks for the rate the switch refuses: it spells it 1G. */
  lemma {:induction false} RateIsNotThousand(mbps: nat)
    ensures Rate(mbps) != "1000"
  {
    var rate := Rate(mbps);
    if mbps >= 1000 && mbps % 1000 == 0 {
      assert rate[|rate| - 1] == 'G' && "1000"[3] == '0';
    } else if rate == "1000" {
      ThousandValue();
      ValueOfItoa(mbps);
    }
  }

  lemma {:induction false} ForcedText(rate: string, fullDuplex: bool)
    ensures "speed" + (" " + rate + (if fullDuplex then " full-duplex" else " half-duplex"))
         == "speed " + (rate + (if fullDuplex then " full-duplex" else " half-duplex"))
  {
    var tail := if fullDuplex then " full-duplex" else " half-duplex";
    ConcatAssoc("speed", " " + rate, tail);
    ConcatAssoc("speed", " ", rate);
    assert "speed" + " " == "speed ";
    ConcatAssoc("speed ", rate, tail);
  }

  lemma {:induction false} SpeedSolid(c: string, rest: string)
    requires c == "speed " + rest && |rest| > 1 && IsDigit(rest[0]) && rest[|rest| - 1] == 'x'
    ensures TrimSpace(c) == c && |c| > 6 && c[0] == 's' && c[1] == 'p' && c[6] != 'a'
  {
    assert c[6] == rest[0] && c[|c| - 1] == rest[|rest| - 1];
    TrimSolid(c);
  }

  lemma {:induction false} ForcedRead(mbps: nat, c: string, tail: string)
    requires (tail == " full-duplex" || tail == " half-duplex") && c == "speed " + (Rate(mbps) + tail)
    ensures ReadInterface(TrimSpace(c)) == Some(SpeedForced(Rate(mbps), if tail == " full-duplex" then "full" else "half"))
  {
    var digits, unit := RateParts(mbps);
    assert tail[|tail| - 1] == 'x';
    SpeedSolid(c, Rate(mbps) + tail);
    ConcatAssoc(digits, unit, tail);
    SpeedRead(c, digits, unit, tail);
    OnlySpeed(c);
  }

  lemma {:induction false} DuplexWords()
    ensures " full-duplex" != " half-duplex"
  {
    assert " full-duplex"[1] == 'f' && " half-duplex"[1] == 'h';
  }

  /** Forcing a speed: the port's configured mode reads back as the rate and duplex asked
      for, whatever the rate, and no other port's changes. */
  lemma {:induction false} SpeedBody(hw: Hardware, cfg: Cfg, general: bool, port: nat, mbps: nat, fullDuplex: bool)
    requires port in cfg.ports && mbps <= MAX_INT
    ensures var mode := Shown(mbps, fullDuplex);
            && ParsePhysicalMode(mode) == Some(Forced(mbps, fullDuplex))
            && GiveAll(hw, cfg, Port(port), Body(general, ForceSpeed(port, mbps, fullDuplex)))
               == Outcome(cfg.(ports := cfg.ports[port := cfg.ports[port].(physicalMode := mode)]), "")
  {
    var c := Body(general, ForceSpeed(port, mbps, fullDuplex))[0];
    ForcedText(Rate(mbps), fullDuplex);
    DuplexWords();
    ForcedRead(mbps, c, if fullDuplex then " full-duplex" else " half-duplex");
    RateIsNotThousand(mbps);
    ModeReadsBack(mbps, fullDuplex);
    ForcedDone(hw, cfg, port, mbps, fullDuplex);
    PortGiven(hw, cfg, port, c, SpeedForced(Rate(mbps), if fullDuplex then "full" else "half"),
              cfg.ports[port].(physicalMode := Shown(mbps, fullDuplex)));
  }

  lemma {:induction false} ForcedDone(hw: Hardware, cfg: Cfg, port: nat, mbps: nat, fullDuplex: bool)
    requires port in cfg.ports && Rate(mbps) != "1000"
    ensures DoPort(hw, cfg, port, SpeedForced(Rate(mbps), if fullDuplex then "full" else "half"))
         == WithPort(cfg, port, cfg.ports[port].(physicalMode := Shown(mbps, fullDuplex)))
  {
    assert "full"[0] == 'f' && "half"[0] == 'h';
  }

  lemma {:induction false} AutoRead()
    ensures ReadInterface(TrimSpace("speed" + " auto")) == Some(SpeedAuto)
  {
    var c := "speed" + " auto";
    assert c == "speed auto";
    TrimSolid(c);
    assert "switchport mode access"[1] == 'w' && "switchport mode general"[1] == 'w' && "switchport mode trunk"[1] == 'w';
    assert c[0] == 's' && c[1] == 'p' && "poe reset"[0] == 'p' && "shutdown"[1] == 'h' && "no shutdown"[0] == 'n';
    OtherToggle(c, "poe");
    OtherToggle(c, "flowcontrol");
  }

  lemma {:induction false} AutoDone(hw: Hardware, cfg: Cfg, port: int, texts: seq<string>)
    requires port in cfg.ports && texts == ["speed" + " auto"]
    ensures GiveAll(hw, cfg, Port(port), texts)
         == Outcome(cfg.(ports := cfg.ports[port := cfg.ports[port].(physicalMode := "Auto")]), "")
  {
    AutoRead();
    PortGiven(hw, cfg, port, "speed" + " auto", SpeedAuto, cfg.ports[port].(physicalMode := "Auto"));
  }

  /** Leaving it to the port reads back as that. */
  lemma {:induction false} AutoBody(hw: Hardware, cfg: Cfg, general: bool, port: nat)
    requires port in cfg.ports
    ensures ParsePhysicalMode("Auto") == Some(Auto)
    ensures GiveAll(hw, cfg, Port(port), Body(general, AutoSpeed(port)))
         == Outcome(cfg.(ports := cfg.ports[port := cfg.ports[port].(physicalMode := "Auto")]), "")
  {
    AutoReads();
    SwitchTexts(general, port, true);
    AutoDone(hw, cfg, port, Body(general, AutoSpeed(port)));
  }

  lemma {:induction false} AutoReads()
    ensures ParsePhysicalMode("Auto") == Some(Auto)
  {
    TrimSolid("Auto");
    assert Lower("Auto") == "auto";
  }

  lemma {:induction false} LabelRead(text: string)
    requires '\'' !in text
    ensures text != "" ==> ReadInterface(TrimSpace("description" + (" '" + text + "'"))) == Some(Label(text))
    ensures ReadInterface(TrimSpace("no description")) == Some(NoLabel)
  {
    var c := "description" + (" '" + text + "'");
    assert c[0] == 'd' && c[|c| - 1] == '\'';
    TrimSolid(c);
    OnlyLabel(c);
    assert "description" + " '" == "description '";
    ConcatAssoc("description", " '" + text, "'");
    ConcatAssoc("description", " '", text);
    assert c == "description '" + text + "'" && c[13..|c| - 1] == text;
    assert forall i :: 13 <= i < |c| - 1 ==> c[i] == text[i - 13];
    NoLabelRead();
  }

  lemma {:induction false} OnlyLabel(c: string)
    requires c != "" && c[0] == 'd'
    ensures ReadInterface(c) == ReadLabel(c)
  {
    assert "switchport mode access"[0] == 's' && "switchport mode general"[0] == 's' && "switchport mode trunk"[0] == 's';
    assert "poe reset"[0] == 'p' && "speed auto"[0] == 's' && "no description"[0] == 'n' && "speed "[0] == 's';
    OtherToggle(c, "poe");
    OtherToggle(c, "shutdown");
    OtherToggle(c, "flowcontrol");
    NoPortVlan(c);
  }

  lemma {:induction false} NoLabelRead()
    ensures ReadInterface(TrimSpace("no description")) == Some(NoLabel)
  {
    var c := "no description";
    TrimSolid(c);
    assert c[0] == 'n' && c[3] == 'd';
    assert "switchport mode access"[0] == 's' && "switchport mode general"[0] == 's' && "switchport mode trunk"[0] == 's';
    assert "poe reset"[0] == 'p' && "speed auto"[0] == 's' && "no poe"[3] == 'p' && "no shutdown"[3] == 's' && "no flowcontrol"[3] == 'f';
  }

  lemma {:induction false} DescribeText(general: bool, port: nat, text: string)
    ensures Body(general, Describe(port, text))
         == [if text == "" then "no description" else "description" + (" '" + text + "'")]
  {
    assert "no " + "description" == "no description";
  }

  lemma {:induction false} LabelGiven(hw: Hardware, cfg: Cfg, port: int, c: string, command: Command, shown: Option<string>)
    requires port in cfg.ports && ReadInterface(TrimSpace(c)) == Some(command)
    requires if command.Label? then command.text != "" && shown == Some(command.text) else command.NoLabel? && shown == None
    ensures GiveAll(hw, cfg, Port(port), [c])
         == Outcome(cfg.(ports := cfg.ports[port := cfg.ports[port].(description := shown)]), "")
  {
    PortGiven(hw, cfg, port, c, command, cfg.ports[port].(description := shown));
  }

  lemma {:induction false} LabelDone(hw: Hardware, cfg: Cfg, port: int, text: string, texts: seq<string>)
    requires port in cfg.ports && '\'' !in text
    requires texts == [if text == "" then "no description" else "description" + (" '" + text + "'")]
    ensures GiveAll(hw, cfg, Port(port), texts)
         == Outcome(cfg.(ports := cfg.ports[port := cfg.ports[port].(description := if text == "" then None else Some(text))]), "")
  {
    LabelRead(text);
    if text == "" {
      LabelGiven(hw, cfg, port, "no description", NoLabel, None);
    } else {
      LabelGiven(hw, cfg, port, "description" + (" '" + text + "'"), Label(text), Some(text));
    }
  }

  lemma {:induction false} QuotedRefused(text: string)
    requires '\'' in text
    ensures ReadInterface(TrimSpace("description" + (" '" + text + "'"))) == None
  {
    var c := "description" + (" '" + text + "'");
    assert c[0] == 'd' && c[|c| - 1] == '\'';
    TrimSolid(c);
    OnlyLabel(c);
    var k :| 0 <= k < |text| && text[k] == '\'';
    assert c[13 + k] == text[k] && 13 + k < |c| - 1;
  }

  lemma {:induction false} Unread(hw: Hardware, cfg: Cfg, place: Place, texts: seq<string>)
    requires place.Port? ==> place.port in cfg.ports
    requires |texts| == 1 && Read(place, TrimSpace(texts[0])).None?
    ensures GiveAll(hw, cfg, place, texts) == Outcome(cfg, CLI_NOT_FOUND)
  {
    NotFoundSaysSo();
  }

  lemma {:induction false} NotFoundSaysSo()
    ensures CLI_NOT_FOUND != ""
  {
    assert |CLI_NOT_FOUND| > |"Command not found / "|;
  }

  /** Describing a port: the text it is given, or none, is stored whole. A text with a
      quote in it is refused, and nothing changes. */
  lemma {:induction false} DescribeBody(hw: Hardware, cfg: Cfg, general: bool, port: nat, text: string)
    requires port in cfg.ports
    ensures var shown := if text == "" then None else Some(text);
            GiveAll(hw, cfg, Port(port), Body(general, Describe(port, text)))
            == if '\'' in text then Outcome(cfg, CLI_NOT_FOUND)
               else Outcome(cfg.(ports := cfg.ports[port := cfg.ports[port].(description := shown)]), "")
  {
    DescribeText(general, port, text);
    if '\'' in text {
      QuotedRefused(text);
      Unread(hw, cfg, Port(port), Body(general, Describe(port, text)));
    } else {
      LabelDone(hw, cfg, port, text, Body(general, Describe(port, text)));
    }
  }

  lemma {:induction false} FlowRead(on: bool)
    ensures ReadInterface(TrimSpace(No(on) + "flowcontrol")) == Some(Flow(on))
  {
    var c := No(on) + "flowcontrol";
    ToggleIs("flowcontrol", on);
    assert on ==> c[0] == 'f';
    assert !on ==> c[0] == 'n' && c[3] == 'f';
    assert "switchport mode access"[0] == 's' && "switchport mode general"[0] == 's' && "switchport mode trunk"[0] == 's';
    assert "poe reset"[0] == 'p' && "poe"[0] == 'p' && "no poe"[3] == 'p' && "shutdown"[0] == 's' && "no shutdown"[3] == 's';
  }

  lemma {:induction false} AdminRead(on: bool)
    ensures ReadInterface(TrimSpace(No(!on) + "shutdown")) == Some(Admin(on))
  {
    var c := No(!on) + "shutdown";
    ToggleIs("shutdown", !on);
    assert !on ==> c[0] == 's' && c[1] == 'h';
    assert on ==> c[0] == 'n' && c[3] == 's';
    assert "switchport mode access"[1] == 'w' && "switchport mode general"[1] == 'w' && "switchport mode trunk"[1] == 'w';
    assert "poe reset"[0] == 'p' && "poe"[0] == 'p' && "no poe"[3] == 'p';
  }

  lemma {:induction false} PoeRead(on: bool)
    ensures ReadInterface(TrimSpace(No(on) + "poe")) == Some(Poe(on))
    ensures ReadInterface(TrimSpace("poe" + " reset")) == Some(RestartPoe)
  {
    var c := No(on) + "poe";
    ToggleIs("poe", on);
    assert on ==> c[0] == 'p' && |c| == 3;
    assert !on ==> c[0] == 'n';
    assert "switchport mode access"[0] == 's' && "switchport mode general"[0] == 's' && "switchport mode trunk"[0] == 's';
    assert "poe" + " reset" == "poe reset" && "poe reset"[0] == 'p' && |"poe reset"| == 9;
    TrimSolid("poe reset");
  }

  lemma {:induction false} FlowGiven(hw: Hardware, cfg: Cfg, port: int, text: string, on: bool)
    requires port in cfg.ports && ReadInterface(TrimSpace(text)) == Some(Flow(on))
    ensures GiveAll(hw, cfg, Port(port), [text]) == Outcome(cfg.(ports := cfg.ports[port := cfg.ports[port].(flow := on)]), "")
  {
    PortGiven(hw, cfg, port, text, Flow(on), cfg.ports[port].(flow := on));
  }

  lemma {:induction false} AdminGiven(hw: Hardware, cfg: Cfg, port: int, text: string, on: bool)
    requires port in cfg.ports && ReadInterface(TrimSpace(text)) == Some(Admin(on))
    ensures GiveAll(hw, cfg, Port(port), [text]) == Outcome(cfg.(ports := cfg.ports[port := cfg.ports[port].(admin := on)]), "")
  {
    PortGiven(hw, cfg, port, text, Admin(on), cfg.ports[port].(admin := on));
  }

  lemma {:induction false} FlowDone(hw: Hardware, cfg: Cfg, port: int, on: bool, texts: seq<string>)
    requires port in cfg.ports && texts == [No(on) + "flowcontrol"]
    ensures GiveAll(hw, cfg, Port(port), texts)
         == Outcome(cfg.(ports := cfg.ports[port := cfg.ports[port].(flow := on)]), "")
  {
    FlowRead(on);
    FlowGiven(hw, cfg, port, No(on) + "flowcontrol", on);
  }

  lemma {:induction false} AdminDone(hw: Hardware, cfg: Cfg, port: int, on: bool, texts: seq<string>)
    requires port in cfg.ports && texts == [No(!on) + "shutdown"]
    ensures GiveAll(hw, cfg, Port(port), texts)
         == Outcome(cfg.(ports := cfg.ports[port := cfg.ports[port].(admin := on)]), "")
  {
    AdminRead(on);
    AdminGiven(hw, cfg, port, No(!on) + "shutdown", on);
  }

  /** Switching flow control on and off: just that. */
  lemma {:induction false} FlowBody(hw: Hardware, cfg: Cfg, general: bool, port: nat, on: bool)
    requires port in cfg.ports
    ensures GiveAll(hw, cfg, Port(port), Body(general, SetFlowControl(port, on)))
         == Outcome(cfg.(ports := cfg.ports[port := cfg.ports[port].(flow := on)]), "")
  {
    SwitchTexts(general, port, on);
    FlowDone(hw, cfg, port, on, Body(general, SetFlowControl(port, on)));
  }

  /** Switching the port itself: just that. */
  lemma {:induction false} EnabledBody(hw: Hardware, cfg: Cfg, general: bool, port: nat, on: bool)
    requires port in cfg.ports
    ensures GiveAll(hw, cfg, Port(port), Body(general, SetEnabled(port, on)))
         == Outcome(cfg.(ports := cfg.ports[port := cfg.ports[port].(admin := on)]), "")
  {
    SwitchTexts(general, port, on);
    AdminDone(hw, cfg, port, on, Body(general, SetEnabled(port, on)));
  }

  lemma {:induction false} HostnameTrimmed(name: string)
    ensures TrimSpace("hostname" + (" " + name)) == "hostname" + (if Blank(name) then "" else " " + TrimRight(name))
  {
    assert Blank(" " + name) <==> Blank(name) by {
      assert Blank(" " + name) ==> forall i :: 0 <= i < |name| ==> (" " + name)[i + 1] == name[i];
    }
    TrimRightConcat("hostname", " " + name);
    TrimRightConcat(" ", name);
    assert TrimRight("hostname") == "hostname" && "hostname"[0] == 'h' && "hostname" + "" == "hostname";
  }

  /** The name the switch takes: on one line, and not only white space. */
  predicate NameTaken(name: string) {
    !Blank(name) && '\n' !in TrimRight(name)
  }

  lemma {:induction false} NoLogging(c: string)
    requires c != "" && c[0] == 'h'
    ensures Toggle(c, "logging syslog").None? && ReadHost(c).None? && !("logging host remove " <= c)
  {
    OtherToggle(c, "logging syslog");
    assert "logging host \""[0] == 'l' && "logging host remove "[0] == 'l';
  }

  lemma {:induction false} HostnameRead(name: string)
    ensures ReadGlobal(TrimSpace("hostname" + (" " + name)))
         == if NameTaken(name) then Some(Hostname(Unquoted(TrimSpace(name)))) else None
  {
    var c := TrimSpace("hostname" + (" " + name));
    HostnameTrimmed(name);
    TrimRightTwice(name);
    assert c[0] == 'h';
    NoLogging(c);
    if Blank(name) {
      assert |c| == 8;
    } else {
      assert "hostname" + " " == "hostname ";
      ConcatAssoc("hostname", " ", TrimRight(name));
      TrimRightConcat("", name);
      assert "" + name == name && "" + TrimRight(name) == TrimRight(name);
      TrimSpaceBlank(name);
      assert TrimRight(name) != "";
      assert c[9..] == TrimRight(name);
    }
  }

  lemma {:induction false} HostnameDone(hw: Hardware, cfg: Cfg, name: string, texts: seq<string>)
    requires texts == ["hostname" + (" " + name)]
    ensures GiveAll(hw, cfg, Global, texts)
         == if NameTaken(name) then Outcome(cfg.(hostname := Unquoted(TrimSpace(name))), "") else Outcome(cfg, CLI_NOT_FOUND)
  {
    HostnameRead(name);
    if NameTaken(name) {
      OneGiven(hw, cfg, Global, texts[0], Hostname(Unquoted(TrimSpace(name))));
    } else {
      Unread(hw, cfg, Global, texts);
    }
  }

  lemma {:induction false} HostnameText(general: bool, name: string)
    ensures Body(general, SetHostname(name)) == ["hostname" + (" " + name)]
  {
  }

  /** Naming the switch: the name is taken without the white space and then the quotes
      around it, and refused if nothing but white space is left of it or if it has more
      than one line. So it is taken as it is exactly if it has neither at its ends. */
  lemma {:induction false} HostnameBody(hw: Hardware, cfg: Cfg, general: bool, name: string)
    ensures var o := GiveAll(hw, cfg, Global, Body(general, SetHostname(name)));
            && (o.said == "" <==> NameTaken(name))
            && o.cfg == (if NameTaken(name) then cfg.(hostname := Unquoted(TrimSpace(name))) else cfg)
    ensures NameTaken(name) ==> (Unquoted(TrimSpace(name)) == name <==> Bare(name))
  {
    HostnameText(general, name);
    NotFoundSaysSo();
    HostnameDone(hw, cfg, name, Body(general, SetHostname(name)));
    if NameTaken(name) {
      BareMeaning(name);
    }
  }

  /** No white space and no quote at either end. */
  ghost predicate Bare(name: string) {
    && name != "" && !IsSpace(name[0]) && !IsSpace(name[|name| - 1]) && name[0] != '"' && name[|name| - 1] != '"'
  }

  lemma {:induction false} UnquotedShorter(s: string)
    ensures |Unquoted(s)| <= |s|
    ensures Unquoted(s) == s <==> s == "" || (s[0] != '"' && s[|s| - 1] != '"')
  {
    if s != "" && s[0] == '"' {
      UnquotedShorter(s[1..]);
    } else if s != "" && s[|s| - 1] == '"' {
      UnquotedShorter(s[..|s| - 1]);
    }
  }

  lemma {:induction false} BareMeaning(name: string)
    requires !Blank(name)
    ensures Unquoted(TrimSpace(name)) == name <==> Bare(name)
  {
    var r := TrimRight(name);
    var s := TrimSpace(name);
    TrimRightMeaning(name);
    TrimLeftMeaning(r);
    UnquotedShorter(s);
    if Bare(name) {
      TrimSolid(name);
    }
    if Unquoted(s) == name {
      assert |s| == |name| && r == name && s == name;
    }
  }

  lemma {:induction false} SyslogRead(on: bool)
    ensures ReadGlobal(TrimSpace(No(on) + "logging syslog")) == Some(Syslog(on))
  {
    var c := No(on) + "logging syslog";
    ToggleIs("logging syslog", on);
    assert on ==> c[0] == 'l';
    assert !on ==> c[0] == 'n';
    NoPrefix(c, "hostname ", 0);
  }

  lemma {:induction false} SyslogDone(hw: Hardware, cfg: Cfg, on: bool, texts: seq<string>)
    requires texts == [No(on) + "logging syslog"]
    ensures GiveAll(hw, cfg, Global, texts) == Outcome(cfg.(syslog := on), "")
  {
    SyslogRead(on);
    OneGiven(hw, cfg, Global, No(on) + "logging syslog", Syslog(on));
  }

  /** Remote logging, on or off. */
  lemma {:induction false} SyslogBody(hw: Hardware, cfg: Cfg, general: bool, on: bool)
    ensures GiveAll(hw, cfg, Global, Body(general, SetSyslog(on))) == Outcome(cfg.(syslog := on), "")
  {
    SwitchTexts(general, 0, on);
    SyslogDone(hw, cfg, on, Body(general, SetSyslog(on)));
  }

  lemma {:induction false} PoeGiven(hw: Hardware, cfg: Cfg, port: int, text: string, command: Command, on: bool)
    requires port in cfg.ports && hw.poe && ReadInterface(TrimSpace(text)) == Some(command)
    requires command == Poe(on) || (command == RestartPoe && on)
    ensures GiveAll(hw, cfg, Port(port), [text]) == Outcome(cfg.(ports := cfg.ports[port := cfg.ports[port].(poe := on)]), "")
  {
    PortGiven(hw, cfg, port, text, command, cfg.ports[port].(poe := on));
  }

  lemma {:induction false} PoeDone(hw: Hardware, cfg: Cfg, port: int, on: bool, texts: seq<string>)
    requires port in cfg.ports && hw.poe && (texts == [No(on) + "poe"] || (texts == ["poe" + " reset"] && on))
    ensures GiveAll(hw, cfg, Port(port), texts) == Outcome(cfg.(ports := cfg.ports[port := cfg.ports[port].(poe := on)]), "")
  {
    PoeRead(on);
    if texts == [No(on) + "poe"] {
      PoeGiven(hw, cfg, port, No(on) + "poe", Poe(on), on);
    } else {
      PoeGiven(hw, cfg, port, "poe" + " reset", RestartPoe, on);
    }
  }

  /** Power over Ethernet, on or off as asked, on a model that has it. */
  lemma {:induction false} PoeBody(hw: Hardware, cfg: Cfg, general: bool, port: nat, on: bool)
    requires port in cfg.ports && hw.poe
    ensures GiveAll(hw, cfg, Port(port), Body(general, SetPoe(port, on)))
         == Outcome(cfg.(ports := cfg.ports[port := cfg.ports[port].(poe := on)]), "")
  {
    SwitchTexts(general, port, on);
    PoeDone(hw, cfg, port, on, Body(general, SetPoe(port, on)));
  }

  /** A reset leaves it on. */
  lemma {:induction false} ResetBody(hw: Hardware, cfg: Cfg, general: bool, port: nat)
    requires port in cfg.ports && hw.poe
    ensures GiveAll(hw, cfg, Port(port), Body(general, ResetPoe(port)))
         == Outcome(cfg.(ports := cfg.ports[port := cfg.ports[port].(poe := true)]), "")
  {
    SwitchTexts(general, port, true);
    PoeDone(hw, cfg, port, true, Body(general, ResetPoe(port)));
  }

  // ------------------------------------------------------------------
  // Remote logging
  // ------------------------------------------------------------------

  /** SyslogSeverityWords: the word of each severity. */
  const SEVERITY_WORDS: seq<string> := ["emergency", "alert", "critical", "error", "warning", "notice", "info", "debug"]

  lemma {:induction false} WordOfSeverity(severity: nat)
    requires severity < 8
    ensures var word := SEVERITY_WORDS[severity];
            WordChars(word) && Lower(word) == word && !IsSpace(word[0]) && !IsSpace(word[|word| - 1])
  {
  }

  /** Every word a command carries is read as the severity it is for. */
  lemma {:induction false} SeverityReads(severity: nat)
    requires severity < 8
    ensures SeverityOf(SEVERITY_WORDS[severity]) == Some(severity)
  {
    WordOfSeverity(severity);
    TrimSolid(SEVERITY_WORDS[severity]);
    assert "emergency"[1] == 'm' && "error"[1] == 'r' && "alert"[0] == 'a' && "critical"[0] == 'c' && "warning"[0] == 'w';
    assert "notice"[0] == 'n' && "info"[0] == 'i' && "informational"[0] == 'i' && "debug"[0] == 'd';
  }

  lemma {:induction false} QuoteFound(host: string, rest: string)
    requires '"' !in host
    ensures QuoteAt(host + "\"" + rest) == |host|
  {
    var s := host + "\"" + rest;
    if host != "" {
      assert s[0] == host[0] && host[0] in host && s[1..] == host[1..] + "\"" + rest;
      QuoteFound(host[1..], rest);
    }
  }

  /** A collector's line: address, kind, port, word. */
  function CollectorLine(host: string, kind: string, digits: string, word: string): string {
    host + "\"" + (" " + kind + " " + (digits + (" " + word)))
  }

  lemma {:induction false} KindFound(kind: string, t: string)
    requires kind == "ipv4" || kind == "ipv6" || kind == "dns"
    ensures AfterKind(" " + kind + " " + t) == Some(t)
  {
    assert " " + "ipv4" + " " == " ipv4 " && " " + "ipv6" + " " == " ipv6 " && " " + "dns" + " " == " dns ";
    var s := " " + kind + " " + t;
    assert kind == "dns" ==> s[1] == 'd' && " ipv4 "[1] == 'i' && " ipv6 "[1] == 'i';
    assert s[|kind| + 2..] == t;
  }

  lemma {:induction false} PortWordFound(digits: string, word: string)
    requires Number(digits)
    ensures var t := digits + (" " + word);
            DigitRun(t) == |digits| < |t| && t[..|digits|] == digits && t[|digits|] == ' ' && t[|digits| + 1..] == word
  {
    DigitRunOf(digits, " " + word);
  }

  lemma {:induction false} QuoteParts(host: string, rest: string)
    ensures var s := host + "\"" + rest;
            s[..|host|] == host && s[|host| + 1..] == rest && |host| < |s|
  {
  }

  lemma {:induction false} HostParts(c: string, host: string, rest: string, t: string, digits: string, word: string)
    requires c == "logging host \"" + (host + "\"" + rest) && host != "" && '"' !in host && AfterKind(rest) == Some(t)
    requires DigitRun(t) == |digits| < |t| && digits != "" && t[..|digits|] == digits
    requires t[|digits|] == ' ' && t[|digits| + 1..] == word && WordChars(word)
    ensures ReadHost(c) == Some(AddHost(host, digits, word))
  {
    assert c[14..] == host + "\"" + rest;
    QuoteFound(host, rest);
    QuoteParts(host, rest);
  }

  lemma {:induction false} HostRead(c: string, host: string, kind: string, digits: string, word: string)
    requires host != "" && '"' !in host && (kind == "ipv4" || kind == "ipv6" || kind == "dns")
    requires Number(digits) && WordChars(word) && c == "logging host \"" + CollectorLine(host, kind, digits, word)
    ensures ReadHost(c) == Some(AddHost(host, digits, word))
  {
    var t := digits + (" " + word);
    KindFound(kind, t);
    PortWordFound(digits, word);
    HostParts(c, host, " " + kind + " " + t, t, digits, word);
  }

  /** Its text has no blanks around it, and begins like no other command's. */
  lemma {:induction false} LoggingSolid(c: string, rest: string)
    requires c == "logging host " + rest && rest != "" && !IsSpace(rest[|rest| - 1])
    ensures TrimSpace(c) == c && !("hostname " <= c) && Toggle(c, "logging syslog").None?
  {
    assert c[0] == 'l' && c[8] == 'h' && c[|c| - 1] == rest[|rest| - 1];
    TrimSolid(c);
    assert "hostname "[0] == 'h' && "logging syslog"[8] == 's' && ("no " + "logging syslog")[0] == 'n';
  }

  lemma {:induction false} LineEnds(host: string, kind: string, digits: string, word: string)
    requires word != ""
    ensures var line := CollectorLine(host, kind, digits, word);
            line != "" && line[|line| - 1] == word[|word| - 1]
  {
    assert (digits + (" " + word))[|digits| + |word|] == word[|word| - 1];
  }

  lemma {:induction false} QuotedSolid(c: string, line: string)
    requires c == "logging host \"" + line && line != "" && !IsSpace(line[|line| - 1])
    ensures TrimSpace(c) == c && !("hostname " <= c) && Toggle(c, "logging syslog").None?
  {
    assert "logging host \"" == "logging host " + "\"";
    ConcatAssoc("logging host ", "\"", line);
    LoggingSolid(c, "\"" + line);
  }

  lemma {:induction false} CollectorRead(c: string, host: string, kind: string, digits: string, word: string)
    requires host != "" && '"' !in host && (kind == "ipv4" || kind == "ipv6" || kind == "dns")
    requires Number(digits) && WordChars(word) && !IsSpace(word[|word| - 1])
    requires c == "logging host \"" + CollectorLine(host, kind, digits, word)
    ensures ReadGlobal(TrimSpace(c)) == Some(AddHost(host, digits, word))
  {
    LineEnds(host, kind, digits, word);
    HostRead(c, host, kind, digits, word);
    QuotedSolid(c, CollectorLine(host, kind, digits, word));
  }

  lemma {:induction false} LoggingGiven(hw: Hardware, cfg: Cfg, c: string, command: Command, o: Outcome)
    requires (command.AddHost? || command.RemoveHost?) && ReadGlobal(TrimSpace(c)) == Some(command)
    requires DoLogging(cfg, command) == o
    ensures GiveAll(hw, cfg, Global, [c]) == o
  {
    OneGiven(hw, cfg, Global, c, command);
  }

  lemma {:induction false} RowAdded(cfg: Cfg, host: string, digits: string, word: string, port: int, severity: int)
    requires Atoi(digits) == Some(port) && SeverityOf(word) == Some(severity)
    ensures DoLogging(cfg, AddHost(host, digits, word))
         == Outcome(cfg.(collectors := cfg.collectors + [Collector(host, port, severity, TopIndex(cfg.collectors) + 1)]), "")
  {
  }

  lemma {:induction false} CollectorDone(hw: Hardware, cfg: Cfg, host: string, kind: string, digits: string, word: string,
                                         port: int, severity: int, texts: seq<string>)
    requires host != "" && '"' !in host && (kind == "ipv4" || kind == "ipv6" || kind == "dns")
    requires Number(digits) && WordChars(word) && !IsSpace(word[|word| - 1])
    requires Atoi(digits) == Some(port) && SeverityOf(word) == Some(severity)
    requires texts == ["logging host \"" + CollectorLine(host, kind, digits, word)]
    ensures GiveAll(hw, cfg, Global, texts)
         == Outcome(cfg.(collectors := cfg.collectors + [Collector(host, port, severity, TopIndex(cfg.collectors) + 1)]), "")
  {
    CollectorRead(texts[0], host, kind, digits, word);
    RowAdded(cfg, host, digits, word, port, severity);
    LoggingGiven(hw, cfg, texts[0], AddHost(host, digits, word), DoLogging(cfg, AddHost(host, digits, word)));
    assert texts == [texts[0]];
  }

  lemma {:induction false} CollectorText(general: bool, line: string)
    ensures Body(general, AddCollector(line)) == ["logging host \"" + line]
  {
    assert "logging" + " host \"" == "logging host \"";
    ConcatAssoc("logging", " host \"", line);
  }

  /** Adding a collector: one row more, with the address, port and severity asked for and
      an index above every other; the rows there were keep theirs. */
  lemma {:induction false} CollectorBody(hw: Hardware, cfg: Cfg, general: bool, host: string, kind: string, port: nat, severity: nat)
    requires host != "" && '"' !in host && (kind == "ipv4" || kind == "ipv6" || kind == "dns")
    requires port <= MAX_INT && severity < 8
    ensures exists index ::
              && (forall i :: 0 <= i < |cfg.collectors| ==> cfg.collectors[i].index < index)
              && GiveAll(hw, cfg, Global, Body(general, AddCollector(CollectorLine(host, kind, Itoa(port), SEVERITY_WORDS[severity]))))
                 == Outcome(cfg.(collectors := cfg.collectors + [Collector(host, port, severity, index)]), "")
  {
    var word := SEVERITY_WORDS[severity];
    var line := CollectorLine(host, kind, Itoa(port), word);
    CollectorText(general, line);
    WordOfSeverity(severity);
    SeverityReads(severity);
    AtoiOfItoa(port);
    CollectorDone(hw, cfg, host, kind, Itoa(port), word, port, severity, Body(general, AddCollector(line)));
    assert forall i :: 0 <= i < |cfg.collectors| ==> cfg.collectors[i].index < TopIndex(cfg.collectors) + 1;
  }

  lemma {:induction false} RemoveRead(index: nat)
    requires index <= MAX_INT
    ensures Body(false, RemoveCollector(index)) == ["logging host remove " + Itoa(index)]
    ensures ReadGlobal(TrimSpace("logging host remove " + Itoa(index))) == Some(RemoveHost(Itoa(index)))
  {
    var prefix := "logging host remove ";
    var c := prefix + Itoa(index);
    assert "logging" + " host remove " == prefix && "logging host " + "remove " == prefix;
    ConcatAssoc("logging", " host remove ", Itoa(index));
    ConcatAssoc("logging host ", "remove ", Itoa(index));
    assert c[20..] == Itoa(index) && Itoa(index)[|Itoa(index)| - 1] == c[|c| - 1];
    LoggingSolid(c, "remove " + Itoa(index));
    assert c[13] == 'r' && "logging host \""[13] == '"';
    NoPrefix(c, "logging host \"", 13);
  }

  lemma {:induction false} CutBehind(s: seq<Collector>, at: nat)
    requires at + 1 < |s|
    ensures [s[0]] + (s[1..][..at] + s[1..][at + 1..]) == s[..at + 1] + s[at + 2..]
  {
    assert s[..at + 1] == [s[0]] + s[1..][..at];
    assert s[1..][at + 1..] == s[at + 2..];
    ConcatAssoc([s[0]], s[1..][..at], s[at + 2..]);
  }

  /** What is left out is the first row of the index. */
  lemma {:induction false} WithoutMeaning(collectors: seq<Collector>, index: int) returns (at: nat)
    requires exists i :: 0 <= i < |collectors| && collectors[i].index == index
    ensures at < |collectors| && collectors[at].index == index && (forall i :: 0 <= i < at ==> collectors[i].index != index)
    ensures Without(collectors, index) == collectors[..at] + collectors[at + 1..]
  {
    if collectors[0].index == index {
      at := 0;
    } else {
      var rest := collectors[1..];
      var i :| 0 <= i < |collectors| && collectors[i].index == index;
      assert rest[i - 1].index == index;
      var k := WithoutMeaning(rest, index);
      CutBehind(collectors, k);
      assert forall j :: 0 < j < k + 1 ==> collectors[j] == rest[j - 1];
      at := k + 1;
    }
  }

  /** Removing one by its index: the first row that has it goes, the others keep theirs;
      if none has it, nothing changes and the switch says so. */
  lemma {:induction false} RemoveBody(hw: Hardware, cfg: Cfg, general: bool, index: nat)
    requires index <= MAX_INT
    ensures var o := GiveAll(hw, cfg, Global, Body(general, RemoveCollector(index)));
            && (o.said == "" <==> exists i :: 0 <= i < |cfg.collectors| && cfg.collectors[i].index == index)
            && (o.said != "" ==> o.cfg == cfg)
            && (o.said == "" ==> o.cfg == cfg.(collectors := Without(cfg.collectors, index)))
  {
    RemoveRead(index);
    AtoiOfItoa(index);
    LoggingGiven(hw, cfg, "logging host remove " + Itoa(index), RemoveHost(Itoa(index)), DoLogging(cfg, RemoveHost(Itoa(index))));
  }
}
