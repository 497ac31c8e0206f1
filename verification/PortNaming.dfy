/** What the command templates print and the parsers read back: interface names and
    port speeds (fastpath/spec.go, fastpath/parse.go). */
module PortNaming {
  import opened Prelude
  import opened Decimal
  import Whitespace
  import ShellText

  // ------------------------------------------------------------------
  // Templates
  // ------------------------------------------------------------------

  /** strings.Replace(s, old, new, 1) */
  function ReplaceFirst(s: string, what: string, value: string): string
    decreases |s|
  {
    if what <= s then value + s[|what|..]
    else if s == "" then s
    else [s[0]] + ReplaceFirst(s[1..], what, value)
  }

  const PORT := "{port}"

  /** How a firmware addresses ports: one template, or another from some port on. */
  datatype Naming = Naming(iface: string, uplink: string, firstUplink: Option<int>)

  const BASE := Naming("1/0/{port}", "", None)
  const SMART := Naming("1/g{port}", "1/xg{port}", Some(49))

  /** Iface. */
  function Iface(n: Naming, port: nat): string {
    if n.uplink != "" && n.firstUplink.Some? && port >= n.firstUplink.value
    then ReplaceFirst(n.uplink, PORT, Itoa(port))
    else ReplaceFirst(n.iface, PORT, Itoa(port))
  }

  /** A template with the placeholder at its end. */
  lemma {:induction false} FillEnd(head: string, value: string)
    requires forall i :: 0 <= i < |head| ==> head[i] != '{'
    ensures ReplaceFirst(head + PORT, PORT, value) == head + value
  {
    var s := head + PORT;
    if head == "" {
      assert s == PORT && PORT[|PORT|..] == "";
      assert value + "" == value;
    } else {
      assert PORT[0] == '{' && s[0] == head[0];
      assert s[1..] == head[1..] + PORT;
      FillEnd(head[1..], value);
      assert [head[0]] + (head[1..] + value) == head + value;
    }
  }

  // ------------------------------------------------------------------
  // physPort
  // ------------------------------------------------------------------

  /** The length of the leading run of digits. */
  function DigitRun(s: string): (n: nat)
    ensures n <= |s|
  {
    if s != "" && IsDigit(s[0]) then 1 + DigitRun(s[1..]) else 0
  }

  lemma {:induction false} DigitRunOf(digits: string, rest: string)
    requires AllDigits(digits) && (rest == "" || !IsDigit(rest[0]))
    ensures DigitRun(digits + rest) == |digits|
  {
    if digits == "" {
      assert digits + rest == rest;
    } else {
      assert (digits + rest)[1..] == digits[1..] + rest;
      DigitRunOf(digits[1..], rest);
    }
  }

  predicate Number(s: string) {
    s != "" && AllDigits(s)
  }

  /** ^(\d+)/0/(\d+)$, and its second group. */
  function PhysMatch(s: string): Option<string> {
    var rest := s[DigitRun(s)..];
    if DigitRun(s) > 0 && "/0/" <= rest && Number(rest[3..]) then Some(rest[3..]) else None
  }

  /** ^\d+/x?g(\d+)$, and its group. */
  function SmartMatch(s: string): Option<string> {
    var rest := s[DigitRun(s)..];
    if DigitRun(s) > 0 && "/g" <= rest && Number(rest[2..]) then Some(rest[2..])
    else if DigitRun(s) > 0 && "/xg" <= rest && Number(rest[3..]) then Some(rest[3..])
    else None
  }

  /** physPort: a number too large for an int is no port, and the second pattern is
      only tried when the first does not match. */
  function PhysPort(iface: string): Option<int> {
    var s := Whitespace.TrimSpace(iface);
    if PhysMatch(s).Some? then Atoi(PhysMatch(s).value)
    else if SmartMatch(s).Some? then Atoi(SmartMatch(s).value)
    else None
  }

  lemma {:induction false} PhysForm(digits: string)
    requires Number(digits)
    ensures PhysPort("1/0/" + digits) == Atoi(digits)
  {
    var s := "1/0/" + digits;
    assert s[|s| - 1] == digits[|digits| - 1];
    Whitespace.TrimSolid(s);
    assert s == "1" + ("/0/" + digits);
    DigitRunOf("1", "/0/" + digits);
    assert s[1..] == "/0/" + digits && ("/0/" + digits)[3..] == digits;
  }

  lemma {:induction false} SmartForm(digits: string)
    requires Number(digits)
    ensures PhysPort("1/g" + digits) == Atoi(digits)
  {
    var s := "1/g" + digits;
    assert s[|s| - 1] == digits[|digits| - 1];
    Whitespace.TrimSolid(s);
    assert s == "1" + ("/g" + digits);
    DigitRunOf("1", "/g" + digits);
    assert s[1..] == "/g" + digits && ("/g" + digits)[2..] == digits;
    assert s[1..][1] == 'g' && "/0/"[1] == '0';
  }

  lemma {:induction false} UplinkForm(digits: string)
    requires Number(digits)
    ensures PhysPort("1/xg" + digits) == Atoi(digits)
  {
    var s := "1/xg" + digits;
    assert s[|s| - 1] == digits[|digits| - 1];
    Whitespace.TrimSolid(s);
    assert s == "1" + ("/xg" + digits);
    DigitRunOf("1", "/xg" + digits);
    assert s[1..] == "/xg" + digits && ("/xg" + digits)[3..] == digits;
    assert s[1..][1] == 'x' && "/0/"[1] == '0' && "/g"[1] == 'g';
  }

  /** What names a port, and its number: unit/0/number, or unit/g or unit/xg and the
      number. */
  ghost predicate NamesPort(s: string, unit: string, digits: string) {
    && Number(unit) && Number(digits)
    && (s == unit + "/0/" + digits || s == unit + "/g" + digits || s == unit + "/xg" + digits)
  }

  lemma {:induction false} AfterUnit(s: string, unit: string, sep: string, digits: string)
    requires Number(unit) && sep != "" && !IsDigit(sep[0]) && s == unit + sep + digits
    ensures DigitRun(s) == |unit| && s[|unit|..] == sep + digits && (sep + digits)[|sep|..] == digits
  {
    ConcatAssoc(unit, sep, digits);
    DigitRunOf(unit, sep + digits);
  }

  lemma {:induction false} NamedMatch(s: string, unit: string, digits: string)
    requires NamesPort(s, unit, digits)
    ensures PhysMatch(s) == Some(digits) || (PhysMatch(s).None? && SmartMatch(s) == Some(digits))
  {
    if s == unit + "/0/" + digits {
      AfterUnit(s, unit, "/0/", digits);
    } else if s == unit + "/g" + digits {
      AfterUnit(s, unit, "/g", digits);
      assert (("/g" + digits)[1]) == 'g' && "/0/"[1] == '0';
    } else {
      AfterUnit(s, unit, "/xg", digits);
      assert (("/xg" + digits)[1]) == 'x' && "/0/"[1] == '0' && "/g"[1] == 'g';
    }
  }

  lemma {:induction false} LeadingRun(s: string)
    ensures AllDigits(s[..DigitRun(s)])
  {
    if s != "" && IsDigit(s[0]) {
      LeadingRun(s[1..]);
      assert s[..DigitRun(s)] == [s[0]] + s[1..][..DigitRun(s[1..])];
    }
  }

  lemma {:induction false} CutAt(s: string, n: nat, sep: string)
    requires n <= |s| && sep <= s[n..]
    ensures s == s[..n] + sep + s[n..][|sep|..]
  {
    assert s[n..] == sep + s[n..][|sep|..];
    ConcatAssoc(s[..n], sep, s[n..][|sep|..]);
  }

  lemma {:induction false} MatchNames(s: string)
    ensures PhysMatch(s).Some? ==> NamesPort(s, s[..DigitRun(s)], PhysMatch(s).value)
    ensures PhysMatch(s).None? && SmartMatch(s).Some? ==> NamesPort(s, s[..DigitRun(s)], SmartMatch(s).value)
  {
    var n := DigitRun(s);
    LeadingRun(s);
    if PhysMatch(s).Some? {
      CutAt(s, n, "/0/");
    } else if SmartMatch(s).Some? {
      if "/g" <= s[n..] && Number(s[n..][2..]) {
        CutAt(s, n, "/g");
      } else {
        CutAt(s, n, "/xg");
      }
    }
  }

  /** A text is read as a port exactly if it names one, blanks around it aside, whose
      number an int can hold; and then as that number. */
  lemma {:induction false} PhysPortMeaning(iface: string, port: int)
    ensures PhysPort(iface) == Some(port)
       <==> exists unit, digits :: NamesPort(Whitespace.TrimSpace(iface), unit, digits) && Atoi(digits) == Some(port)
  {
    var s := Whitespace.TrimSpace(iface);
    MatchNames(s);
    if unit, digits :| NamesPort(s, unit, digits) && Atoi(digits) == Some(port) {
      NamedMatch(s, unit, digits);
    }
  }

  /** What comes before the number in a port's name. */
  function Before(n: Naming, port: nat): string {
    if n == BASE then "1/0/" else if port >= 49 then "1/xg" else "1/g"
  }

  lemma {:induction false} IfaceText(n: Naming, port: nat)
    requires n == BASE || n == SMART
    ensures Iface(n, port) == Before(n, port) + Itoa(port)
  {
    assert BASE.iface == "1/0/" + PORT && SMART.uplink == "1/xg" + PORT && SMART.iface == "1/g" + PORT;
    FillEnd(Before(n, port), Itoa(port));
  }

  /** Every port is read back from the name it is addressed by, in both dialects and
      on both sides of the uplink split. */
  lemma {:induction false} IfaceReadsBack(n: Naming, port: nat)
    requires (n == BASE || n == SMART) && port <= MAX_INT
    ensures PhysPort(Iface(n, port)) == Some(port)
  {
    AtoiOfItoa(port);
    IfaceText(n, port);
    if n == BASE {
      PhysForm(Itoa(port));
    } else if port >= 49 {
      UplinkForm(Itoa(port));
    } else {
      SmartForm(Itoa(port));
    }
  }

  /** No two ports share a name. */
  lemma {:induction false} IfaceInjective(n: Naming, p: nat, q: nat)
    requires (n == BASE || n == SMART) && p <= MAX_INT && q <= MAX_INT
    ensures Iface(n, p) == Iface(n, q) <==> p == q
  {
    IfaceReadsBack(n, p);
    IfaceReadsBack(n, q);
  }

  // ------------------------------------------------------------------
  // Speeds
  // ------------------------------------------------------------------

  /** fastpathRate. */
  function Rate(mbps: nat): string {
    if mbps >= 1000 && mbps % 1000 == 0 then Itoa(mbps / 1000) + "G" else Itoa(mbps)
  }

  datatype PortSpeed = Auto | Forced(mbps: int, fullDuplex: bool)

  /** Go's int multiplication wraps at 64 bits. */
  function Wrap(n: int): int {
    (n + MAX_INT + 1) % (2 * (MAX_INT + 1)) - (MAX_INT + 1)
  }

  function SkipWs(s: string): string {
    if s != "" && ShellText.IsWs(s[0]) then SkipWs(s[1..]) else s
  }

  lemma {:induction false} SkipWsTo(s: string, k: nat)
    requires k <= |s| && ShellText.Spaces(s, 0, k) && (k == |s| || !ShellText.IsWs(s[k]))
    ensures SkipWs(s) == s[k..]
  {
    if k == 0 {
      assert s[0..] == s;
    } else {
      ShellText.SpacesMeaning(s, 0, k);
      ShellText.SpacesMeaning(s[1..], 0, k - 1);
      SkipWsTo(s[1..], k - 1);
      assert s[1..][k - 1..] == s[k..];
    }
  }

  /** How much is skipped. */
  lemma {:induction false} SkipWsMeaning(s: string) returns (k: nat)
    ensures k <= |s| && ShellText.Spaces(s, 0, k) && (k == |s| || !ShellText.IsWs(s[k]))
    ensures SkipWs(s) == s[k..]
  {
    k := 0;
    if s != "" && ShellText.IsWs(s[0]) {
      k := SkipWsMeaning(s[1..]);
      ShellText.SpacesMeaning(s[1..], 0, k);
      k := k + 1;
      ShellText.SpacesMeaning(s, 0, k);
    }
    SkipWsTo(s, k);
  }

  /** speedMbps: ^(\d+)\s*([GgMm]?) on the trimmed text; only G multiplies. */
  function SpeedMbps(text: string): Option<int> {
    var s := Whitespace.TrimSpace(text);
    var n := DigitRun(s);
    var value := Atoi(s[..n]);
    if n == 0 || value.None? then None
    else
      var unit := SkipWs(s[n..]);
      if unit != "" && (unit[0] == 'G' || unit[0] == 'g') then Some(Wrap(value.value * 1000)) else value
  }

  function Lower(s: string): (r: string)
    ensures |r| == |s|
  {
    seq(|s|, i requires 0 <= i < |s| => if 'A' <= s[i] <= 'Z' then (s[i] as int + 32) as char else s[i])
  }

  /** Capital letters become small ones, and nothing else changes. */
  lemma {:induction false} LowerMeaning(s: string, i: nat, k: nat)
    requires i < |s|
    ensures k < 26 && s[i] == "ABCDEFGHIJKLMNOPQRSTUVWXYZ"[k] ==> Lower(s)[i] == "abcdefghijklmnopqrstuvwxyz"[k]
    ensures s[i] !in "ABCDEFGHIJKLMNOPQRSTUVWXYZ" ==> Lower(s)[i] == s[i]
  {
    var capitals := "ABCDEFGHIJKLMNOPQRSTUVWXYZ";
    if 'A' <= s[i] <= 'Z' {
      assert capitals[s[i] as int - 'A' as int] == s[i];
    }
  }

  /** duplexText. */
  function DuplexOf(text: string): Option<bool> {
    var t := Lower(Whitespace.TrimSpace(text));
    if Contains(t, "full") then Some(true)
    else if Contains(t, "half") then Some(false)
    else None
  }

  /** parsePhysicalMode. */
  function ParsePhysicalMode(cell: string): Option<PortSpeed> {
    var text := Whitespace.TrimSpace(cell);
    if text == "" then None
    else if Lower(text) == "auto" then Some(Auto)
    else
      var rate, duplex := SpeedMbps(text), DuplexOf(text);
      if rate.None? || duplex.None? then None else Some(Forced(rate.value, duplex.value))
  }

  /** What the switch shows for a forced mode. */
  function Shown(mbps: nat, fullDuplex: bool): string {
    Rate(mbps) + if fullDuplex then " Full" else " Half"
  }

  lemma {:induction false} SpeedOf(digits: string, tail: string)
    requires Number(digits) && tail != "" && !IsDigit(tail[0]) && !Whitespace.IsSpace(tail[|tail| - 1])
    requires Atoi(digits).Some?
    ensures Whitespace.TrimSpace(digits + tail) == digits + tail
    ensures SpeedMbps(digits + tail) ==
            var unit := SkipWs(tail);
            if unit != "" && (unit[0] == 'G' || unit[0] == 'g') then Some(Wrap(Atoi(digits).value * 1000)) else Atoi(digits)
  {
    var s := digits + tail;
    assert s[0] == digits[0] && s[|s| - 1] == tail[|tail| - 1];
    Whitespace.TrimSolid(s);
    DigitRunOf(digits, tail);
    assert s[..|digits|] == digits && s[|digits|..] == tail;
  }

  /** The number in the range of a 64-bit int that differs by a multiple of 2^64. */
  lemma {:induction false} WrapMeaning(n: int)
    ensures -0x8000_0000_0000_0000 <= Wrap(n) < 0x8000_0000_0000_0000
    ensures (n - Wrap(n)) % 0x1_0000_0000_0000_0000 == 0
  {
    var m := n + 0x8000_0000_0000_0000;
    assert n - Wrap(n) == m / 0x1_0000_0000_0000_0000 * 0x1_0000_0000_0000_0000;
  }

  lemma {:induction false} WrapFits(n: int)
    requires 0 <= n <= MAX_INT
    ensures Wrap(n) == n
  {
  }

  lemma {:induction false} GigabitSpeed(digits: string, gbps: nat, tail: string)
    requires Number(digits) && Atoi(digits) == Some(gbps) && (tail == " Full" || tail == " Half")
    ensures Whitespace.TrimSpace(digits + "G" + tail) == digits + "G" + tail
    ensures SpeedMbps(digits + "G" + tail) == Some(Wrap(gbps * 1000))
  {
    ConcatAssoc(digits, "G", tail);
    SpeedOf(digits, "G" + tail);
  }

  lemma {:induction false} GigabitReads(gbps: nat, tail: string)
    requires gbps * 1000 <= MAX_INT && (tail == " Full" || tail == " Half")
    ensures Whitespace.TrimSpace(Itoa(gbps) + "G" + tail) == Itoa(gbps) + "G" + tail
    ensures SpeedMbps(Itoa(gbps) + "G" + tail) == Some(gbps * 1000)
  {
    AtoiOfItoa(gbps);
    GigabitSpeed(Itoa(gbps), gbps, tail);
    WrapFits(gbps * 1000);
  }

  lemma {:induction false} MegabitReads(mbps: nat, tail: string)
    requires mbps <= MAX_INT && (tail == " Full" || tail == " Half")
    ensures Whitespace.TrimSpace(Itoa(mbps) + tail) == Itoa(mbps) + tail
    ensures SpeedMbps(Itoa(mbps) + tail) == Some(mbps)
  {
    AtoiOfItoa(mbps);
    SpeedOf(Itoa(mbps), tail);
    assert tail[1..][0] == 'F' || tail[1..][0] == 'H';
    assert SkipWs(tail) == SkipWs(tail[1..]) == tail[1..];
  }

  lemma {:induction false} RateReads(mbps: nat, tail: string)
    requires mbps <= MAX_INT && (tail == " Full" || tail == " Half")
    ensures Whitespace.TrimSpace(Rate(mbps) + tail) == Rate(mbps) + tail
    ensures SpeedMbps(Rate(mbps) + tail) == Some(mbps)
  {
    if mbps >= 1000 && mbps % 1000 == 0 {
      GigabitReads(mbps / 1000, tail);
    } else {
      MegabitReads(mbps, tail);
    }
  }

  lemma {:induction false} LowerConcat(a: string, b: string)
    ensures Lower(a + b) == Lower(a) + Lower(b)
  {
  }

  lemma {:induction false} NoWordAtAll(word: string, sub: string)
    requires sub != "" && word != sub && |word| <= |sub|
    ensures !Contains(word, sub)
    decreases |word|
  {
    if word != "" {
      NoWordAtAll(word[1..], sub);
    }
  }

  lemma {:induction false} RateLetters(mbps: nat)
    ensures forall i :: 0 <= i < |Lower(Rate(mbps))| ==> IsDigit(Lower(Rate(mbps))[i]) || Lower(Rate(mbps))[i] == 'g'
  {
  }

  lemma {:induction false} FullReads(head: string)
    ensures Contains(head + "full", "full")
  {
    ShellText.ContainsAt(head, "full", "");
    assert head + "full" + "" == head + "full";
  }

  lemma {:induction false} HalfReads(head: string)
    ensures Contains(head + "half", "half")
  {
    ShellText.ContainsAt(head, "half", "");
    assert head + "half" + "" == head + "half";
  }

  /** The shown mode in lower case: no letter before the duplex but a g. */
  lemma {:induction false} ShownLower(mbps: nat, fullDuplex: bool)
    ensures var head := Lower(Rate(mbps)) + " ";
            Lower(Shown(mbps, fullDuplex)) == head + (if fullDuplex then "full" else "half")
            && forall i :: 0 <= i < |head| ==> head[i] != 'f' && head[i] != 'a'
  {
    var tail := if fullDuplex then " Full" else " Half";
    RateLetters(mbps);
    LowerConcat(Rate(mbps), tail);
    assert Lower(tail) == " " + (if fullDuplex then "full" else "half");
    ConcatAssoc(Lower(Rate(mbps)), " ", if fullDuplex then "full" else "half");
  }

  /** The duplex in a text whose lower case ends in it. */
  lemma {:induction false} DuplexReads(text: string, head: string, fullDuplex: bool)
    requires Lower(text) == head + (if fullDuplex then "full" else "half")
    requires Whitespace.TrimSpace(text) == text && forall i :: 0 <= i < |head| ==> head[i] != 'f'
    ensures DuplexOf(text) == Some(fullDuplex)
  {
    if fullDuplex {
      FullReads(head);
    } else {
      HalfReads(head);
      HalfIsNotFull(head);
    }
  }

  /** A forced mode is read back from what the switch shows for it, for every rate. */
  lemma {:induction false} ModeReadsBack(mbps: nat, fullDuplex: bool)
    requires mbps <= MAX_INT
    ensures ParsePhysicalMode(Shown(mbps, fullDuplex)) == Some(Forced(mbps, fullDuplex))
  {
    RateReads(mbps, if fullDuplex then " Full" else " Half");
    ShownLower(mbps, fullDuplex);
    var head := Lower(Rate(mbps)) + " ";
    assert Lower(Shown(mbps, fullDuplex))[0] == head[0] && "auto"[0] == 'a';
    DuplexReads(Shown(mbps, fullDuplex), head, fullDuplex);
  }

  lemma {:induction false} HalfIsNotFull(head: string)
    requires forall i :: 0 <= i < |head| ==> head[i] != 'f'
    ensures !Contains(head + "half", "full")
    decreases |head|
  {
    var s := head + "half";
    if head == "" {
      assert s == "half";
      NoWordAtAll("half", "full");
    } else {
      assert s[0] == head[0] && s[1..] == head[1..] + "half";
      HalfIsNotFull(head[1..]);
    }
  }
}
