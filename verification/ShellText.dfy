/** The text of a CLI session: prompts, line endings, and what cleanOutput makes of a
    response (fastpath/session.go). Text is ASCII. */
module ShellText {
  import opened Prelude
  import Whitespace

  // ------------------------------------------------------------------
  // Prompts
  // ------------------------------------------------------------------

  /** The regular expression class \s. */
  predicate IsWs(c: char) {
    c == ' ' || c == '\t' || c == '\n' || c == '\r' || c as int == 0x0C
  }

  predicate AllWs(s: string, from: nat, to: nat)
    requires from <= to <= |s|
  {
    forall i :: from <= i < to ==> IsWs(s[i])
  }

  function StripWs(s: string): string {
    if s != "" && IsWs(s[|s| - 1]) then StripWs(s[..|s| - 1]) else s
  }

  predicate IsMark(c: char) {
    c == '#' || c == '>'
  }

  /** A closing parenthesis, then a mark, at the end of the text, with white space
      anywhere between and after. */
  predicate PromptAtEnd(s: string) {
    var a := StripWs(s);
    a != "" && IsMark(a[|a| - 1])
    && var b := StripWs(a[..|a| - 1]);
       b != "" && b[|b| - 1] == ')'
  }

  /** A run of blanks, tabs, line feeds, form feeds and carriage returns. */
  ghost predicate Spaces(s: string, from: nat, to: nat)
    requires from <= to <= |s|
  {
    forall i :: from <= i < to ==> s[i] as int in {0x20, 0x09, 0x0A, 0x0C, 0x0D}
  }

  lemma {:induction false} SpacesMeaning(s: string, from: nat, to: nat)
    requires from <= to <= |s|
    ensures AllWs(s, from, to) <==> Spaces(s, from, to)
  {
  }

  /** promptRE, piece by piece: a closing parenthesis at i, white space to j, perhaps a
      parenthesised word from j to g and white space to k, a mark at k, and white space
      to the end. */
  ghost predicate MatchesAt(s: string, i: nat, j: nat, g: nat, k: nat) {
    && i < j <= g <= k < |s|
    && s[i] == ')' && Spaces(s, i + 1, j)
    && (j == g || (g >= j + 2 && s[j] == '(' && s[g - 1] == ')' && forall m :: j < m < g - 1 ==> s[m] != ')'))
    && Spaces(s, g, k) && (s[k] == '#' || s[k] == '>') && Spaces(s, k + 1, |s|)
  }

  ghost predicate MatchesPrompt(s: string) {
    exists i: nat, j: nat, g: nat, k: nat :: MatchesAt(s, i, j, g, k)
  }

  lemma {:induction false} StripWsMeaning(s: string)
    ensures var r := StripWs(s);
            r <= s && AllWs(s, |r|, |s|) && (r == "" || !IsWs(r[|r| - 1]))
  {
    if s != "" && IsWs(s[|s| - 1]) {
      StripWsMeaning(s[..|s| - 1]);
    }
  }

  /** Stripping stops at the last character that is not white space. */
  lemma {:induction false} StripWsTo(s: string, k: nat)
    requires k < |s| && !IsWs(s[k]) && AllWs(s, k + 1, |s|)
    ensures StripWs(s) == s[..k + 1]
  {
    if k + 1 < |s| {
      assert AllWs(s[..|s| - 1], k + 1, |s| - 1);
      StripWsTo(s[..|s| - 1], k);
      assert s[..|s| - 1][..k + 1] == s[..k + 1];
    } else {
      assert s[..k + 1] == s;
    }
  }

  lemma {:induction false} PromptFrom(s: string, i: nat, k: nat)
    requires i < k < |s| && s[i] == ')' && AllWs(s, i + 1, k) && IsMark(s[k]) && AllWs(s, k + 1, |s|)
    ensures PromptAtEnd(s)
  {
    StripWsTo(s, k);
    assert s[..k + 1][..k] == s[..k];
    assert AllWs(s[..k], i + 1, k);
    StripWsTo(s[..k], i);
  }

  lemma {:induction false} MatchEnds(s: string, i: nat, j: nat, g: nat, k: nat)
    requires MatchesAt(s, i, j, g, k)
    ensures PromptAtEnd(s)
  {
    SpacesMeaning(s, i + 1, j);
    SpacesMeaning(s, g, k);
    SpacesMeaning(s, k + 1, |s|);
    PromptFrom(s, if j == g then i else g - 1, k);
  }

  lemma {:induction false} EndMatches(s: string)
    requires PromptAtEnd(s)
    ensures MatchesPrompt(s)
  {
    var a := StripWs(s);
    StripWsMeaning(s);
    var k := |a| - 1;
    var b := StripWs(a[..k]);
    StripWsMeaning(a[..k]);
    var i := |b| - 1;
    assert s[k] == a[k] && s[i] == b[i];
    assert forall m :: i < m < k ==> s[m] == a[..k][m];
    SpacesMeaning(s, i + 1, k);
    SpacesMeaning(s, k + 1, |s|);
    assert MatchesAt(s, i, k, k, k);
  }

  /** The optional parenthesised word changes nothing: it ends in a parenthesis too. */
  lemma {:induction false} PromptMeaning(s: string)
    ensures PromptAtEnd(s) <==> MatchesPrompt(s)
  {
    if PromptAtEnd(s) {
      EndMatches(s);
    }
    if i: nat, j: nat, g: nat, k: nat :| MatchesAt(s, i, j, g, k) {
      MatchEnds(s, i, j, g, k);
    }
  }

  lemma {:induction false} StripWsWithMore(more: string, s: string)
    requires StripWs(s) != ""
    ensures StripWs(more + s) == more + StripWs(s)
  {
    if s != "" && IsWs(s[|s| - 1]) {
      assert (more + s)[..|more + s| - 1] == more + s[..|s| - 1];
      StripWsWithMore(more, s[..|s| - 1]);
    }
  }

  /** Text that ends in a prompt still does with more in front. */
  lemma {:induction false} PromptWithMore(more: string, s: string)
    requires PromptAtEnd(s)
    ensures PromptAtEnd(more + s)
  {
    var a := StripWs(s);
    StripWsWithMore(more, s);
    StripWsWithMore(more, a[..|a| - 1]);
    assert (more + a)[..|more + a| - 1] == more + a[..|a| - 1];
  }

  /** A prompt needs a mark. */
  lemma {:induction false} PromptHasMark(s: string)
    requires PromptAtEnd(s)
    ensures exists k :: 0 <= k < |s| && IsMark(s[k])
  {
    StripWsMeaning(s);
    assert s[|StripWs(s)| - 1] == StripWs(s)[|StripWs(s)| - 1];
  }

  /** [Pp]assword: at the end of the text. */
  predicate PasswordAtEnd(s: string) {
    var a := StripWs(s);
    |a| >= 9 && (a[|a| - 9] == 'P' || a[|a| - 9] == 'p') && a[|a| - 8..] == "assword:"
  }

  /** The same by places: the word at i, in either case, and white space after it. */
  ghost predicate PasswordAt(s: string, i: nat) {
    i + 9 <= |s| && (s[i..i + 9] == "Password:" || s[i..i + 9] == "password:") && Spaces(s, i + 9, |s|)
  }

  lemma {:induction false} PasswordTail(a: string)
    requires |a| >= 9
    ensures (a[|a| - 9] == 'P' || a[|a| - 9] == 'p') && a[|a| - 8..] == "assword:"
       <==> a[|a| - 9..] == "Password:" || a[|a| - 9..] == "password:"
  {
    assert a[|a| - 9..] == [a[|a| - 9]] + a[|a| - 8..];
    assert "Password:" == "P" + "assword:" && "password:" == "p" + "assword:";
  }

  lemma {:induction false} PasswordMeaning(s: string)
    ensures PasswordAtEnd(s) <==> exists i: nat :: PasswordAt(s, i)
  {
    var a := StripWs(s);
    StripWsMeaning(s);
    SpacesMeaning(s, |a|, |s|);
    if PasswordAtEnd(s) {
      PasswordTail(a);
      assert s[|a| - 9..|a|] == a[|a| - 9..];
      assert PasswordAt(s, |a| - 9);
    }
    if i: nat :| PasswordAt(s, i) {
      SpacesMeaning(s, i + 9, |s|);
      assert s[i + 8] == s[i..i + 9][8] == ':';
      StripWsTo(s, i + 8);
      PasswordTail(a);
      assert a[|a| - 9..] == s[i..i + 9];
    }
  }

  /** Text that ends in asking for a password still does with more in front. */
  lemma {:induction false} PasswordWithMore(more: string, s: string)
    requires PasswordAtEnd(s)
    ensures PasswordAtEnd(more + s)
  {
    PasswordMeaning(s);
    PasswordMeaning(more + s);
    var i: nat :| PasswordAt(s, i);
    var all := more + s;
    assert all[|more| + i..|more| + i + 9] == s[i..i + 9];
    assert forall k :: |more| + i + 9 <= k < |all| ==> all[k] == s[k - |more|];
    assert PasswordAt(all, |more| + i);
  }

  lemma {:induction false} NotBoth(s: string)
    ensures !(PromptAtEnd(s) && PasswordAtEnd(s))
  {
    var a := StripWs(s);
    if |a| >= 9 && a[|a| - 8..] == "assword:" {
      assert a[|a| - 1] == a[|a| - 8..][7] == ':';
    }
  }

  // ------------------------------------------------------------------
  // Line endings
  // ------------------------------------------------------------------

  /** strings.ReplaceAll(s, "\n", "\r\n") */
  function Crlf(s: string): string {
    if s == "" then "" else (if s[0] == '\n' then ['\r', '\n'] else [s[0]]) + Crlf(s[1..])
  }

  /** strings.ReplaceAll(s, "\r\n", "\n") */
  function JoinCrlf(s: string): string {
    if s == "" then ""
    else if |s| >= 2 && s[0] == '\r' && s[1] == '\n' then ['\n'] + JoinCrlf(s[2..])
    else [s[0]] + JoinCrlf(s[1..])
  }

  /** strings.ReplaceAll(s, "\r", "\n") */
  function CrToLf(s: string): (r: string)
    ensures |r| == |s|
  {
    seq(|s|, i requires 0 <= i < |s| => if s[i] == '\r' then '\n' else s[i])
  }

  lemma {:induction false} JoinPair(rest: string)
    ensures JoinCrlf(['\r', '\n'] + rest) == ['\n'] + JoinCrlf(rest)
  {
    assert (['\r', '\n'] + rest)[2..] == rest;
  }

  lemma {:induction false} JoinOne(c: char, rest: string)
    requires c != '\r' || rest == "" || rest[0] != '\n'
    ensures JoinCrlf([c] + rest) == [c] + JoinCrlf(rest)
  {
    assert ([c] + rest)[1..] == rest;
  }

  /** Concatenation commutes with joining unless it makes a new line ending. */
  lemma {:induction false} JoinCrlfConcat(a: string, b: string)
    requires a == "" || b == "" || a[|a| - 1] != '\r' || b[0] != '\n'
    ensures JoinCrlf(a + b) == JoinCrlf(a) + JoinCrlf(b)
    decreases |a|
  {
    if a == "" {
      assert a + b == b;
    } else if |a| >= 2 && a[0] == '\r' && a[1] == '\n' {
      JoinPairConcat(a[2..], b);
      assert a == ['\r', '\n'] + a[2..];
    } else {
      JoinOneConcat(a[0], a[1..], b);
      assert a == [a[0]] + a[1..];
    }
  }

  lemma {:induction false} JoinPairConcat(rest: string, b: string)
    requires rest == "" || b == "" || rest[|rest| - 1] != '\r' || b[0] != '\n'
    ensures JoinCrlf(['\r', '\n'] + rest + b) == JoinCrlf(['\r', '\n'] + rest) + JoinCrlf(b)
    decreases |rest| + 1
  {
    JoinCrlfConcat(rest, b);
    JoinPair(rest);
    JoinPair(rest + b);
    ConcatAssoc(['\r', '\n'], rest, b);
    ConcatAssoc(['\n'], JoinCrlf(rest), JoinCrlf(b));
  }

  lemma {:induction false} JoinOneConcat(c: char, rest: string, b: string)
    requires c != '\r' || rest == "" || rest[0] != '\n'
    requires b == "" || (if rest == "" then c else rest[|rest| - 1]) != '\r' || b[0] != '\n'
    ensures JoinCrlf([c] + rest + b) == JoinCrlf([c] + rest) + JoinCrlf(b)
    decreases |rest| + 1, 0
  {
    JoinCrlfConcat(rest, b);
    JoinOne(c, rest);
    assert rest == "" ==> rest + b == b;
    JoinOne(c, rest + b);
    ConcatAssoc([c], rest, b);
    ConcatAssoc([c], JoinCrlf(rest), JoinCrlf(b));
  }

  lemma {:induction false} JoinCrlfPlain(s: string)
    requires forall i :: 0 <= i < |s| ==> s[i] != '\r'
    ensures JoinCrlf(s) == s
  {
    if s != "" {
      JoinCrlfPlain(s[1..]);
    }
  }

  /** Joining undoes splitting, carriage returns of the text's own included. */
  lemma {:induction false} JoinOfCrlf(s: string)
    ensures JoinCrlf(Crlf(s)) == s
  {
    if s != "" {
      var rest := Crlf(s[1..]);
      JoinOfCrlf(s[1..]);
      if s[0] == '\n' {
        assert (['\r', '\n'] + rest)[2..] == rest;
      } else {
        CrlfStart(s[1..]);
        JoinCrlfConcat([s[0]], rest);
        assert JoinCrlf([s[0]]) == [s[0]];
      }
    }
  }

  /** Split text never starts with a bare line feed. */
  lemma {:induction false} CrlfStart(s: string)
    ensures Crlf(s) == "" || Crlf(s)[0] != '\n'
  {
  }

  // ------------------------------------------------------------------
  // Lines
  // ------------------------------------------------------------------

  predicate OneLine(s: string) {
    forall i :: 0 <= i < |s| ==> s[i] != '\n' && s[i] != '\r'
  }

  /** strings.Split(s, "\n") */
  function Lines(s: string): (r: seq<string>)
    ensures |r| >= 1
  {
    if s == "" then [""]
    else
      var rest := Lines(s[1..]);
      if s[0] == '\n' then [""] + rest else [[s[0]] + rest[0]] + rest[1..]
  }

  /** strings.Join(lines, "\n") */
  function Unlines(lines: seq<string>): string {
    if lines == [] then ""
    else if |lines| == 1 then lines[0]
    else lines[0] + "\n" + Unlines(lines[1..])
  }

  lemma {:induction false} UnlinesOfLines(s: string)
    ensures Unlines(Lines(s)) == s
  {
    if s != "" {
      UnlinesOfLines(s[1..]);
      var rest := Lines(s[1..]);
      if s[0] == '\n' {
        assert ([""] + rest)[1..] == rest;
        assert s == "" + "\n" + s[1..];
      } else {
        var lines := [[s[0]] + rest[0]] + rest[1..];
        assert s == [s[0]] + s[1..];
        if |rest| > 1 {
          assert lines[1..] == rest[1..];
          assert [s[0]] + (rest[0] + "\n" + Unlines(rest[1..])) == [s[0]] + rest[0] + "\n" + Unlines(rest[1..]);
        }
      }
    }
  }

  /** A line without a break, then a break, then the rest. */
  lemma {:induction false} LinesCons(a: string, b: string)
    requires forall i :: 0 <= i < |a| ==> a[i] != '\n'
    ensures Lines(a + "\n" + b) == [a] + Lines(b)
  {
    var s := a + "\n" + b;
    if a == "" {
      assert s[1..] == b;
    } else {
      assert s[1..] == a[1..] + "\n" + b;
      LinesCons(a[1..], b);
      assert ([a[1..]] + Lines(b))[1..] == Lines(b);
      assert [a[0]] + a[1..] == a;
    }
  }

  /** One character in front of some lines. */
  function OneMore(c: char, lines: seq<string>): seq<string>
    requires |lines| >= 1
  {
    if c == '\n' then [""] + lines else [[c] + lines[0]] + lines[1..]
  }

  lemma {:induction false} LinesStep(c: char, s: string)
    ensures Lines([c] + s) == OneMore(c, Lines(s))
  {
    assert ([c] + s)[1..] == s;
  }

  lemma {:induction false} OneMoreSnoc(c: char, lines: seq<string>, last: string)
    requires |lines| >= 1
    ensures OneMore(c, lines + [last]) == OneMore(c, lines) + [last]
  {
    assert (lines + [last])[1..] == lines[1..] + [last];
  }

  /** A last line without a break. */
  lemma {:induction false} LinesSnoc(a: string, b: string)
    requires forall i :: 0 <= i < |b| ==> b[i] != '\n'
    ensures Lines(a + "\n" + b) == Lines(a) + [b]
  {
    if a == "" {
      assert a + "\n" + b == ['\n'] + b;
      LinesStep('\n', b);
      LinesSingle(b);
    } else {
      assert a + "\n" + b == [a[0]] + (a[1..] + "\n" + b) && a == [a[0]] + a[1..];
      LinesSnoc(a[1..], b);
      LinesStep(a[0], a[1..] + "\n" + b);
      LinesStep(a[0], a[1..]);
      OneMoreSnoc(a[0], Lines(a[1..]), b);
    }
  }

  lemma {:induction false} LinesSingle(b: string)
    requires forall i :: 0 <= i < |b| ==> b[i] != '\n'
    ensures Lines(b) == [b]
  {
    if b != "" {
      LinesSingle(b[1..]);
      assert [b[0]] + b[1..] == b;
    }
  }

  /** One line only: there is no break. */
  lemma {:induction false} LinesSolid(s: string)
    requires |Lines(s)| == 1
    ensures Lines(s) == [s]
  {
    if s != "" {
      LinesSolid(s[1..]);
      assert [s[0]] + s[1..] == s;
    }
  }

  /** The last line is a suffix with no break in it. */
  lemma {:induction false} LastLine(s: string)
    ensures var line := Lines(s)[|Lines(s)| - 1];
            |line| <= |s| && s[|s| - |line|..] == line && forall i :: 0 <= i < |line| ==> line[i] != '\n'
  {
    if s != "" {
      LastLine(s[1..]);
      var rest := Lines(s[1..]);
      var line := rest[|rest| - 1];
      assert s[1..][|s| - 1 - |line|..] == s[|s| - |line|..];
      if s[0] != '\n' && |rest| == 1 {
        LinesSolid(s);
        assert s[0..] == s;
      }
    }
  }

  lemma {:induction false} ContainsAt(a: string, sub: string, b: string)
    ensures Contains(a + sub + b, sub)
  {
    var s := a + sub + b;
    if a != "" {
      assert s[1..] == a[1..] + sub + b;
      ContainsAt(a[1..], sub, b);
    } else {
      assert s == sub + b;
    }
  }

  /** strings.Trim(s, "\n") */
  function TrimBreaks(s: string): string {
    if s != "" && s[0] == '\n' then TrimBreaks(s[1..])
    else if s != "" && s[|s| - 1] == '\n' then TrimBreaks(s[..|s| - 1])
    else s
  }

  ghost predicate Breaks(s: string) {
    forall i :: 0 <= i < |s| ==> s[i] == '\n'
  }

  /** Line breaks are trimmed at both ends, all of them, and nothing else is. */
  lemma {:induction false} TrimBreaksMeaning(s: string) returns (before: string, after: string)
    ensures s == before + TrimBreaks(s) + after && Breaks(before) && Breaks(after)
    ensures var r := TrimBreaks(s);
            r == "" || (r[0] != '\n' && r[|r| - 1] != '\n')
  {
    if s != "" && s[0] == '\n' {
      before, after := TrimBreaksMeaning(s[1..]);
      assert s == "\n" + (before + TrimBreaks(s) + after);
      before := "\n" + before;
    } else if s != "" && s[|s| - 1] == '\n' {
      before, after := TrimBreaksMeaning(s[..|s| - 1]);
      assert s == before + TrimBreaks(s) + after + "\n";
      after := after + "\n";
    } else {
      before, after := "", "";
    }
  }

  lemma {:induction false} TrimmedContained(c: string)
    ensures Contains(c, Whitespace.TrimSpace(c))
  {
    var r := Whitespace.TrimRight(c);
    var t := Whitespace.TrimLeft(r);
    Whitespace.TrimRightMeaning(c);
    Whitespace.TrimLeftMeaning(r);
    ContainsAt(r[..|r| - |t|], t, c[|r|..]);
    assert c == r[..|r| - |t|] + t + c[|r|..];
  }

  // ------------------------------------------------------------------
  // cleanOutput
  // ------------------------------------------------------------------

  function DropEcho(lines: seq<string>, command: string): seq<string> {
    var c := Whitespace.TrimSpace(command);
    if lines != [] && c != "" && Contains(lines[0], c) then lines[1..] else lines
  }

  function DropPrompts(lines: seq<string>): seq<string> {
    if lines != [] && PromptAtEnd(lines[|lines| - 1]) then DropPrompts(lines[..|lines| - 1]) else lines
  }

  function Clean(raw: string, command: string): string {
    TrimBreaks(Unlines(DropPrompts(DropEcho(Lines(CrToLf(JoinCrlf(raw))), command))))
  }

  /** cleanOutput. */
  method CleanOutput(raw: string, command: string) returns (text: string)
    ensures text == Clean(raw, command)
  {
    var lines := Lines(CrToLf(JoinCrlf(raw)));
    var c := Whitespace.TrimSpace(command);
    if |lines| > 0 && c != "" && Contains(lines[0], c) {
      lines := lines[1..];
    }
    ghost var kept := DropPrompts(lines);
    while |lines| > 0 && PromptAtEnd(lines[|lines| - 1])
      invariant DropPrompts(lines) == kept
    {
      lines := lines[..|lines| - 1];
    }
    text := TrimBreaks(Unlines(lines));
  }

  // ------------------------------------------------------------------
  // A response
  // ------------------------------------------------------------------

  /** What the listener writes for one command: the echo, the output if there is any,
      and the next prompt. */
  function Response(command: string, output: string, prompt: string): string {
    command + "\r\n" + (if output == "" then "" else Crlf(output) + "\r\n") + prompt
  }

  /** Nothing before the end of the text could be taken for its end. */
  ghost predicate Quiet(s: string) {
    forall n :: 0 < n < |s| ==> !PromptAtEnd(s[..n])
  }

  /** A command the echo of which is recognised, or that leaves none. */
  predicate Sendable(command: string) {
    OneLine(command) && (command == "" || Whitespace.TrimSpace(command) != "")
  }

  lemma {:induction false} JoinAtBreak(a: string, b: string)
    ensures JoinCrlf(a + "\r\n" + b) == JoinCrlf(a) + "\n" + JoinCrlf(b)
  {
    assert JoinCrlf("\r\n") == "\n";
    JoinCrlfConcat(a, "\r\n");
    JoinCrlfConcat(a + "\r\n", b);
  }

  lemma {:induction false} JoinedBody(output: string, prompt: string)
    requires OneLine(prompt)
    ensures JoinCrlf(Crlf(output) + "\r\n" + prompt) == output + "\n" + prompt
  {
    JoinOfCrlf(output);
    JoinCrlfPlain(prompt);
    JoinAtBreak(Crlf(output), prompt);
  }

  lemma {:induction false} JoinedEcho(command: string, rest: string)
    requires OneLine(command)
    ensures JoinCrlf(command + "\r\n" + rest) == command + "\n" + JoinCrlf(rest)
  {
    JoinCrlfPlain(command);
    JoinAtBreak(command, rest);
  }

  lemma {:induction false} JoinedResponse(command: string, output: string, prompt: string)
    requires OneLine(command) && OneLine(prompt)
    ensures JoinCrlf(Response(command, output, prompt))
         == command + "\n" + ((if output == "" then "" else output + "\n") + prompt)
  {
    var body := if output == "" then "" else Crlf(output) + "\r\n";
    ConcatAssoc(command + "\r\n", body, prompt);
    JoinedEcho(command, body + prompt);
    if output == "" {
      assert "" + prompt == prompt;
      JoinCrlfPlain(prompt);
    } else {
      JoinedBody(output, prompt);
    }
  }

  lemma {:induction false} CrToLfConcat(a: string, b: string)
    ensures CrToLf(a + b) == CrToLf(a) + CrToLf(b)
  {
  }

  lemma {:induction false} CrToLfPlain(s: string)
    requires forall i :: 0 <= i < |s| ==> s[i] != '\r'
    ensures CrToLf(s) == s
  {
  }

  lemma {:induction false} ResponseLines(command: string, output: string, prompt: string)
    requires OneLine(command) && OneLine(prompt)
    ensures Lines(CrToLf(JoinCrlf(Response(command, output, prompt))))
         == [command] + ((if output == "" then [] else Lines(CrToLf(output))) + [prompt])
  {
    JoinedResponse(command, output, prompt);
    CrToLfPlain(command + "\n");
    CrToLfPlain(prompt);
    if output == "" {
      assert "" + prompt == prompt;
      CrToLfConcat(command + "\n", prompt);
      LinesCons(command, prompt);
      LinesSingle(prompt);
    } else {
      CrToLfPlain("\n");
      CrToLfConcat(output, "\n");
      CrToLfConcat(output + "\n", prompt);
      CrToLfConcat(command + "\n", output + "\n" + prompt);
      LinesCons(command, CrToLf(output) + "\n" + prompt);
      LinesSnoc(CrToLf(output), prompt);
    }
  }

  lemma {:induction false} QuietPrefix(s: string, rest: string)
    requires Quiet(s + rest) && s != "" && rest != ""
    ensures !PromptAtEnd(s)
  {
    assert (s + rest)[..|s|] == s;
  }

  lemma {:induction false} ResponseParts(command: string, output: string, prompt: string, at: nat)
    requires output != "" && at <= |output| && forall i :: at <= i < |output| ==> output[i] != '\n'
    ensures Response(command, output, prompt)
         == (command + "\r\n" + Crlf(output[..at]) + output[at..]) + ("\r\n" + prompt)
  {
    CrlfSuffix(output, at);
    var echo, head, tail := command + "\r\n", Crlf(output[..at]), output[at..];
    ConcatAssoc(echo, head, tail);
    ConcatAssoc(echo + (head + tail), "\r\n", prompt);
    ConcatAssoc(echo, head + tail, "\r\n");
  }

  /** Where the last line of the output starts, in the output itself. */
  lemma {:induction false} LastLineAt(output: string, line: string)
    requires line == Lines(CrToLf(output))[|Lines(CrToLf(output))| - 1]
    ensures |line| <= |output| && output[|output| - |line|..] == line
    ensures forall i :: |output| - |line| <= i < |output| ==> output[i] != '\n'
  {
    var text := CrToLf(output);
    LastLine(text);
    var at := |output| - |line|;
    assert forall i :: 0 <= i < |line| ==> text[at + i] == text[at..][i] == line[i];
    assert forall i :: 0 <= i < |line| ==> output[at + i] == line[i];
  }

  /** The last line of the output is not taken for a prompt. */
  lemma {:induction false} LastLineQuiet(command: string, output: string, prompt: string)
    requires Quiet(Response(command, output, prompt)) && output != ""
    ensures !PromptAtEnd(Lines(CrToLf(output))[|Lines(CrToLf(output))| - 1])
  {
    var line := Lines(CrToLf(output))[|Lines(CrToLf(output))| - 1];
    LastLineAt(output, line);
    var at := |output| - |line|;
    var head := command + "\r\n" + Crlf(output[..at]);
    ResponseParts(command, output, prompt, at);
    QuietPrefix(head + line, "\r\n" + prompt);
    if PromptAtEnd(line) {
      PromptWithMore(head, line);
    }
  }

  /** Splitting leaves a tail without line feeds as it is. */
  lemma {:induction false} CrlfSuffix(s: string, at: nat)
    requires at <= |s| && forall i :: at <= i < |s| ==> s[i] != '\n'
    ensures Crlf(s) == Crlf(s[..at]) + s[at..]
  {
    if at == 0 {
      CrlfPlain(s);
    } else {
      assert s[1..][..at - 1] == s[..at][1..] && s[1..][at - 1..] == s[at..];
      CrlfSuffix(s[1..], at - 1);
    }
  }

  lemma {:induction false} CrlfPlain(s: string)
    requires forall i :: 0 <= i < |s| ==> s[i] != '\n'
    ensures Crlf(s) == s
  {
    if s != "" {
      CrlfPlain(s[1..]);
    }
  }

  lemma {:induction false} DropTail(lines: seq<string>, prompt: string)
    requires PromptAtEnd(prompt) && (lines == [] || !PromptAtEnd(lines[|lines| - 1]))
    ensures DropPrompts(lines + [prompt]) == lines
  {
    assert (lines + [prompt])[..|lines|] == lines;
  }

  lemma {:induction false} BlankFirst(text: string)
    ensures TrimBreaks(Unlines([""] + Lines(text))) == TrimBreaks(text)
  {
    UnlinesOfLines(text);
    assert ([""] + Lines(text))[1..] == Lines(text);
    var s := "" + "\n" + text;
    assert s[1..] == text;
  }

  /** The lines of the output, none of which the client takes for a prompt. */
  function OutputLines(output: string): seq<string> {
    if output == "" then [] else Lines(CrToLf(output))
  }

  lemma {:induction false} OutputBack(output: string)
    ensures TrimBreaks(Unlines(OutputLines(output))) == TrimBreaks(CrToLf(output))
    ensures TrimBreaks(Unlines([""] + OutputLines(output))) == TrimBreaks(CrToLf(output))
  {
    if output != "" {
      UnlinesOfLines(CrToLf(output));
      BlankFirst(CrToLf(output));
    }
  }

  lemma {:induction false} EchoDropped(command: string, body: seq<string>, prompt: string)
    requires command == "" || Whitespace.TrimSpace(command) != ""
    requires PromptAtEnd(prompt) && (body == [] || !PromptAtEnd(body[|body| - 1]))
    ensures DropPrompts(DropEcho([command] + (body + [prompt]), command))
            == if Whitespace.TrimSpace(command) == "" then [command] + body else body
  {
    TrimmedContained(command);
    if Whitespace.TrimSpace(command) != "" {
      assert ([command] + (body + [prompt]))[1..] == body + [prompt];
      DropTail(body, prompt);
    } else {
      assert !PromptAtEnd("");
      ConcatAssoc([""], body, [prompt]);
      DropTail([""] + body, prompt);
    }
  }

  /** Cleaning a response gives the output, its carriage returns as line breaks, the
      breaks around it trimmed. */
  lemma {:induction false} CleanResponse(command: string, output: string, prompt: string)
    requires Sendable(command) && OneLine(prompt) && PromptAtEnd(prompt)
    requires Quiet(Response(command, output, prompt))
    ensures Clean(Response(command, output, prompt), command) == TrimBreaks(CrToLf(output))
  {
    ResponseLines(command, output, prompt);
    if output != "" {
      LastLineQuiet(command, output, prompt);
    }
    EchoDropped(command, OutputLines(output), prompt);
    OutputBack(output);
  }

  /** Text with no mark before its end is quiet: a # or a > is needed for a prompt. */
  lemma {:induction false} UnmarkedIsQuiet(s: string)
    requires forall i :: 0 <= i < |s| - 1 ==> !IsMark(s[i])
    ensures Quiet(s)
  {
    forall n | 0 < n < |s| ensures !PromptAtEnd(s[..n]) {
      if PromptAtEnd(s[..n]) {
        PromptHasMark(s[..n]);
      }
    }
  }
}
