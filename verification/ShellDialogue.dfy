/** The commands that talk back: RunSCPCopy and RunWriteMemory (fastpath/session.go),
    which answer the switch's questions until its prompt returns. */
module ShellDialogue {
  import opened Prelude
  import opened ShellText
  import opened ShellSession
  import PortNaming

  // ------------------------------------------------------------------
  // What the switch may say
  // ------------------------------------------------------------------

  /** The texts a dialogue looks for, anywhere in what was received since its last
      answer, and what it answers. */
  datatype Script = Script(
    failed: string -> bool,
    questions: seq<Question>,
    succeeded: string -> bool,
    prompt: string -> bool
  )

  datatype Question = Question(asked: string -> bool, answer: string)

  /** The answer to the first question that is asked. */
  function AnswerTo(questions: seq<Question>, text: string): Option<string> {
    if questions == [] then None
    else if questions[0].asked(text) then Some(questions[0].answer)
    else AnswerTo(questions[1..], text)
  }

  datatype Reaction = GiveUp | Say(text: string) | Finish | Listen

  /** What is done about the text since the last answer: failure comes before the
      questions, and they come before the prompt. */
  function React(script: Script, text: string): Reaction {
    if script.failed(text) then GiveUp
    else
      var a := AnswerTo(script.questions, text);
      if a.Some? then Say(a.value) else if script.prompt(text) then Finish else Listen
  }

  predicate Anywhere(s: string, at: string -> bool) {
    at(s) || (s != "" && Anywhere(s[1..], at))
  }

  /** left, a slash, right, with white space around the slash. */
  predicate Slashed(s: string, left: string, right: string) {
    && left <= s
    && var rest := PortNaming.SkipWs(s[|left|..]);
       rest != "" && rest[0] == '/' && right <= PortNaming.SkipWs(rest[1..])
  }

  /** host key|continue connecting|\(yes\s*\/\s*no, in any case */
  predicate AsksHostKey(text: string) {
    var s := PortNaming.Lower(text);
    Contains(s, "host key") || Contains(s, "continue connecting") || Anywhere(s, t => Slashed(t, "(yes", "no"))
  }

  /** [Pp]assword: */
  predicate AsksPassword(text: string) {
    Contains(text, "Password:") || Contains(text, "password:")
  }

  /** \(y\s*\/\s*n\) */
  predicate AsksConfirm(text: string) {
    Anywhere(text, t => Slashed(t, "(y", "n)"))
  }

  /** bytes transferred|completed successfully|operation completed, in any case */
  predicate ReportsSuccess(text: string) {
    var s := PortNaming.Lower(text);
    Contains(s, "bytes transferred") || Contains(s, "completed successfully") || Contains(s, "operation completed")
  }

  /** %\s*error */
  predicate PercentError(t: string) {
    t != "" && t[0] == '%' && "error" <= PortNaming.SkipWs(t[1..])
  }

  /** transfer failed|failed!|%\s*error|error during, in any case */
  predicate ReportsFailure(text: string) {
    var s := PortNaming.Lower(text);
    || Contains(s, "transfer failed") || Contains(s, "failed!") || Contains(s, "error during")
    || Anywhere(s, PercentError)
  }

  // ------------------------------------------------------------------
  // The expressions, by places
  // ------------------------------------------------------------------

  /** A word at some place. */
  ghost predicate WordAt(s: string, i: nat, word: string) {
    i <= |s| && word <= s[i..]
  }

  ghost predicate Somewhere(s: string, word: string) {
    exists i: nat :: WordAt(s, i, word)
  }

  lemma {:induction false} ContainsIsSomewhere(s: string, word: string)
    ensures Contains(s, word) <==> Somewhere(s, word)
  {
    ContainsMeaning(s, word);
    if i: nat :| WordAt(s, i, word) {
      assert word <= s[i..];
    }
    if i :| 0 <= i <= |s| && word <= s[i..] {
      assert WordAt(s, i, word);
    }
  }

  lemma {:induction false} AnywhereMeaning(s: string, at: string -> bool)
    ensures Anywhere(s, at) <==> exists i :: 0 <= i <= |s| && at(s[i..])
    decreases |s|
  {
    assert s[0..] == s;
    if s != "" {
      AnywhereMeaning(s[1..], at);
      if i :| 0 <= i <= |s[1..]| && at(s[1..][i..]) {
        assert s[1..][i..] == s[i + 1..];
      }
      if i :| 0 < i <= |s| && at(s[i..]) {
        assert s[1..][i - 1..] == s[i..];
      }
    }
  }

  /** left, a slash at j, right at k, and white space between. */
  ghost predicate SlashedAt(s: string, left: string, j: nat, k: nat, right: string) {
    && left <= s && |left| <= j < k <= |s|
    && Spaces(s, |left|, j) && s[j] == '/' && Spaces(s, j + 1, k) && right <= s[k..]
  }

  lemma {:induction false} SpacesShift(s: string, n: nat, from: nat, to: nat)
    requires n <= |s| && from <= to <= |s| - n
    ensures Spaces(s[n..], from, to) <==> Spaces(s, n + from, n + to)
  {
    if Spaces(s[n..], from, to) {
      forall i | n + from <= i < n + to ensures s[i] as int in {0x20, 0x09, 0x0A, 0x0C, 0x0D} {
        assert s[i] == s[n..][i - n];
      }
    }
  }

  lemma {:induction false} SlashedFrom(s: string, left: string, j: nat, k: nat, right: string)
    requires SlashedAt(s, left, j, k, right) && right != "" && !IsWs(right[0])
    ensures Slashed(s, left, right)
  {
    SpacesShift(s, |left|, 0, j - |left|);
    PortNaming.SkipWsTo(s[|left|..], j - |left|);
    assert s[|left|..][j - |left|..] == s[j..] && s[j..][1..] == s[j + 1..];
    SpacesShift(s, j + 1, 0, k - j - 1);
    assert s[j + 1..][k - j - 1..] == s[k..];
    assert s[k] == s[k..][0] == right[0];
    PortNaming.SkipWsTo(s[j + 1..], k - j - 1);
  }

  /** left\s*\/\s*right */
  lemma {:induction false} SlashedMeaning(s: string, left: string, right: string)
    requires right != "" && !IsWs(right[0])
    ensures Slashed(s, left, right) <==> exists j: nat, k: nat :: SlashedAt(s, left, j, k, right)
  {
    if j: nat, k: nat :| SlashedAt(s, left, j, k, right) {
      SlashedFrom(s, left, j, k, right);
    }
    if Slashed(s, left, right) {
      var m := PortNaming.SkipWsMeaning(s[|left|..]);
      var j := |left| + m;
      SpacesShift(s, |left|, 0, m);
      assert s[|left|..][m..] == s[j..] && s[j..][1..] == s[j + 1..];
      var n := PortNaming.SkipWsMeaning(s[j + 1..]);
      SpacesShift(s, j + 1, 0, n);
      assert s[j + 1..][n..] == s[j + 1 + n..];
      assert SlashedAt(s, left, j, j + 1 + n, right);
    }
  }

  ghost predicate SlashedSomewhere(s: string, left: string, right: string) {
    exists i: nat, j: nat, k: nat :: i <= |s| && SlashedAt(s[i..], left, j, k, right)
  }

  lemma {:induction false} AnywhereSlashed(s: string, left: string, right: string, at: string -> bool)
    requires right != "" && !IsWs(right[0])
    requires forall t :: at(t) == Slashed(t, left, right)
    ensures Anywhere(s, at) <==> SlashedSomewhere(s, left, right)
  {
    AnywhereMeaning(s, at);
    if i :| 0 <= i <= |s| && at(s[i..]) {
      SlashedMeaning(s[i..], left, right);
    }
    if i: nat, j: nat, k: nat :| i <= |s| && SlashedAt(s[i..], left, j, k, right) {
      SlashedMeaning(s[i..], left, right);
      assert at(s[i..]);
    }
  }

  /** The host key question, by its expression. */
  lemma {:induction false} HostKeyMeaning(text: string)
    ensures var s := PortNaming.Lower(text);
            AsksHostKey(text)
            <==> Somewhere(s, "host key") || Somewhere(s, "continue connecting") || SlashedSomewhere(s, "(yes", "no")
  {
    var s := PortNaming.Lower(text);
    ContainsIsSomewhere(s, "host key");
    ContainsIsSomewhere(s, "continue connecting");
    AnywhereSlashed(s, "(yes", "no", t => Slashed(t, "(yes", "no"));
  }

  lemma {:induction false} PasswordQuestionMeaning(text: string)
    ensures AsksPassword(text) <==> Somewhere(text, "Password:") || Somewhere(text, "password:")
  {
    ContainsIsSomewhere(text, "Password:");
    ContainsIsSomewhere(text, "password:");
  }

  /** The confirmation, in lower case only. */
  lemma {:induction false} ConfirmMeaning(text: string)
    ensures AsksConfirm(text) <==> SlashedSomewhere(text, "(y", "n)")
  {
    AnywhereSlashed(text, "(y", "n)", t => Slashed(t, "(y", "n)"));
  }

  lemma {:induction false} SuccessMeaning(text: string)
    ensures var s := PortNaming.Lower(text);
            ReportsSuccess(text)
            <==> Somewhere(s, "bytes transferred") || Somewhere(s, "completed successfully") || Somewhere(s, "operation completed")
  {
    var s := PortNaming.Lower(text);
    ContainsIsSomewhere(s, "bytes transferred");
    ContainsIsSomewhere(s, "completed successfully");
    ContainsIsSomewhere(s, "operation completed");
  }

  /** A percent sign at i, white space to j, the word. */
  ghost predicate PercentAt(s: string, i: nat, j: nat) {
    i < j <= |s| && s[i] == '%' && Spaces(s, i + 1, j) && "error" <= s[j..]
  }

  lemma {:induction false} PercentHere(s: string, i: nat)
    requires i <= |s|
    ensures PercentError(s[i..]) <==> exists j: nat :: PercentAt(s, i, j)
  {
    if i < |s| {
      assert s[i..][1..] == s[i + 1..] && s[i..][0] == s[i];
      if PercentError(s[i..]) {
        var m := PortNaming.SkipWsMeaning(s[i + 1..]);
        SpacesShift(s, i + 1, 0, m);
        assert s[i + 1..][m..] == s[i + 1 + m..];
        assert PercentAt(s, i, i + 1 + m);
      }
      if j: nat :| PercentAt(s, i, j) {
        SpacesShift(s, i + 1, 0, j - i - 1);
        assert s[i + 1..][j - i - 1..] == s[j..] && s[j] == s[j..][0] == 'e';
        PortNaming.SkipWsTo(s[i + 1..], j - i - 1);
      }
    }
  }

  /** A failed transfer, by its expression. */
  lemma {:induction false} FailureMeaning(text: string)
    ensures var s := PortNaming.Lower(text);
            ReportsFailure(text)
            <==> Somewhere(s, "transfer failed") || Somewhere(s, "failed!") || Somewhere(s, "error during")
                 || exists i: nat, j: nat :: PercentAt(s, i, j)
  {
    var s := PortNaming.Lower(text);
    ContainsIsSomewhere(s, "transfer failed");
    ContainsIsSomewhere(s, "failed!");
    ContainsIsSomewhere(s, "error during");
    AnywhereMeaning(s, PercentError);
    if i :| 0 <= i <= |s| && PercentError(s[i..]) {
      PercentHere(s, i);
    }
    if i: nat, j: nat :| PercentAt(s, i, j) {
      PercentHere(s, i);
    }
  }

  // ------------------------------------------------------------------
  // The scripts
  // ------------------------------------------------------------------

  function CopyScript(scpPassword: string): Script {
    Script(ReportsFailure,
           [Question(AsksHostKey, "yes\r\n"), Question(AsksPassword, scpPassword + "\r\n"), Question(AsksConfirm, "y")],
           ReportsSuccess, PromptAtEnd)
  }

  /** Saving: only the confirmation is answered, unless it was sent ahead. */
  function SaveScript(prestuff: bool): Script {
    Script(_ => false, if prestuff then [] else [Question(AsksConfirm, "y")], _ => false, PromptAtEnd)
  }

  // ------------------------------------------------------------------
  // The switch
  // ------------------------------------------------------------------

  /** A line at a moment. */
  datatype Moment = Moment(pending: string, replies: seq<string>, sent: seq<string>, readCount: nat)

  /** A switch that says one thing after each write, cut up as the channel likes. */
  class Line {
    const cuts: nat -> nat
    const refused: nat -> bool      // whether a write fails, by how many came before
    const hungUp: bool              // whether running dry is an end of file, or an error
    var replies: seq<string>        // what is still to be said
    var pending: string
    var readCount: nat
    var sent: seq<string>

    constructor (cuts: nat -> nat, refused: nat -> bool, hungUp: bool, replies: seq<string>)
      ensures this.cuts == cuts && this.refused == refused && this.hungUp == hungUp && this.replies == replies
      ensures pending == "" && readCount == 0 && sent == []
    {
      this.cuts, this.refused, this.hungUp, this.replies := cuts, refused, hungUp, replies;
      pending, readCount, sent := "", 0, [];
    }

    ghost function Now(): Moment
      reads this
    {
      Moment(pending, replies, sent, readCount)
    }

    method Write(bytes: string) returns (ok: bool)
      modifies this`replies, this`pending, this`sent
      ensures ok <==> !refused(|old(sent)|)
      ensures sent == if ok then old(sent) + [bytes] else old(sent)
      ensures pending + Concat(replies) == old(pending) + Concat(old(replies))
      ensures !ok || old(replies) == [] ==> pending == old(pending) && replies == old(replies)
      ensures ok && old(replies) != [] ==> pending == old(pending) + old(replies)[0] && replies == old(replies)[1..]
    {
      ok := !refused(|sent|);
      if ok {
        sent := sent + [bytes];
        if replies != [] {
          ConcatAssoc(pending, replies[0], Concat(replies[1..]));
          pending, replies := pending + replies[0], replies[1..];
        }
      }
    }

    method Read() returns (data: string)
      modifies this`pending, this`readCount
      ensures old(pending) == data + pending && |data| == ReadSize(cuts(old(readCount)), |old(pending)|)
      ensures readCount == old(readCount) + 1
    {
      var n := ReadSize(cuts(readCount), |pending|);
      data, pending := pending[..n], pending[n..];
      readCount := readCount + 1;
    }
  }

  function Concat(texts: seq<string>): string {
    if texts == [] then "" else texts[0] + Concat(texts[1..])
  }

  // ------------------------------------------------------------------
  // The dialogue
  // ------------------------------------------------------------------

  datatype DialogueError = TransferFailed | WriteFailed | ReadFailed | Incomplete

  /** A text, and the answer it was given. */
  datatype Turn = Turn(heard: string, answer: string)

  function Answers(turns: seq<Turn>): (r: seq<string>)
    ensures |r| == |turns|
  {
    seq(|turns|, i requires 0 <= i < |turns| => turns[i].answer)
  }

  /** Every answer is the one its text calls for. */
  ghost predicate Justified(script: Script, turns: seq<Turn>) {
    forall i :: 0 <= i < |turns| ==> React(script, turns[i].heard) == Say(turns[i].answer)
  }

  /** A switch that waits for its answers: what it says is a question, or at the last
      a prompt, and nothing before the end of it could be taken for either. */
  ghost predicate Polite(script: Script, heard: string, replies: seq<string>)
    decreases |replies|
  {
    && heard != ""
    && (forall n :: 0 < n < |heard| ==> React(script, heard[..n]).Listen?)
    && if replies == [] then React(script, heard).Finish?
       else React(script, heard).Say? && Polite(script, replies[0], replies[1..])
  }

  /** The answers it gets. */
  ghost function Due(script: Script, heard: string, replies: seq<string>): seq<string>
    decreases |replies|
  {
    if replies == [] || !React(script, heard).Say? then []
    else [React(script, heard).text] + Due(script, replies[0], replies[1..])
  }

  /** The reads it takes to hear all of it. */
  ghost function ReadsLeft(available: nat, replies: seq<string>, cuts: nat -> nat, readCount: nat): nat
    decreases |replies|
  {
    var n := Chunks(available, cuts, readCount);
    if replies == [] then n else n + ReadsLeft(|replies[0]|, replies[1..], cuts, readCount + n)
  }

  /** What was heard before the last answer. */
  function Heard(turns: seq<Turn>): string {
    if turns == [] then "" else Heard(turns[..|turns| - 1]) + turns[|turns| - 1].heard
  }

  lemma {:induction false} OneTurnMore(script: Script, sent: seq<string>, turns: seq<Turn>, heard: string, answer: string)
    requires Justified(script, turns) && React(script, heard) == Say(answer)
    ensures Justified(script, turns + [Turn(heard, answer)])
    ensures sent + Answers(turns) + [answer] == sent + Answers(turns + [Turn(heard, answer)])
    ensures Heard(turns + [Turn(heard, answer)]) == Heard(turns) + heard
  {
    assert (turns + [Turn(heard, answer)])[..|turns|] == turns;
  }

  /** A switch that will be heard to the end: it waits for its answers, nothing it is
      sent is lost, and it does not take too many reads. */
  ghost predicate Cooperates(script: Script, heard: string, replies: seq<string>, cuts: nat -> nat, refused: nat -> bool, readCount: nat) {
    && Polite(script, heard, replies) && (forall k :: !refused(k))
    && ReadsLeft(|heard|, replies, cuts, readCount) <= MAX_READS
  }

  /** `part` is a part of `whole`. */
  ghost predicate PartOf(part: string, whole: string) {
    exists i :: 0 <= i <= |whole| && part <= whole[i..]
  }

  lemma {:induction false} PartGrows(part: string, whole: string, more: string)
    requires PartOf(part, whole)
    ensures PartOf(part, whole + more)
  {
    var i :| 0 <= i <= |whole| && part <= whole[i..];
    assert (whole + more)[i..] == whole[i..] + more;
  }

  lemma {:induction false} EndIsPart(a: string, b: string)
    ensures PartOf(b, a + b)
  {
    assert (a + b)[|a|..] == b;
  }

  /** What one more read does for a report already made, or just made. */
  lemma {:induction false} ReportHeard(heard: string, was: string, data: string, report: string)
    ensures PartOf(report, heard + was) ==> PartOf(report, heard + was + data)
    ensures heard + was + data == heard + (was + data) && PartOf(was + data, heard + (was + data))
  {
    ConcatAssoc(heard, was, data);
    EndIsPart(heard, was + data);
    if PartOf(report, heard + was) {
      PartGrows(report, heard + was, data);
    }
  }

  /** A dialogue with a polite switch under way: what is still to be heard, the
      answers it will have given, the reads it will take. */
  ghost predicate OnTrack(script: Script, cuts: nat -> nat, buf: string, at: Moment, due: seq<string>, left: nat) {
    && at.pending != "" && Polite(script, buf + at.pending, at.replies)
    && at.sent + Due(script, buf + at.pending, at.replies) == due
    && left == ReadsLeft(|at.pending|, at.replies, cuts, at.readCount)
  }

  /** One read. */
  ghost predicate Reads(cuts: nat -> nat, at: Moment, data: string, next: Moment) {
    && at.pending == data + next.pending && |data| == ReadSize(cuts(at.readCount), |at.pending|)
    && next == at.(pending := next.pending, readCount := at.readCount + 1)
  }

  /** The switch's answer to an answer. */
  function Replied(at: Moment, answer: string): Moment
    requires at.replies != []
  {
    Moment(at.pending + at.replies[0], at.replies[1..], at.sent + [answer], at.readCount)
  }

  /** A polite switch's text calls for nothing before its end. */
  lemma {:induction false} TrackMiddle(script: Script, cuts: nat -> nat, buf: string, at: Moment, data: string, next: Moment,
                                       due: seq<string>, left: nat)
    requires OnTrack(script, cuts, buf, at, due, left) && Reads(cuts, at, data, next) && next.pending != ""
    ensures React(script, buf + data).Listen? && left > 0 && OnTrack(script, cuts, buf + data, next, due, left - 1)
  {
    ConcatAssoc(buf, data, next.pending);
    var now, whole := buf + data, buf + at.pending;
    assert whole == now + next.pending && whole[..|now|] == now;
  }

  /** At its end it calls for an answer, or is done. */
  lemma {:induction false} TrackEnd(script: Script, cuts: nat -> nat, buf: string, at: Moment, data: string, next: Moment,
                                    due: seq<string>, left: nat)
    requires OnTrack(script, cuts, buf, at, due, left) && Reads(cuts, at, data, next) && next.pending == ""
    ensures next.replies == [] ==> React(script, buf + data).Finish? && next.sent == due
    ensures next.replies != [] ==>
              && React(script, buf + data).Say? && left > 0
              && OnTrack(script, cuts, "", Replied(next, React(script, buf + data).text), due, left - 1)
  {
    var heard := buf + data;
    assert data + "" == data;
    assert buf + at.pending == heard && |data| == |at.pending|;
    assert Polite(script, heard, at.replies) && at.sent + Due(script, heard, at.replies) == due;
    if next.replies == [] {
      assert at.sent + [] == at.sent;
    } else {
      var first, more := at.replies[0], at.replies[1..];
      assert "" + first == first;
      assert Polite(script, first, more);
      ConcatAssoc(at.sent, [React(script, heard).text], Due(script, first, more));
    }
  }

  /** What a read of a polite switch's text leads to. */
  ghost predicate Onwards(script: Script, cuts: nat -> nat, buf: string, next: Moment, due: seq<string>, left: nat) {
    if next.pending != "" then React(script, buf).Listen? && OnTrack(script, cuts, buf, next, due, left)
    else if next.replies == [] then React(script, buf).Finish? && next.sent == due
    else React(script, buf).Say? && OnTrack(script, cuts, "", Replied(next, React(script, buf).text), due, left)
  }

  lemma {:induction false} TrackRead(script: Script, cuts: nat -> nat, buf: string, at: Moment, data: string, next: Moment,
                                     due: seq<string>, left: nat)
    requires OnTrack(script, cuts, buf, at, due, left) && Reads(cuts, at, data, next)
    ensures left > 0 && Onwards(script, cuts, buf + data, next, due, left - 1)
  {
    if next.pending != "" {
      TrackMiddle(script, cuts, buf, at, data, next, due, left);
    } else {
      TrackEnd(script, cuts, buf, at, data, next, due, left);
    }
  }

  /** One read, and what it adds to the transcript. */
  method Hear(line: Line, script: Script, ghost heard: string, transcript: string, buf: string, ghost report: string)
    returns (data: string)
    requires transcript == heard + buf
    modifies line`pending, line`readCount
    ensures Reads(line.cuts, old(line.Now()), data, line.Now())
    ensures transcript + data == heard + (buf + data)
    ensures transcript + data + (line.pending + Concat(line.replies)) == transcript + (old(line.pending) + Concat(line.replies))
    ensures PartOf(report, transcript) ==> PartOf(report, transcript + data)
    ensures PartOf(buf + data, transcript + data)
  {
    data := line.Read();
    ReportHeard(heard, buf, data, report);
    ConcatAssoc(data, line.pending, Concat(line.replies));
    ConcatAssoc(transcript, data, line.pending + Concat(line.replies));
  }

  /** What a read leads to. */
  datatype Step =
    | Again(buf: string)             // go on, with this unanswered
    | Prompted
    | Stop(error: DialogueError)
    | Dry                            // nothing more to read

  /** One turn's reaction to what is unanswered. */
  method Attend(line: Line, script: Script, data: string, buf: string, ghost before: seq<string>, ghost was: seq<Turn>,
                ghost polite: bool, ghost due: seq<string>, ghost left: nat)
    returns (step: Step, reported: bool, ghost turns: seq<Turn>)
    requires line.sent == before + Answers(was) && Justified(script, was)
    requires polite ==> data != "" && (forall k :: !line.refused(k)) && Onwards(script, line.cuts, buf, line.Now(), due, left)
    modifies line`replies, line`pending, line`sent
    ensures line.sent == before + Answers(turns) && Justified(script, turns)
    ensures Heard(was) + buf == Heard(turns) + (if step.Again? then step.buf else buf)
    ensures line.pending + Concat(line.replies) == old(line.pending) + Concat(old(line.replies))
    ensures reported ==> script.succeeded(buf)
    ensures !(step.Stop? && step.error.TransferFailed?) ==> !script.failed(buf)
    ensures step.Stop? && step.error.TransferFailed? ==> script.failed(buf)
    ensures step.Again? ==> step.buf == "" || step.buf == buf
    ensures step.Prompted? ==> React(script, buf).Finish?
    ensures polite && step.Again? ==> OnTrack(script, line.cuts, step.buf, line.Now(), due, left)
    ensures polite && !step.Again? ==> step.Prompted? && line.pending == "" && line.replies == [] && line.sent == due
  {
    turns, reported := was, false;
    if script.failed(buf) {
      return Stop(TransferFailed), false, turns;
    }
    var answer := AnswerTo(script.questions, buf);
    if answer.Some? {
      var ok := line.Write(answer.value);
      if !ok {
        return Stop(WriteFailed), false, turns;
      }
      OneTurnMore(script, before, was, buf, answer.value);
      turns := was + [Turn(buf, answer.value)];
      assert Heard(turns) + "" == Heard(turns);
      return Again(""), false, turns;
    }
    reported := script.succeeded(buf);
    if script.prompt(buf) {
      step := Prompted;
    } else if data == "" {
      step := if line.hungUp then Dry else Stop(ReadFailed);
    } else {
      step := Again(buf);
    }
  }

  /** The loop of both operations. */
  method Converse(line: Line, script: Script)
    returns (r: Result<string, DialogueError>, ghost turns: seq<Turn>, ghost last: string, ghost report: string)
    modifies line`replies, line`pending, line`readCount, line`sent
    // Whatever the switch says: every answer is the one called for, the transcript is
    // all that was said, and success means a prompt or a report of success.
    ensures line.sent == old(line.sent) + Answers(turns) && Justified(script, turns)
    ensures r.Ok? ==> r.value + (line.pending + Concat(line.replies)) == old(line.pending) + Concat(old(line.replies))
    ensures r.Ok? ==> r.value == Heard(turns) + last
    ensures r.Ok? ==> React(script, last).Finish? || (script.succeeded(report) && PartOf(report, r.value))
    ensures r.Ok? ==> last == "" || !script.failed(last)
    ensures r == Err(TransferFailed) ==> script.failed(last)
    // A switch that waits for its answers gets all of them, and is heard to the end.
    ensures Cooperates(script, old(line.pending), old(line.replies), line.cuts, line.refused, old(line.readCount)) ==>
              && r == Ok(old(line.pending) + Concat(old(line.replies)))
              && line.sent == old(line.sent) + Due(script, old(line.pending), old(line.replies))
              && line.pending == "" && line.replies == []
  {
    turns, last, report := [], "", "";
    var transcript, buf, succeeded := "", "", false;
    ghost var before, said := line.sent, line.pending + Concat(line.replies);
    ghost var due := line.sent + Due(script, line.pending, line.replies);
    ghost var left: nat := ReadsLeft(|line.pending|, line.replies, line.cuts, line.readCount);
    ghost var polite := Cooperates(script, line.pending, line.replies, line.cuts, line.refused, line.readCount);
    assert "" + line.pending == line.pending;
    for i := 0 to MAX_READS
      invariant transcript + (line.pending + Concat(line.replies)) == said
      invariant transcript == Heard(turns) + buf
      invariant line.sent == before + Answers(turns) && Justified(script, turns)
      invariant succeeded ==> script.succeeded(report) && PartOf(report, transcript)
      invariant polite ==> left <= MAX_READS - i && OnTrack(script, line.cuts, buf, line.Now(), due, left)
      invariant last == buf && (buf == "" || !script.failed(buf))
    {
      ghost var start := line.Now();
      var data := Hear(line, script, Heard(turns), transcript, buf, report);
      if polite {
        TrackRead(script, line.cuts, buf, start, data, line.Now(), due, left);
        left := left - 1;
      }
      transcript, buf := transcript + data, buf + data;
      last := buf;
      var step, reported;
      step, reported, turns := Attend(line, script, data, buf, before, turns, polite, due, left);
      if reported {
        succeeded := true;
        report := buf;
      }
      match step {
        case Again(unanswered) =>
          buf, last := unanswered, unanswered;
        case Prompted =>
          assert line.pending == "" && line.replies == [] ==> transcript + (line.pending + Concat(line.replies)) == transcript;
          return Ok(transcript), turns, last, report;
        case Stop(error) =>
          return Err(error), turns, last, report;
        case Dry =>
          break;
      }
    }
    r := if succeeded then Ok(transcript) else Err(Incomplete);
  }

  /** A command out, then the dialogue. */
  method Start(line: Line, bytes: string, script: Script)
    returns (r: Result<string, DialogueError>, ghost turns: seq<Turn>, ghost last: string, ghost report: string)
    modifies line`replies, line`pending, line`readCount, line`sent
    ensures if line.refused(|old(line.sent)|) then r == Err(WriteFailed) && turns == [] && line.sent == old(line.sent)
            else line.sent == old(line.sent) + [bytes] + Answers(turns) && Justified(script, turns)
    ensures r.Ok? ==> r.value + (line.pending + Concat(line.replies)) == old(line.pending) + Concat(old(line.replies))
    ensures r.Ok? ==> r.value == Heard(turns) + last
    ensures r.Ok? ==> React(script, last).Finish? || (script.succeeded(report) && PartOf(report, r.value))
    ensures r == Err(TransferFailed) ==> script.failed(last)
    ensures old(line.pending) == "" && old(line.replies) != []
            && Cooperates(script, old(line.replies)[0], old(line.replies)[1..], line.cuts, line.refused, old(line.readCount)) ==>
              && r == Ok(Concat(old(line.replies))) && line.pending == "" && line.replies == []
              && line.sent == old(line.sent) + [bytes] + Due(script, old(line.replies)[0], old(line.replies)[1..])
  {
    ghost var replies := line.replies;
    assert line.pending == "" && replies != [] ==> line.pending + replies[0] == replies[0];
    var ok := line.Write(bytes);
    if !ok {
      return Err(WriteFailed), [], "", "";
    }
    r, turns, last, report := Converse(line, script);
  }

  /** RunSCPCopy: the host key is accepted, the password given, the overwriting
      confirmed, each once for every time it is asked for, and never after a failure. */
  method RunScpCopy(line: Line, command: string, scpPassword: string)
    returns (r: Result<string, DialogueError>, ghost turns: seq<Turn>, ghost last: string, ghost report: string)
    modifies line`replies, line`pending, line`readCount, line`sent
    ensures !line.refused(|old(line.sent)|) ==> line.sent == old(line.sent) + [command + "\r\n"] + Answers(turns)
    ensures forall i :: 0 <= i < |turns| ==> CopyTurn(scpPassword, turns[i])
    ensures r.Ok? ==> r.value == Heard(turns) + last
    ensures r.Ok? ==> PromptAtEnd(last) || (ReportsSuccess(report) && PartOf(report, r.value))
    ensures r == Err(TransferFailed) ==> ReportsFailure(last)
    ensures var script := CopyScript(scpPassword);
            old(line.pending) == "" && old(line.replies) != []
            && Cooperates(script, old(line.replies)[0], old(line.replies)[1..], line.cuts, line.refused, old(line.readCount)) ==>
              && r == Ok(Concat(old(line.replies))) && line.pending == "" && line.replies == []
              && line.sent == old(line.sent) + [command + "\r\n"] + Due(script, old(line.replies)[0], old(line.replies)[1..])
  {
    r, turns, last, report := Start(line, command + "\r\n", CopyScript(scpPassword));
    forall i | 0 <= i < |turns| ensures CopyTurn(scpPassword, turns[i]) {
      CopyAnswers(scpPassword, turns[i]);
    }
  }

  ghost predicate CopyTurn(scpPassword: string, t: Turn) {
    && !ReportsFailure(t.heard)
    && if AsksHostKey(t.heard) then t.answer == "yes\r\n"
       else if AsksPassword(t.heard) then t.answer == scpPassword + "\r\n"
       else AsksConfirm(t.heard) && t.answer == "y"
  }

  lemma {:induction false} AnswerStep(q: Question, rest: seq<Question>, text: string)
    ensures AnswerTo([q] + rest, text) == if q.asked(text) then Some(q.answer) else AnswerTo(rest, text)
  {
    assert ([q] + rest)[1..] == rest;
  }

  lemma {:induction false} CopyAnswers(scpPassword: string, t: Turn)
    requires React(CopyScript(scpPassword), t.heard) == Say(t.answer)
    ensures CopyTurn(scpPassword, t)
  {
    var key, password, confirm := Question(AsksHostKey, "yes\r\n"), Question(AsksPassword, scpPassword + "\r\n"), Question(AsksConfirm, "y");
    assert CopyScript(scpPassword).questions == [key] + ([password] + ([confirm] + []));
    AnswerStep(key, [password] + ([confirm] + []), t.heard);
    AnswerStep(password, [confirm] + [], t.heard);
    AnswerStep(confirm, [], t.heard);
  }

  /** RunWriteMemory: success is a prompt and nothing else. Sent ahead, the
      confirmation is part of the command, and nothing more is said. */
  method RunWriteMemory(line: Line, command: string, prestuff: bool)
    returns (r: Result<string, DialogueError>, ghost turns: seq<Turn>, ghost last: string)
    modifies line`replies, line`pending, line`readCount, line`sent
    ensures !line.refused(|old(line.sent)|) ==>
              line.sent == old(line.sent) + [command + (if prestuff then "\ry\r" else "\r\n")] + Answers(turns)
    ensures forall i :: 0 <= i < |turns| ==> SaveTurn(prestuff, turns[i])
    ensures r.Ok? ==> r.value == Heard(turns) + last && PromptAtEnd(last)
    ensures r != Err(TransferFailed)
    ensures var script := SaveScript(prestuff);
            old(line.pending) == "" && old(line.replies) != []
            && Cooperates(script, old(line.replies)[0], old(line.replies)[1..], line.cuts, line.refused, old(line.readCount)) ==>
              && r == Ok(Concat(old(line.replies))) && line.pending == "" && line.replies == []
  {
    ghost var report;
    r, turns, last, report := Start(line, command + (if prestuff then "\ry\r" else "\r\n"), SaveScript(prestuff));
    forall i | 0 <= i < |turns| ensures SaveTurn(prestuff, turns[i]) {
      SaveAnswers(prestuff, turns[i]);
    }
  }

  ghost predicate SaveTurn(prestuff: bool, t: Turn) {
    !prestuff && AsksConfirm(t.heard) && t.answer == "y"
  }

  lemma {:induction false} SaveAnswers(prestuff: bool, t: Turn)
    requires React(SaveScript(prestuff), t.heard) == Say(t.answer)
    ensures SaveTurn(prestuff, t)
  {
    var confirm := Question(AsksConfirm, "y");
    assert SaveScript(prestuff).questions == if prestuff then [] else [confirm] + [];
    AnswerStep(confirm, [], t.heard);
  }
}
