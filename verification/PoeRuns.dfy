/** What every run of the PoE re-arm keeps: the order of its SETs, its timeouts, and
    the time it takes, all read off the trace of its events. */
module PoeRuns {
  import opened Prelude
  import opened PoeRearm

  // ------------------------------------------------------------------
  // What every run keeps
  // ------------------------------------------------------------------

  lemma {:induction false} SetsConcat(a: Trace, b: Trace)
    ensures Sets(a + b) == Sets(a) + Sets(b)
  {
    if b == [] {
      assert a + b == a;
    } else {
      var n := |b| - 1;
      SetsConcat(a, b[..n]);
      assert (a + b)[..|a| + n] == a + b[..n];
    }
  }

  lemma {:induction false} NoSets(t: Trace)
    requires NoSet(t)
    ensures Sets(t) == []
  {
    if t != [] {
      NoSets(t[..|t| - 1]);
    }
  }

  lemma {:induction false} RoundsNoSet(p: Phase, rs: seq<Round>)
    ensures NoSet(Rounds(p, rs))
  {
    if rs != [] {
      RoundsNoSet(p, rs[..|rs| - 1]);
    }
  }

  lemma {:induction false} ReadsNoSet(p: Phase, poll: Poll)
    ensures NoSet(Reads(p, poll)) && |Reads(p, poll)| >= 1
    ensures Reads(p, poll)[0] == PoeRead(Ok(poll.status))
    ensures p.PhaseOff? ==> Reads(p, poll) == [PoeRead(Ok(poll.status)), LinkRead(Ok(poll.up))]
  {
  }

  lemma {:induction false} LastNoSet(p: Phase, deadline: int, last: Trace, end: Ending)
    requires LastPoll(p, deadline, last, end)
    ensures NoSet(last)
  {
    if end.Broken? {
      var cut :| CutFits(p, deadline, cut) && last == CutEvents(p, end.failure, cut);
      if cut.AtSleep? {
        ReadsNoSet(p, cut.poll);
      }
    } else {
      ReadsNoSet(p, end.poll);
    }
  }

  lemma {:induction false} PartSets(p: Phase, limit: int, part: Part)
    requires PartRuns(p, limit, part)
    ensures NoSet(PartEvents(p, part))
  {
    RoundsNoSet(p, part.rounds);
    LastNoSet(p, part.at + limit, part.last, part.end);
  }

  lemma {:induction false} OpeningSets(before: Option<Detect>, failed: Option<Failure>)
    ensures Sets(Opening(before, failed)) == [false]
  {
    var e := PoeRead(Ok(before));
    assert Opening(before, failed) == [] + [e] + [SetAdmin(false, failed)];
    Extend([], e);
    Extend([] + [e], SetAdmin(false, failed));
  }

  lemma {:induction false} HeadSets(before: Option<Detect>, off: Part, limit: int)
    requires PartRuns(PhaseOff, limit, off)
    ensures Sets(Head(before, off)) == [false]
  {
    OpeningSets(before, None);
    PartSets(PhaseOff, limit, off);
    NoSets(PartEvents(PhaseOff, off));
    SetsConcat(Opening(before, None), PartEvents(PhaseOff, off));
  }

  /** How many SETs a run came to. */
  function SetCount(a: Account): nat {
    match a
    case NotStarted => 0
    case OffFailed(_) => 1
    case OffOnly(_, _) => 1
    case OnFailed(_, _) => 2
    case Both(_, _, _) => 2
  }

  /** The SETs of a run are none, off, or off and then on, each a request of its own;
      and on is only issued when the first phase settled. */
  lemma {:induction false} SetOrder(a: Account, how: Recovery, limits: Timeouts, t: Trace, r: Result<(), RearmError>)
    requires Accounts(a, how, limits, t, r)
    ensures Sets(t) == [false, true][..SetCount(a)]
    ensures true in Sets(t) ==> (a.OnFailed? || a.Both?) && a.off.end.Settled?
  {
    if a.NotStarted? {
      NoSets(t);
    } else if a.OffFailed? {
      OpeningSets(a.before, Some(r.error.failure));
    } else {
      HeadSets(a.before, a.off, limits.off);
      if a.OnFailed? {
        ThenOn(Head(a.before, a.off), Some(r.error.failure), []);
      } else if a.Both? {
        PartSets(PhaseOn(how, a.before), limits.on, a.on);
        ThenOn(Head(a.before, a.off), None, PartEvents(PhaseOn(how, a.before), a.on));
      }
    }
    assert [false, true][..0] == [] && [false, true][..1] == [false] && [false, true][..2] == [false, true];
  }

  lemma {:induction false} ThenOn(head: Trace, failed: Option<Failure>, after: Trace)
    requires Sets(head) == [false] && NoSet(after)
    ensures Sets(head + [SetAdmin(true, failed)] + after) == [false, true]
    ensures after == [] ==> head + [SetAdmin(true, failed)] + after == head + [SetAdmin(true, failed)]
  {
    Extend(head, SetAdmin(true, failed));
    NoSets(after);
    SetsConcat(head + [SetAdmin(true, failed)], after);
  }

  // What two readings of a poll, or one, show: on these the claims below rest, and not
  // on the predicates that the loops look at.

  /** Detection is settled, and the link is not up. */
  ghost predicate ShowsOff(status: Option<Detect>, up: Option<bool>) {
    (status == Some(Disabled) || status == Some(Searching)) && up != Some(true)
  }

  /** Power is delivered; or at least sought, where that is enough: a fault is to be
      cleared, or nothing was delivered before. */
  ghost predicate ShowsRecovery(how: Recovery, before: Option<Detect>, now: Option<Detect>) {
    now == Some(Delivering) || (now == Some(Searching) && (how == FaultCleared || before != Some(Delivering)))
  }

  /** A first phase that settled ends in a poll that saw PoE off and the link down. */
  lemma {:induction false} SettledTail(before: Option<Detect>, off: Part, limit: int)
    requires PartRuns(PhaseOff, limit, off) && off.end.Settled?
    ensures var t, poll := Head(before, off), off.end.poll;
            && |t| >= 2 && t[|t| - 2] == PoeRead(Ok(poll.status)) && t[|t| - 1] == LinkRead(Ok(poll.up))
            && ShowsOff(poll.status, poll.up)
  {
    ReadsNoSet(PhaseOff, off.end.poll);
  }

  /** The SETs of the events up to the end of the first phase: off, second. */
  lemma {:induction false} OnNotInHead(before: Option<Detect>, off: Part, limit: int)
    requires PartRuns(PhaseOff, limit, off)
    ensures forall i :: 0 <= i < |Head(before, off)| && Head(before, off)[i].SetAdmin? ==> !Head(before, off)[i].on
  {
    PartSets(PhaseOff, limit, off);
  }

  /** The two events before on is set, wherever that is, are a poll that saw PoE off
      and the link down. */
  lemma {:induction false} OnFollowsOff(a: Account, how: Recovery, limits: Timeouts, t: Trace, r: Result<(), RearmError>, i: nat)
    requires Accounts(a, how, limits, t, r)
    requires i < |t| && t[i].SetAdmin? && t[i].on
    ensures i >= 2 && t[i - 2].PoeRead? && t[i - 2].poe.Ok? && t[i - 1].LinkRead? && t[i - 1].up.Ok?
    ensures t[i - 2].poe.value == Some(Disabled) || t[i - 2].poe.value == Some(Searching)
    ensures t[i - 1].up.value != Some(true)
  {
    assert !a.NotStarted? && !a.OffFailed?;
    var head := Head(a.before, a.off);
    OnNotInHead(a.before, a.off, limits.off);
    assert head <= t;
    assert forall j :: 0 <= j < |head| ==> t[j] == head[j];
    assert !a.OffOnly?;
    SettledTail(a.before, a.off, limits.off);
    if a.Both? {
      PartSets(PhaseOn(how, a.before), limits.on, a.on);
      var on := PartEvents(PhaseOn(how, a.before), a.on);
      assert forall j :: |head| < j < |t| ==> t[j] == on[j - |head| - 1];
    }
  }

  /** Success: the run began by reading the state before, and its very last event is
      a read that shows recovery from that state. */
  lemma {:induction false} SuccessMeansRecovered(a: Account, how: Recovery, limits: Timeouts, t: Trace, r: Result<(), RearmError>)
    requires Accounts(a, how, limits, t, r) && r.Ok?
    ensures t != [] && t[0].PoeRead? && t[0].poe.Ok? && t[|t| - 1].PoeRead? && t[|t| - 1].poe.Ok?
    ensures t[|t| - 1].poe.value == Some(Delivering)
            || (t[|t| - 1].poe.value == Some(Searching) && (how == FaultCleared || t[0].poe.value != Some(Delivering)))
  {
    ReadsNoSet(PhaseOn(how, a.before), a.on.end.poll);
  }

  // ------------------------------------------------------------------
  // Timeouts, as the trace shows them
  // ------------------------------------------------------------------

  predicate IsOn(e: Event) {
    e.SetAdmin? && e.on
  }

  /** Where on is set, or the length of the trace if it is not. */
  function OnAt(t: Trace): (i: nat)
    ensures i <= |t|
  {
    if t == [] || IsOn(t[0]) then 0 else 1 + OnAt(t[1..])
  }

  /** The events of the first phase: after the state before is read and off is set, up
      to where on is. */
  function OffTrace(t: Trace): Trace {
    if OnAt(t) < 2 then [] else t[2..OnAt(t)]
  }

  /** The events of the second phase: after on is set. */
  function OnTrace(t: Trace): Trace {
    if OnAt(t) == |t| then [] else t[OnAt(t) + 1..]
  }

  /** If a poll of the phase ends here, it found it undone. */
  ghost predicate UndoneAt(p: Phase, seg: Trace, i: nat)
    requires i < |seg|
  {
    match p
    case PhaseOff =>
      seg[i].LinkRead? && seg[i].up.Ok? && i > 0 && seg[i - 1].PoeRead? && seg[i - 1].poe.Ok? ==>
        !ShowsOff(seg[i - 1].poe.value, seg[i].up.value)
    case PhaseOn(how, before) =>
      seg[i].PoeRead? && seg[i].poe.Ok? ==> !ShowsRecovery(how, before, seg[i].poe.value)
  }

  /** Every poll of a phase found it undone. */
  ghost predicate AllUndone(p: Phase, seg: Trace) {
    forall i :: 0 <= i < |seg| ==> UndoneAt(p, seg, i)
  }

  predicate Fine(e: Event) {
    match e
    case PoeRead(poe) => poe.Ok?
    case LinkRead(up) => up.Ok?
    case SetAdmin(_, failed) => failed.None?
    case Clock(_) => true
    case Slept(interrupted) => interrupted.None?
  }

  /** No call failed. */
  ghost predicate Faultless(t: Trace) {
    forall i :: 0 <= i < |t| ==> Fine(t[i])
  }

  /** Every reading of the clock is short of the deadline. */
  ghost predicate InTime(seg: Trace, deadline: int) {
    forall i :: 0 <= i < |seg| && seg[i].Clock? ==> seg[i].now < deadline
  }

  /** A phase begins with the reading its limit counts from, and its last event is the
      first reading at or past the deadline. */
  ghost predicate Expired(seg: Trace, limit: int) {
    var n := |seg| - 1;
    && n > 0 && seg[0].Clock? && seg[n].Clock? && seg[n].now >= seg[0].now + limit
    && InTime(seg[1..n], seg[0].now + limit)
  }

  lemma {:induction false} UndoneConcat(p: Phase, a: Trace, b: Trace)
    requires AllUndone(p, a) && AllUndone(p, b) && (b == [] || !b[0].LinkRead?)
    ensures AllUndone(p, a + b)
  {
    forall i | 0 <= i < |a + b| ensures UndoneAt(p, a + b, i) {
      if i < |a| {
        assert UndoneAt(p, a, i);
      } else {
        assert UndoneAt(p, b, i - |a|);
      }
    }
  }

  lemma {:induction false} FineConcat(a: Trace, b: Trace)
    ensures Faultless(a + b) <==> Faultless(a) && Faultless(b)
  {
    if Faultless(a + b) {
      assert forall i :: 0 <= i < |a| ==> (a + b)[i] == a[i];
      assert forall i :: 0 <= i < |b| ==> (a + b)[|a| + i] == b[i];
    }
  }

  lemma {:induction false} InTimeConcat(a: Trace, b: Trace, deadline: int)
    requires InTime(a, deadline) && InTime(b, deadline)
    ensures InTime(a + b, deadline)
  {
  }

  /** A poll, and whether it shows the phase undone. */
  lemma {:induction false} ReadsShow(p: Phase, poll: Poll, deadline: int)
    ensures AllUndone(p, Reads(p, poll)) <==> !Done(p, poll)
    ensures Faultless(Reads(p, poll)) && InTime(Reads(p, poll), deadline) && !Reads(p, poll)[0].LinkRead?
  {
    var seg := Reads(p, poll);
    var last := |seg| - 1;
    assert UndoneAt(p, seg, last) <==> !Done(p, poll);
    assert last == 1 ==> UndoneAt(p, seg, 0);
  }

  /** An undone poll, and events that are no reads. */
  lemma {:induction false} UndoneThen(p: Phase, poll: Poll, more: Trace)
    requires !Done(p, poll) && forall i :: 0 <= i < |more| ==> more[i].Clock? || more[i].Slept?
    ensures AllUndone(p, Reads(p, poll) + more) && !(Reads(p, poll) + more)[0].LinkRead?
  {
    ReadsShow(p, poll, 0);
    UndoneConcat(p, Reads(p, poll), more);
  }

  /** The rounds of a phase: undone, without fault, in time. */
  lemma {:induction false} RoundsShow(p: Phase, deadline: int, rs: seq<Round>)
    requires Unfinished(p, deadline, rs)
    ensures AllUndone(p, Rounds(p, rs)) && Faultless(Rounds(p, rs)) && InTime(Rounds(p, rs), deadline)
  {
    if rs != [] {
      var n := |rs| - 1;
      var r, init := rs[n], rs[..n];
      assert forall i :: 0 <= i < n ==> init[i] == rs[i];
      RoundsShow(p, deadline, init);
      RoundShows(p, deadline, r);
      var round := Reads(p, r.poll) + [Clock(r.now), Slept(None)];
      UndoneConcat(p, Rounds(p, init), round);
      FineConcat(Rounds(p, init), round);
      InTimeConcat(Rounds(p, init), round, deadline);
    }
  }

  lemma {:induction false} RoundShows(p: Phase, deadline: int, r: Round)
    requires !Done(p, r.poll) && r.now < deadline
    ensures var round := Reads(p, r.poll) + [Clock(r.now), Slept(None)];
            AllUndone(p, round) && Faultless(round) && InTime(round, deadline) && !round[0].LinkRead?
  {
    ReadsShow(p, r.poll, deadline);
    UndoneThen(p, r.poll, [Clock(r.now), Slept(None)]);
    FineConcat(Reads(p, r.poll), [Clock(r.now), Slept(None)]);
    InTimeConcat(Reads(p, r.poll), [Clock(r.now), Slept(None)], deadline);
  }

  /** What the last events of a phase show. */
  lemma {:induction false} LastShows(p: Phase, deadline: int, last: Trace, end: Ending)
    requires LastPoll(p, deadline, last, end)
    ensures last != [] && !last[0].LinkRead?
    ensures end.Settled? ==> !AllUndone(p, last)
    ensures end.Late? ==> AllUndone(p, last) && last[|last| - 1] == Clock(end.now) && end.now >= deadline
                          && InTime(last[..|last| - 1], deadline)
    ensures end.Broken? <==> !Faultless(last)
    ensures !end.Late? ==> !last[|last| - 1].Clock?
  {
    match end {
      case Settled(poll) =>
        ReadsShow(p, poll, deadline);
      case Late(poll, now) =>
        ReadsShow(p, poll, deadline);
        UndoneThen(p, poll, [Clock(now)]);
        FineConcat(Reads(p, poll), [Clock(now)]);
        assert last[..|last| - 1] == Reads(p, poll);
      case Broken(f) =>
        var cut :| CutFits(p, deadline, cut) && last == CutEvents(p, f, cut);
        if cut.AtSleep? {
          ReadsShow(p, cut.poll, deadline);
        }
        assert !Fine(last[|last| - 1]);
    }
  }

  /** A poll found done is found done with more before it. */
  lemma {:induction false} DoneStays(p: Phase, a: Trace, b: Trace)
    requires b != [] && !b[0].LinkRead? && !AllUndone(p, b)
    ensures !AllUndone(p, a + b)
  {
    var i :| 0 <= i < |b| && !UndoneAt(p, b, i);
    assert !UndoneAt(p, a + b, |a| + i);
  }

  lemma {:induction false} RoundsStart(p: Phase, rs: seq<Round>)
    ensures Rounds(p, rs) == [] || !Rounds(p, rs)[0].LinkRead?
  {
    if rs != [] {
      RoundsStart(p, rs[..|rs| - 1]);
      ReadsShow(p, rs[|rs| - 1].poll, 0);
    }
  }

  lemma {:induction false} ClockUndone(p: Phase, at: int)
    ensures AllUndone(p, [Clock(at)])
  {
    assert UndoneAt(p, [Clock(at)], 0);
  }

  /** Up to its last poll, a phase is undone. */
  lemma {:induction false} HeadUndone(p: Phase, deadline: int, at: int, rs: seq<Round>)
    requires Unfinished(p, deadline, rs)
    ensures AllUndone(p, [Clock(at)] + Rounds(p, rs))
  {
    ClockUndone(p, at);
    RoundsShow(p, deadline, rs);
    RoundsStart(p, rs);
    UndoneConcat(p, [Clock(at)], Rounds(p, rs));
  }

  /** A phase that ends with a reading past its deadline, the others being in time. */
  lemma {:induction false} ExpiredAt(at: int, limit: int, rounds: Trace, last: Trace)
    requires InTime(rounds, at + limit) && last != [] && InTime(last[..|last| - 1], at + limit)
    requires last[|last| - 1].Clock? && last[|last| - 1].now >= at + limit
    ensures Expired([Clock(at)] + (rounds + last), limit)
  {
    var seg := [Clock(at)] + (rounds + last);
    assert seg[1..|seg| - 1] == rounds + last[..|last| - 1];
    InTimeConcat(rounds, last[..|last| - 1], at + limit);
  }

  /** A phase times out if and only if the trace of it shows every poll undone and the
      deadline reached; without a fault, if and only if every poll is undone. */
  lemma {:induction false} PartTimesOut(p: Phase, limit: int, part: Part)
    requires PartRuns(p, limit, part)
    ensures var seg := PartEvents(p, part);
            && (part.end.Late? <==> AllUndone(p, seg) && Expired(seg, limit))
            && (Faultless(seg) ==> (part.end.Late? <==> AllUndone(p, seg)))
  {
    var deadline := part.at + limit;
    var rounds, last := Rounds(p, part.rounds), part.last;
    var head := [Clock(part.at)] + rounds;
    LastShows(p, deadline, last, part.end);
    ConcatAssoc([Clock(part.at)], rounds, last);
    if part.end.Settled? {
      DoneStays(p, head, last);
    } else if part.end.Late? {
      RoundsShow(p, deadline, part.rounds);
      HeadUndone(p, deadline, part.at, part.rounds);
      UndoneConcat(p, head, last);
      ExpiredAt(part.at, limit, rounds, last);
    } else {
      FineConcat(head, last);
    }
  }

  lemma {:induction false} OnAtIs(a: Trace, b: Trace)
    requires forall i :: 0 <= i < |a| ==> !IsOn(a[i])
    requires b == [] || IsOn(b[0])
    ensures OnAt(a + b) == |a|
  {
    if a == [] {
      assert a + b == b;
    } else {
      assert (a + b)[1..] == a[1..] + b;
      OnAtIs(a[1..], b);
    }
  }

  lemma {:induction false} NeverOn(t: Trace)
    requires forall i :: 0 <= i < |t| ==> !IsOn(t[i])
    ensures OnAt(t) == |t|
  {
    OnAtIs(t, []);
    assert t + [] == t;
  }

  /** The two phases of a run, found in its trace. */
  lemma {:induction false} PhasesFound(a: Account, how: Recovery, limits: Timeouts, t: Trace, r: Result<(), RearmError>)
    requires Accounts(a, how, limits, t, r)
    ensures OffTrace(t) == if a.OffOnly? || a.OnFailed? || a.Both? then PartEvents(PhaseOff, a.off) else []
    ensures OnTrace(t) == if a.Both? then PartEvents(PhaseOn(how, a.before), a.on) else []
    ensures !a.NotStarted? ==> t != [] && t[0] == PoeRead(Ok(a.before))
    ensures a.Both? ==> OnAt(t) < |t|
  {
    if a.NotStarted? || a.OffFailed? {
      NeverOn(t);
    } else {
      var head, off := Head(a.before, a.off), PartEvents(PhaseOff, a.off);
      OnNotInHead(a.before, a.off, limits.off);
      var rest := if a.OffOnly? then []
                  else if a.OnFailed? then [SetAdmin(true, Some(r.error.failure))]
                  else [SetAdmin(true, None)] + PartEvents(PhaseOn(how, a.before), a.on);
      if a.Both? {
        ConcatAssoc(head, [SetAdmin(true, None)], PartEvents(PhaseOn(how, a.before), a.on));
      }
      assert t == head + rest;
      OnAtIs(head, rest);
      assert (head + rest)[2..|head|] == head[2..] == off;
      assert rest != [] ==> (head + rest)[|head| + 1..] == rest[1..];
    }
  }

  predicate NotOff(r: Result<(), RearmError>) {
    r.Err? && r.error.DidNotTurnOff?
  }

  predicate NotBack(r: Result<(), RearmError>) {
    r.Err? && r.error.DidNotComeBack?
  }

  /** No false timeout, and none missed: the first phase times out if and only if in
      the trace every poll of it found PoE on or the link up, and its last event is the
      first reading of the clock at or past the deadline; if no call failed, if and
      only if every poll of it did. */
  lemma {:induction false} OffTimeout(a: Account, how: Recovery, limits: Timeouts, t: Trace, r: Result<(), RearmError>)
    requires Accounts(a, how, limits, t, r)
    ensures NotOff(r) <==> AllUndone(PhaseOff, OffTrace(t)) && Expired(OffTrace(t), limits.off)
    ensures Faultless(t) ==> (NotOff(r) <==> AllUndone(PhaseOff, OffTrace(t)))
    ensures NotOff(r) ==> Sets(t) == [false]
  {
    PhasesFound(a, how, limits, t, r);
    SetOrder(a, how, limits, t, r);
    if a.OffOnly? || a.OnFailed? || a.Both? {
      PartTimesOut(PhaseOff, limits.off, a.off);
      FaultlessPart(t, OnAt(t));
    } else {
      FaultInOpening(a, how, limits, t, r);
    }
  }

  lemma {:induction false} FaultInOpening(a: Account, how: Recovery, limits: Timeouts, t: Trace, r: Result<(), RearmError>)
    requires Accounts(a, how, limits, t, r) && (a.NotStarted? || a.OffFailed?)
    ensures !Faultless(t)
  {
    assert !Fine(t[|t| - 1]);
  }

  lemma {:induction false} FaultlessPart(t: Trace, n: nat)
    requires n <= |t|
    ensures Faultless(t) && n >= 2 ==> Faultless(t[2..n])
    ensures Faultless(t) && n < |t| ==> Faultless(t[n + 1..])
  {
  }

  /** The same for the second phase and recovery from the state before, which is the
      first thing read. */
  lemma {:induction false} OnTimeout(a: Account, how: Recovery, limits: Timeouts, t: Trace, r: Result<(), RearmError>)
    requires Accounts(a, how, limits, t, r)
    ensures OnAt(t) == |t| ==> !NotBack(r)
    ensures OnAt(t) < |t| ==> t[0].PoeRead? && t[0].poe.Ok?
    ensures OnAt(t) < |t| ==>
              var p := PhaseOn(how, t[0].poe.value);
              && (NotBack(r) <==> AllUndone(p, OnTrace(t)) && Expired(OnTrace(t), limits.on))
              && (Faultless(t) ==> (NotBack(r) <==> AllUndone(p, OnTrace(t))))
    ensures NotBack(r) ==> Sets(t) == [false, true]
  {
    PhasesFound(a, how, limits, t, r);
    SetOrder(a, how, limits, t, r);
    if OnAt(t) < |t| {
      OnTimeoutShown(a, how, limits, t, r);
    }
  }

  lemma {:induction false} OnTimeoutShown(a: Account, how: Recovery, limits: Timeouts, t: Trace, r: Result<(), RearmError>)
    requires Accounts(a, how, limits, t, r) && OnAt(t) < |t|
    ensures t[0].PoeRead? && t[0].poe.Ok?
    ensures var p := PhaseOn(how, t[0].poe.value);
            && (NotBack(r) <==> AllUndone(p, OnTrace(t)) && Expired(OnTrace(t), limits.on))
            && (Faultless(t) ==> (NotBack(r) <==> AllUndone(p, OnTrace(t))))
  {
    PhasesFound(a, how, limits, t, r);
    OnIsSet(a, how, limits, t, r);
    FaultlessPart(t, OnAt(t));
    if a.Both? {
      PartTimesOut(PhaseOn(how, a.before), limits.on, a.on);
    } else {
      assert !Fine(t[|t| - 1]);
    }
  }

  lemma {:induction false} OnIsSet(a: Account, how: Recovery, limits: Timeouts, t: Trace, r: Result<(), RearmError>)
    requires Accounts(a, how, limits, t, r) && OnAt(t) < |t|
    ensures a.OnFailed? || a.Both?
  {
    if a.NotStarted? || a.OffFailed? {
      NeverOn(t);
    } else if a.OffOnly? {
      OnNotInHead(a.before, a.off, limits.off);
      NeverOn(t);
    }
  }

  // ------------------------------------------------------------------
  // Real time
  // ------------------------------------------------------------------

  /** The number of whole steps that covers a time limit. */
  function Steps(limit: int, step: int): nat
    requires step > 0
  {
    if limit <= 0 then 0 else (limit + step - 1) / step
  }

  lemma {:induction false} TimedPrefix(w: World, a: Trace, b: Trace)
    requires w.Timed(a + b)
    ensures w.Timed(a)
  {
    if b == [] {
      assert a + b == a;
    } else {
      assert (a + b)[..|a + b| - 1] == a + b[..|b| - 1];
      TimedPrefix(w, a, b[..|b| - 1]);
    }
  }

  lemma {:induction false} SleepsConcat(a: Trace, b: Trace)
    ensures Sleeps(a + b) == Sleeps(a) + Sleeps(b)
  {
    if b == [] {
      assert a + b == a;
    } else {
      var n := |b| - 1;
      SleepsConcat(a, b[..n]);
      assert (a + b)[..|a| + n] == a + b[..n];
    }
  }

  lemma {:induction false} ReadsSleepless(p: Phase, poll: Poll)
    ensures Sleeps(Reads(p, poll)) == 0
  {
    Extend([], PoeRead(Ok(poll.status)));
    Extend([] + [PoeRead(Ok(poll.status))], LinkRead(Ok(poll.up)));
    assert [] + [PoeRead(Ok(poll.status))] == [PoeRead(Ok(poll.status))];
  }

  /** The clock is read before the sleep of its round. */
  lemma {:induction false} RoundTimed(w: World, before: Trace, p: Phase, r: Round)
    requires w.Timed(before + (Reads(p, r.poll) + [Clock(r.now), Slept(None)]))
    ensures r.now == w.clockAt(before + Reads(p, r.poll))
    ensures Sleeps(before + Reads(p, r.poll)) == Sleeps(before)
    ensures Sleeps(before + (Reads(p, r.poll) + [Clock(r.now), Slept(None)])) == Sleeps(before) + 1
  {
    var asked := before + Reads(p, r.poll);
    ReadsSleepless(p, r.poll);
    SleepsConcat(before, Reads(p, r.poll));
    Extend(asked, Clock(r.now));
    Extend(asked + [Clock(r.now)], Slept(None));
    assert before + (Reads(p, r.poll) + [Clock(r.now), Slept(None)]) == asked + [Clock(r.now)] + [Slept(None)];
    TimedPrefix(w, asked + [Clock(r.now)], [Slept(None)]);
    assert (asked + [Clock(r.now)])[..|asked|] == asked;
  }

  lemma {:induction false} RoundAfter(w: World, beat: nat -> int, before: Trace, p: Phase, r: Round)
    requires w.Keeps(beat) && w.Timed(before + (Reads(p, r.poll) + [Clock(r.now), Slept(None)]))
    ensures r.now == beat(Sleeps(before))
    ensures Sleeps(before + (Reads(p, r.poll) + [Clock(r.now), Slept(None)])) == Sleeps(before) + 1
  {
    RoundTimed(w, before, p, r);
  }

  /** If only sleeping moves the clock, the reading of a round is as many steps on as
      there were rounds before it. */
  lemma {:induction false} RoundsTimed(w: World, beat: nat -> int, before: Trace, p: Phase, rs: seq<Round>)
    requires w.Keeps(beat) && w.Timed(before + Rounds(p, rs))
    ensures Sleeps(before + Rounds(p, rs)) == Sleeps(before) + |rs|
    ensures rs != [] ==> rs[|rs| - 1].now == beat(Sleeps(before) + |rs| - 1)
  {
    if rs == [] {
      assert before + Rounds(p, rs) == before;
    } else {
      var n := |rs| - 1;
      var pre := before + Rounds(p, rs[..n]);
      var round := Reads(p, rs[n].poll) + [Clock(rs[n].now), Slept(None)];
      ConcatAssoc(before, Rounds(p, rs[..n]), round);
      TimedPrefix(w, pre, round);
      RoundsTimed(w, beat, before, p, rs[..n]);
      RoundAfter(w, beat, pre, p, rs[n]);
    }
  }

  lemma {:induction false} RoundsSleeps(p: Phase, rs: seq<Round>)
    ensures Sleeps(Rounds(p, rs)) == |rs|
  {
    if rs != [] {
      var n := |rs| - 1;
      var polled := Reads(p, rs[n].poll);
      RoundsSleeps(p, rs[..n]);
      ReadsSleepless(p, rs[n].poll);
      SleepsConcat(Rounds(p, rs[..n]), polled + [Clock(rs[n].now), Slept(None)]);
      TwoMore(polled, Clock(rs[n].now), Slept(None));
    }
  }

  lemma {:induction false} TwoMore(t: Trace, e: Event, f: Event)
    ensures Sleeps(t + [e, f]) == Sleeps(t) + (if e.Slept? then 1 else 0) + (if f.Slept? then 1 else 0)
  {
    Extend(t, e);
    Extend(t + [e], f);
    assert t + [e, f] == t + [e] + [f];
  }

  /** A failure cuts a poll off before it sleeps, or in its sleep. */
  lemma {:induction false} CutSleeps(p: Phase, f: Failure, cut: Cut)
    ensures Sleeps(CutEvents(p, f, cut)) == if cut.AtSleep? then 1 else 0
  {
    match cut {
      case AtStatus =>
        Extend([], PoeRead(Err(f)));
        assert [] + [PoeRead(Err(f))] == [PoeRead(Err(f))];
      case AtLink(status) =>
        TwoMore([], PoeRead(Ok(status)), LinkRead(Err(f)));
        assert [] + [PoeRead(Ok(status)), LinkRead(Err(f))] == [PoeRead(Ok(status)), LinkRead(Err(f))];
      case AtSleep(poll, now) =>
        ReadsSleepless(p, poll);
        TwoMore(Reads(p, poll), Clock(now), Slept(Some(f)));
    }
  }

  lemma {:induction false} LateSleepless(p: Phase, poll: Poll, now: int)
    ensures Sleeps(Reads(p, poll) + [Clock(now)]) == 0
  {
    ReadsSleepless(p, poll);
    Extend(Reads(p, poll), Clock(now));
  }

  /** The sleeps of a phase: one for each round, and the one that was interrupted. */
  lemma {:induction false} PartSleeps(p: Phase, part: Part)
    ensures Sleeps(PartEvents(p, part)) == |part.rounds| + Sleeps(part.last)
  {
    RoundsSleeps(p, part.rounds);
    SleepsConcat(Rounds(p, part.rounds), part.last);
    SleepsConcat([Clock(part.at)], Events(p, part.rounds, part.last));
    Extend([], Clock(part.at));
    assert [] + [Clock(part.at)] == [Clock(part.at)];
  }

  /** The readings of a phase: one when its deadline is set, and then one for each
      round, one sleep apart. */
  lemma {:induction false} PartTimed(w: World, beat: nat -> int, before: Trace, p: Phase, part: Part)
    requires w.Keeps(beat) && w.Timed(before + PartEvents(p, part))
    ensures part.at == beat(Sleeps(before))
    ensures part.rounds != [] ==> part.rounds[|part.rounds| - 1].now == beat(Sleeps(before) + |part.rounds| - 1)
    ensures var upto := before + [Clock(part.at)] + Rounds(p, part.rounds);
            w.Timed(upto + part.last) && Sleeps(upto) == Sleeps(before) + |part.rounds|
  {
    var start := before + [Clock(part.at)];
    var rs := part.rounds;
    ConcatAssoc(before, [Clock(part.at)], Events(p, rs, part.last));
    ConcatAssoc(start, Rounds(p, rs), part.last);
    TimedPrefix(w, start + Rounds(p, rs), part.last);
    RoundsTimed(w, beat, start, p, rs);
    TimedPrefix(w, start, Rounds(p, rs));
    assert start[..|start| - 1] == before;
    Extend(before, Clock(part.at));
  }

  /** The reading after a poll, and what follows it. */
  lemma {:induction false} ReadingTimed(w: World, beat: nat -> int, upto: Trace, p: Phase, poll: Poll, now: int, more: Trace)
    requires w.Keeps(beat) && w.Timed(upto + (Reads(p, poll) + ([Clock(now)] + more)))
    ensures now == beat(Sleeps(upto))
  {
    var asked := upto + Reads(p, poll);
    ReadsSleepless(p, poll);
    SleepsConcat(upto, Reads(p, poll));
    ConcatAssoc(upto, Reads(p, poll), [Clock(now)] + more);
    ConcatAssoc(asked, [Clock(now)], more);
    TimedPrefix(w, asked + [Clock(now)], more);
    assert (asked + [Clock(now)])[..|asked|] == asked;
  }

  /** The rounds of a phase fit its limit. */
  lemma {:induction false} RoundsBound(epoch: int, step: int, slept: nat, limit: int, part: Part)
    requires step > 0 && part.at == Beat(epoch, step)(slept)
    requires part.rounds != [] ==>
               var now := part.rounds[|part.rounds| - 1].now;
               now == Beat(epoch, step)(slept + |part.rounds| - 1) && now < part.at + limit
    ensures |part.rounds| <= Steps(limit, step)
  {
    if part.rounds != [] {
      var n := |part.rounds| - 1;
      Covered(epoch, step, slept, n, part.at, limit, part.rounds[n].now);
    }
  }

  /** So does the sleep that was interrupted. */
  lemma {:induction false} CutBound(w: World, epoch: int, step: int, upto: Trace, slept: nat, n: nat, p: Phase, at: int, limit: int,
                                    f: Failure, cut: Cut)
    requires step > 0 && w.Metronome(epoch, step) && w.Timed(upto + CutEvents(p, f, cut)) && Sleeps(upto) == slept + n
    requires at == Beat(epoch, step)(slept) && CutFits(p, at + limit, cut) && n <= Steps(limit, step)
    ensures n + Sleeps(CutEvents(p, f, cut)) <= Steps(limit, step)
  {
    CutSleeps(p, f, cut);
    if cut.AtSleep? {
      assert [Clock(cut.now), Slept(Some(f))] == [Clock(cut.now)] + [Slept(Some(f))];
      ReadingTimed(w, Beat(epoch, step), upto, p, cut.poll, cut.now, [Slept(Some(f))]);
      Covered(epoch, step, slept, n, at, limit, cut.now);
    }
  }

  /** A phase that times out has slept through its limit. */
  lemma {:induction false} LateBound(w: World, epoch: int, step: int, upto: Trace, slept: nat, n: nat, p: Phase, at: int, limit: int,
                                     poll: Poll, now: int)
    requires step > 0 && w.Metronome(epoch, step) && w.Timed(upto + (Reads(p, poll) + [Clock(now)])) && Sleeps(upto) == slept + n
    requires at == Beat(epoch, step)(slept) && now >= at + limit
    ensures n >= Steps(limit, step)
  {
    assert [Clock(now)] + [] == [Clock(now)];
    ReadingTimed(w, Beat(epoch, step), upto, p, poll, now, []);
    Overdue(epoch, step, slept, n, at, limit, now);
  }

  /** A phase up to its last poll. */
  lemma {:induction false} PartSpan(w: World, epoch: int, step: int, before: Trace, p: Phase, limit: int, part: Part)
    returns (upto: Trace, slept: nat, n: nat)
    requires step > 0 && w.Metronome(epoch, step) && w.Timed(before + PartEvents(p, part))
    requires PartRuns(p, limit, part)
    ensures w.Timed(upto + part.last) && Sleeps(upto) == slept + n && part.at == Beat(epoch, step)(slept)
    ensures n <= Steps(limit, step) && Sleeps(PartEvents(p, part)) == n + Sleeps(part.last)
  {
    upto, slept, n := before + [Clock(part.at)] + Rounds(p, part.rounds), Sleeps(before), |part.rounds|;
    PartTimed(w, Beat(epoch, step), before, p, part);
    PartSleeps(p, part);
    RoundsBound(epoch, step, slept, limit, part);
  }

  /** What is left of a phase after its last whole round. */
  lemma {:induction false} LastBound(w: World, epoch: int, step: int, upto: Trace, slept: nat, n: nat, p: Phase, at: int, limit: int,
                                     rounds: seq<Round>, last: Trace, end: Ending)
    requires step > 0 && w.Metronome(epoch, step) && w.Timed(upto + last) && Sleeps(upto) == slept + n
    requires at == Beat(epoch, step)(slept) && n <= Steps(limit, step) && PhaseRuns(p, at + limit, rounds, last, end)
    ensures n + Sleeps(last) <= Steps(limit, step)
    ensures end.Late? ==> n + Sleeps(last) == Steps(limit, step)
  {
    match end {
      case Settled(poll) =>
        ReadsSleepless(p, poll);
      case Late(poll, now) =>
        LateSleepless(p, poll, now);
        LateBound(w, epoch, step, upto, slept, n, p, at, limit, poll, now);
      case Broken(f) =>
        var cut :| CutFits(p, at + limit, cut) && last == CutEvents(p, f, cut);
        CutBound(w, epoch, step, upto, slept, n, p, at, limit, f, cut);
    }
  }

  /** A phase sleeps at most as often as the interval fits its limit, rounded up, and
      exactly that often if it times out. */
  lemma {:induction false} PartBound(w: World, epoch: int, step: int, before: Trace, p: Phase, limit: int, part: Part)
    requires step > 0 && w.Metronome(epoch, step) && w.Timed(before + PartEvents(p, part))
    requires PartRuns(p, limit, part)
    ensures Sleeps(PartEvents(p, part)) <= Steps(limit, step)
    ensures part.end.Late? ==> Sleeps(PartEvents(p, part)) == Steps(limit, step)
  {
    var upto, slept, n := PartSpan(w, epoch, step, before, p, limit, part);
    LastBound(w, epoch, step, upto, slept, n, p, part.at, limit, part.rounds, part.last, part.end);
  }

  /** A reading n steps after the deadline was set, and at or past it. */
  lemma {:induction false} Overdue(epoch: int, step: int, slept: nat, n: nat, at: int, limit: int, now: int)
    requires step > 0 && at == epoch + step * slept && now == epoch + step * (slept + n) && now >= at + limit
    ensures n >= Steps(limit, step)
  {
    Distribute(step, slept, n);
    if limit > 0 && n < Steps(limit, step) {
      var q := Steps(limit, step);
      assert step * (q - 1) < limit;
      Distribute(step, n, q - 1 - n);
      Negative(step, q - 1 - n);
    }
  }

  /** A reading n steps after the deadline was set, and short of it. */
  lemma {:induction false} Covered(epoch: int, step: int, slept: nat, n: nat, at: int, limit: int, now: int)
    requires step > 0 && at == epoch + step * slept && now == epoch + step * (slept + n) && now < at + limit
    ensures n + 1 <= Steps(limit, step)
  {
    Distribute(step, slept, n);
    StepsCover(limit, step, n);
  }

  lemma {:induction false} Distribute(a: int, b: int, c: int)
    ensures a * (b + c) == a * b + a * c
  {
  }

  lemma {:induction false} StepsCover(limit: int, step: int, n: nat)
    requires step > 0 && step * n < limit
    ensures n + 1 <= Steps(limit, step)
  {
    if limit > 0 {
      var q := Steps(limit, step);
      assert step * q >= limit;
      Distribute(step, n, q - n);
      Positive(step, q - n);
    } else {
      Negative(step, n);
    }
  }

  lemma {:induction false} Positive(a: int, b: int)
    ensures a > 0 && a * b > 0 ==> b > 0
  {
  }

  lemma {:induction false} Negative(a: int, b: int)
    ensures a >= 0 && b >= 0 ==> a * b >= 0
  {
  }

  lemma {:induction false} Reassociate(a: Trace, b: Trace, c: Trace, d: Trace)
    ensures a + (b + c + d) == (a + b + c) + d
  {
  }

  /** Polling is bounded: if only sleeping moves the clock, by exactly the interval,
      each phase sleeps at most as often as the interval fits its limit, rounded up,
      however it ends; and exactly that often if it times out. */
  lemma {:induction false} SleepBounds(w: World, epoch: int, step: int, a: Account, how: Recovery, limits: Timeouts,
                                       start: Trace, t: Trace, r: Result<(), RearmError>)
    requires step > 0 && w.Metronome(epoch, step) && w.Timed(start + t)
    requires Accounts(a, how, limits, t, r)
    ensures Sleeps(OffTrace(t)) <= Steps(limits.off, step) && Sleeps(OnTrace(t)) <= Steps(limits.on, step)
    ensures NotOff(r) ==> Sleeps(OffTrace(t)) == Steps(limits.off, step)
    ensures NotBack(r) ==> Sleeps(OnTrace(t)) == Steps(limits.on, step)
  {
    PhasesFound(a, how, limits, t, r);
    if a.OffOnly? || a.OnFailed? || a.Both? {
      var head := Head(a.before, a.off);
      if a.OnFailed? {
        ConcatAssoc(start, head, [SetAdmin(true, Some(r.error.failure))]);
        TimedPrefix(w, start + head, [SetAdmin(true, Some(r.error.failure))]);
      } else if a.Both? {
        var on := PartEvents(PhaseOn(how, a.before), a.on);
        Reassociate(start, head, [SetAdmin(true, None)], on);
        PartBound(w, epoch, step, start + head + [SetAdmin(true, None)], PhaseOn(how, a.before), limits.on, a.on);
        TimedPrefix(w, start + head + [SetAdmin(true, None)], on);
        TimedPrefix(w, start + head, [SetAdmin(true, None)]);
      }
      ConcatAssoc(start, Opening(a.before, None), PartEvents(PhaseOff, a.off));
      PartBound(w, epoch, step, start + Opening(a.before, None), PhaseOff, limits.off, a.off);
    }
  }
}
