/** Re-arming a port's PoE over SNMP: off, poll, on, poll (snmp/writer_cycle.go).
    The agent, the clock and the sleeper may do anything, and may depend on all that
    happened before: each is a function of the trace so far. */
module PoeRearm {
  import opened Prelude

  datatype Detect = Disabled | Searching | Delivering | Fault | Other

  datatype Failure = Failure(code: int)

  /** What the writer does, and what comes back. */
  datatype Event =
    | PoeRead(poe: Result<Option<Detect>, Failure>)
    | LinkRead(up: Result<Option<bool>, Failure>)
    | SetAdmin(on: bool, failed: Option<Failure>)
    | Clock(now: int)
    | Slept(interrupted: Option<Failure>)

  type Trace = seq<Event>

  datatype Recovery = CycleComplete | FaultCleared

  // ------------------------------------------------------------------
  // The predicates
  // ------------------------------------------------------------------

  /** poeIsOff: detection settled and the link down; an absent port's link is down. */
  predicate IsOff(status: Option<Detect>, up: Option<bool>) {
    (status == Some(Disabled) || status == Some(Searching)) && up != Some(true)
  }

  /** PoeCycleComplete and poeRecovered. */
  predicate Recovered(how: Recovery, before: Option<Detect>, now: Option<Detect>) {
    match how
    case CycleComplete =>
      now.Some? && (if before == Some(Delivering) then now.value == Delivering
                    else now.value == Delivering || now.value == Searching)
    case FaultCleared =>
      now == Some(Delivering) || now == Some(Searching)
  }

  // ------------------------------------------------------------------
  // Traces
  // ------------------------------------------------------------------

  function Clocks(t: Trace): nat {
    if t == [] then 0 else Clocks(t[..|t| - 1]) + if t[|t| - 1].Clock? then 1 else 0
  }

  function Sleeps(t: Trace): nat {
    if t == [] then 0 else Sleeps(t[..|t| - 1]) + if t[|t| - 1].Slept? then 1 else 0
  }

  /** The SETs issued, in order. */
  function Sets(t: Trace): seq<bool> {
    if t == [] then [] else Sets(t[..|t| - 1]) + if t[|t| - 1].SetAdmin? then [t[|t| - 1].on] else []
  }

  lemma {:induction false} Extend(t: Trace, e: Event)
    ensures Clocks(t + [e]) == Clocks(t) + if e.Clock? then 1 else 0
    ensures Sleeps(t + [e]) == Sleeps(t) + if e.Slept? then 1 else 0
    ensures Sets(t + [e]) == Sets(t) + if e.SetAdmin? then [e.on] else []
  {
    assert (t + [e])[..|t|] == t;
  }

  /** One poll of a phase: phase one reads the link too. */
  datatype Phase = PhaseOff | PhaseOn(how: Recovery, before: Option<Detect>)

  datatype Poll = Poll(status: Option<Detect>, up: Option<bool>)

  /** A poll that found the phase unfinished, in time. */
  datatype Round = Round(poll: Poll, now: int)

  predicate Done(p: Phase, poll: Poll) {
    match p
    case PhaseOff => IsOff(poll.status, poll.up)
    case PhaseOn(how, before) => Recovered(how, before, poll.status)
  }

  function Reads(p: Phase, poll: Poll): Trace {
    [PoeRead(Ok(poll.status))] + if p.PhaseOff? then [LinkRead(Ok(poll.up))] else []
  }

  function Rounds(p: Phase, rs: seq<Round>): Trace {
    if rs == [] then []
    else
      var r := rs[|rs| - 1];
      Rounds(p, rs[..|rs| - 1]) + (Reads(p, r.poll) + [Clock(r.now), Slept(None)])
  }

  lemma {:induction false} RoundsStep(p: Phase, rs: seq<Round>, r: Round)
    ensures Rounds(p, rs + [r]) == Rounds(p, rs) + (Reads(p, r.poll) + [Clock(r.now), Slept(None)])
  {
    assert (rs + [r])[..|rs|] == rs;
  }

  /** How a phase ends. */
  datatype Ending =
    | Settled(poll: Poll)
    | Late(poll: Poll, now: int)
    | Broken(failure: Failure)

  /** The last poll of a phase: finished, or the first to be unfinished with the
      deadline reached, or a failure in it or in the sleep after it. */
  ghost predicate LastPoll(p: Phase, deadline: int, seg: Trace, end: Ending) {
    match end
    case Settled(poll) => Done(p, poll) && seg == Reads(p, poll)
    case Late(poll, now) => !Done(p, poll) && now >= deadline && seg == Reads(p, poll) + [Clock(now)]
    case Broken(f) => exists cut: Cut :: CutFits(p, deadline, cut) && seg == CutEvents(p, f, cut)
  }

  /** Where a failure cuts a poll off: at the status, at the link, which only phase one
      reads, or, the poll being undone and in time, in the sleep after it. */
  datatype Cut =
    | AtStatus
    | AtLink(status: Option<Detect>)
    | AtSleep(poll: Poll, now: int)

  predicate CutFits(p: Phase, deadline: int, cut: Cut) {
    match cut
    case AtStatus => true
    case AtLink(_) => p.PhaseOff?
    case AtSleep(poll, now) => !Done(p, poll) && now < deadline
  }

  function CutEvents(p: Phase, f: Failure, cut: Cut): Trace {
    match cut
    case AtStatus => [PoeRead(Err(f))]
    case AtLink(status) => [PoeRead(Ok(status)), LinkRead(Err(f))]
    case AtSleep(poll, now) => Reads(p, poll) + [Clock(now), Slept(Some(f))]
  }

  ghost predicate Unfinished(p: Phase, deadline: int, rs: seq<Round>) {
    forall i :: 0 <= i < |rs| ==> !Done(p, rs[i].poll) && rs[i].now < deadline
  }

  /** A phase that is given until a deadline: unfinished polls, each in time and each
      followed by a sleep, then the last one. */
  ghost predicate PhaseRuns(p: Phase, deadline: int, rs: seq<Round>, last: Trace, end: Ending) {
    Unfinished(p, deadline, rs) && LastPoll(p, deadline, last, end)
  }

  /** Its events. */
  function Events(p: Phase, rs: seq<Round>, last: Trace): Trace {
    Rounds(p, rs) + last
  }

  ghost predicate NoSet(t: Trace) {
    forall i :: 0 <= i < |t| ==> !t[i].SetAdmin?
  }

  // ------------------------------------------------------------------
  // The environment
  // ------------------------------------------------------------------

  /** The time after n steps. */
  function Beat(epoch: int, step: int): nat -> int {
    n => epoch + step * n
  }

  class World {
    const poeAt: Trace -> Result<Option<Detect>, Failure>
    const linkAt: Trace -> Result<Option<bool>, Failure>
    const setAt: (Trace, bool) -> Option<Failure>
    const clockAt: Trace -> int
    const sleepAt: Trace -> Option<Failure>
    /** By how many readings the clock has reached a given time, at the latest. */
    ghost const pace: int -> nat
    var trace: Trace

    constructor (poeAt: Trace -> Result<Option<Detect>, Failure>, linkAt: Trace -> Result<Option<bool>, Failure>,
                 setAt: (Trace, bool) -> Option<Failure>, clockAt: Trace -> int, sleepAt: Trace -> Option<Failure>,
                 ghost pace: int -> nat)
      ensures this.poeAt == poeAt && this.linkAt == linkAt && this.setAt == setAt
      ensures this.clockAt == clockAt && this.sleepAt == sleepAt && this.pace == pace && trace == []
    {
      this.poeAt := poeAt;
      this.linkAt := linkAt;
      this.setAt := setAt;
      this.clockAt := clockAt;
      this.sleepAt := sleepAt;
      this.pace := pace;
      trace := [];
    }

    /** The clock passes every time sooner or later. */
    ghost predicate ClockAdvances() {
      forall t: Trace, time {:trigger clockAt(t), pace(time)} :: Clocks(t) >= pace(time) ==> clockAt(t) >= time
    }

    /** Only sleeping moves the clock, by exactly the time slept. */
    ghost predicate Metronome(epoch: int, step: int) {
      Keeps(Beat(epoch, step))
    }

    /** The clock shows a time that depends on the number of sleeps alone. */
    ghost predicate Keeps(beat: nat -> int) {
      forall t: Trace {:trigger clockAt(t)} :: clockAt(t) == beat(Sleeps(t))
    }

    /** Every clock reading in a trace is the clock's. */
    ghost predicate Timed(t: Trace) {
      t == [] || (Timed(t[..|t| - 1]) && (t[|t| - 1].Clock? ==> t[|t| - 1].now == clockAt(t[..|t| - 1])))
    }

    ghost predicate Valid()
      reads this
    {
      Timed(trace)
    }

    method ReadPoe() returns (r: Result<Option<Detect>, Failure>)
      requires Valid()
      modifies this`trace
      ensures Valid() && trace == old(trace) + [PoeRead(r)]
    {
      r := poeAt(trace);
      Append(PoeRead(r));
    }

    method ReadLink() returns (r: Result<Option<bool>, Failure>)
      requires Valid()
      modifies this`trace
      ensures Valid() && trace == old(trace) + [LinkRead(r)]
    {
      r := linkAt(trace);
      Append(LinkRead(r));
    }

    method Set(on: bool) returns (failed: Option<Failure>)
      requires Valid()
      modifies this`trace
      ensures Valid() && trace == old(trace) + [SetAdmin(on, failed)]
    {
      failed := setAt(trace, on);
      Append(SetAdmin(on, failed));
    }

    method Now() returns (now: int)
      requires Valid()
      modifies this`trace
      ensures Valid() && trace == old(trace) + [Clock(now)] && now == old(clockAt(trace))
    {
      now := clockAt(trace);
      Append(Clock(now));
    }

    method Sleep() returns (interrupted: Option<Failure>)
      requires Valid()
      modifies this`trace
      ensures Valid() && trace == old(trace) + [Slept(interrupted)]
    {
      interrupted := sleepAt(trace);
      Append(Slept(interrupted));
    }

    method Append(e: Event)
      requires Valid() && (e.Clock? ==> e.now == clockAt(trace))
      modifies this`trace
      ensures Valid() && trace == old(trace) + [e]
    {
      assert (trace + [e])[..|trace|] == trace;
      trace := trace + [e];
    }
  }

  // ------------------------------------------------------------------
  // The loops
  // ------------------------------------------------------------------

  /** One poll: the PoE status, and in phase one the link. */
  method PollOnce(w: World, p: Phase) returns (r: Result<Poll, Failure>, ghost cut: Cut)
    requires w.Valid()
    modifies w`trace
    ensures w.Valid()
    ensures r.Ok? ==> w.trace == old(w.trace) + Reads(p, r.value)
    ensures r.Err? ==> !cut.AtSleep? && (cut.AtLink? ==> p.PhaseOff?) && w.trace == old(w.trace) + CutEvents(p, r.error, cut)
    ensures Clocks(w.trace) == old(Clocks(w.trace))
  {
    cut := AtStatus;
    Extend(w.trace, PoeRead(w.poeAt(w.trace)));
    var status := w.ReadPoe();
    if status.Err? {
      return Err(status.error), cut;
    }
    var up := None;
    if p.PhaseOff? {
      Extend(w.trace, LinkRead(w.linkAt(w.trace)));
      var link := w.ReadLink();
      if link.Err? {
        cut := AtLink(status.value);
        return Err(link.error), cut;
      }
      up := link.value;
    }
    r := Ok(Poll(status.value, up));
    assert w.trace == old(w.trace) + Reads(p, r.value);
  }

  /** One turn of a polling loop: the phase ends, or the next turn is due. */
  method Turn(w: World, p: Phase, deadline: int) returns (end: Option<Ending>, ghost r: Round, ghost turn: Trace)
    requires w.Valid() && w.ClockAdvances()
    modifies w`trace
    ensures w.Valid() && w.trace == old(w.trace) + turn
    ensures end.None? ==> !Done(p, r.poll) && r.now < deadline && turn == Reads(p, r.poll) + [Clock(r.now), Slept(None)]
                          && w.pace(deadline) >= Clocks(w.trace) == old(Clocks(w.trace)) + 1
    ensures end.Some? ==> LastPoll(p, deadline, turn, end.value)
  {
    ghost var start := w.trace;
    r := Round(Poll(None, None), 0);
    var poll;
    ghost var cut;
    poll, cut := PollOnce(w, p);
    if poll.Err? {
      turn := CutEvents(p, poll.error, cut);
      assert CutFits(p, deadline, cut);
      return Some(Broken(poll.error)), r, turn;
    }
    turn := Reads(p, poll.value);
    if Done(p, poll.value) {
      return Some(Settled(poll.value)), r, turn;
    }
    ghost var rest;
    end, r, rest := Wait(w, p, deadline, poll.value);
    ConcatAssoc(start, turn, rest);
    turn := turn + rest;
  }

  /** The end of a turn whose poll found the phase unfinished. */
  method Wait(w: World, p: Phase, deadline: int, poll: Poll) returns (end: Option<Ending>, ghost r: Round, ghost rest: Trace)
    requires w.Valid() && w.ClockAdvances() && !Done(p, poll)
    modifies w`trace
    ensures w.Valid() && w.trace == old(w.trace) + rest
    ensures end.None? ==> r.poll == poll && r.now < deadline && rest == [Clock(r.now), Slept(None)]
                          && w.pace(deadline) >= Clocks(w.trace) == old(Clocks(w.trace)) + 1
    ensures end.Some? ==> LastPoll(p, deadline, Reads(p, poll) + rest, end.value)
  {
    ghost var asked := w.trace;
    var now := w.Now();
    r := Round(poll, now);
    Extend(asked, Clock(now));
    rest := [Clock(now)];
    if now >= deadline {
      return Some(Late(poll, now)), r, rest;
    }
    var interrupted := w.Sleep();
    Extend(asked + [Clock(now)], Slept(interrupted));
    ConcatAssoc(asked, [Clock(now)], [Slept(interrupted)]);
    rest := rest + [Slept(interrupted)];
    assert rest == [Clock(now), Slept(interrupted)];
    assert CutFits(p, deadline, AtSleep(poll, now));
    assert interrupted.Some? ==> Reads(p, poll) + rest == CutEvents(p, interrupted.value, AtSleep(poll, now));
    end := if interrupted.Some? then Some(Broken(interrupted.value)) else None;
  }

  lemma {:induction false} OneMore(p: Phase, start: Trace, rs: seq<Round>, r: Round)
    ensures start + Rounds(p, rs) + (Reads(p, r.poll) + [Clock(r.now), Slept(None)]) == start + Rounds(p, rs + [r])
  {
    RoundsStep(p, rs, r);
    ConcatAssoc(start, Rounds(p, rs), Reads(p, r.poll) + [Clock(r.now), Slept(None)]);
  }

  /** Polls every interval until the phase is done or the deadline is reached: the
      predicate is looked at before the clock, and the clock before sleeping. */
  method PollUntil(w: World, p: Phase, deadline: int) returns (end: Ending, ghost rs: seq<Round>, ghost last: Trace)
    requires w.Valid() && w.ClockAdvances()
    modifies w`trace
    ensures w.Valid() && w.trace == old(w.trace) + Events(p, rs, last)
    ensures PhaseRuns(p, deadline, rs, last, end)
  {
    rs, last := [], [];
    ghost var start := w.trace;
    var over := None;
    while over.None?
      invariant w.Valid() && Unfinished(p, deadline, rs)
      invariant w.trace == start + Rounds(p, rs) + last
      invariant over.None? ==> last == []
      invariant over.Some? ==> LastPoll(p, deadline, last, over.value)
      decreases over.None?, w.pace(deadline) - Clocks(w.trace)
    {
      ghost var r;
      assert w.trace == start + Rounds(p, rs);
      over, r, last := Turn(w, p, deadline);
      if over.None? {
        OneMore(p, start, rs, r);
        rs, last := rs + [r], [];
        assert w.trace + [] == w.trace;
      }
    }
    end := over.value;
    ConcatAssoc(start, Rounds(p, rs), last);
  }

  // ------------------------------------------------------------------
  // The operation
  // ------------------------------------------------------------------

  datatype RearmError =
    | Io(failure: Failure)
    | DidNotTurnOff(before: Option<Detect>, after: Option<Detect>)
    | DidNotComeBack(before: Option<Detect>, after: Option<Detect>)

  datatype Timeouts = Timeouts(off: int, on: int)

  /** One phase of a run: when its deadline was set, its rounds, its last poll. */
  datatype Part = Part(at: int, rounds: seq<Round>, last: Trace, end: Ending)

  ghost predicate PartRuns(p: Phase, limit: int, part: Part) {
    PhaseRuns(p, part.at + limit, part.rounds, part.last, part.end)
  }

  function PartEvents(p: Phase, part: Part): Trace {
    [Clock(part.at)] + Events(p, part.rounds, part.last)
  }

  /** What a run of the operation did. */
  datatype Account =
    | NotStarted
    | OffFailed(before: Option<Detect>)
    | OffOnly(before: Option<Detect>, off: Part)
    | OnFailed(before: Option<Detect>, off: Part)
    | Both(before: Option<Detect>, off: Part, on: Part)

  function Opening(before: Option<Detect>, failed: Option<Failure>): Trace {
    [PoeRead(Ok(before)), SetAdmin(false, failed)]
  }

  /** The events up to the end of the first phase. */
  function Head(before: Option<Detect>, off: Part): Trace {
    Opening(before, None) + PartEvents(PhaseOff, off)
  }

  /** The trace of a run, and its result, as its account has them. */
  ghost predicate Accounts(a: Account, how: Recovery, limits: Timeouts, t: Trace, r: Result<(), RearmError>) {
    match a
    case NotStarted => r.Err? && r.error.Io? && t == [PoeRead(Err(r.error.failure))]
    case OffFailed(before) => r.Err? && r.error.Io? && t == Opening(before, Some(r.error.failure))
    case OffOnly(before, off) =>
      && t == Head(before, off) && PartRuns(PhaseOff, limits.off, off) && !off.end.Settled?
      && r == Err(if off.end.Late? then DidNotTurnOff(before, off.end.poll.status) else Io(off.end.failure))
    case OnFailed(before, off) =>
      && r.Err? && r.error.Io?
      && t == Head(before, off) + [SetAdmin(true, Some(r.error.failure))]
      && PartRuns(PhaseOff, limits.off, off) && off.end.Settled?
    case Both(before, off, on) =>
      && t == Head(before, off) + [SetAdmin(true, None)] + PartEvents(PhaseOn(how, before), on)
      && PartRuns(PhaseOff, limits.off, off) && off.end.Settled?
      && PartRuns(PhaseOn(how, before), limits.on, on)
      && r == match on.end
              case Settled(_) => Ok(())
              case Late(poll, _) => Err(DidNotComeBack(before, poll.status))
              case Broken(f) => Err(Io(f))
  }

  /** One phase: the deadline is set, then the loop runs. */
  method RunPart(w: World, p: Phase, limit: int) returns (end: Ending, ghost part: Part)
    requires w.Valid() && w.ClockAdvances()
    modifies w`trace
    ensures w.Valid() && w.trace == old(w.trace) + PartEvents(p, part)
    ensures PartRuns(p, limit, part) && part.end == end
  {
    ghost var start := w.trace;
    var at := w.Now();
    ghost var rounds, last;
    end, rounds, last := PollUntil(w, p, at + limit);
    part := Part(at, rounds, last, end);
    ConcatAssoc(start, [Clock(at)], Events(p, rounds, last));
  }

  /** poeRearm. */
  method PoeRearm(w: World, how: Recovery, limits: Timeouts)
    returns (r: Result<(), RearmError>, ghost a: Account, ghost t: Trace)
    requires w.Valid() && w.ClockAdvances()
    modifies w`trace
    ensures w.Valid() && w.trace == old(w.trace) + t
    ensures Accounts(a, how, limits, t, r)
  {
    ghost var start := w.trace;
    var before := w.ReadPoe();
    if before.Err? {
      return Err(Io(before.error)), NotStarted, [PoeRead(before)];
    }
    var failed := w.Set(false);
    t := Opening(before.value, failed);
    assert w.trace == start + t;
    if failed.Some? {
      return Err(Io(failed.value)), OffFailed(before.value), t;
    }
    var off;
    ghost var part;
    off, part := RunPart(w, PhaseOff, limits.off);
    ConcatAssoc(start, t, PartEvents(PhaseOff, part));
    t := Head(before.value, part);
    if !off.Settled? {
      r := Err(if off.Late? then DidNotTurnOff(before.value, off.poll.status) else Io(off.failure));
      return r, OffOnly(before.value, part), t;
    }
    r, a, t := BackOn(w, how, limits, before.value, start, part);
  }

  /** The second half of poeRearm. */
  method BackOn(w: World, how: Recovery, limits: Timeouts, before: Option<Detect>, ghost start: Trace, ghost off: Part)
    returns (r: Result<(), RearmError>, ghost a: Account, ghost t: Trace)
    requires w.Valid() && w.ClockAdvances() && w.trace == start + Head(before, off)
    requires PartRuns(PhaseOff, limits.off, off) && off.end.Settled?
    modifies w`trace
    ensures w.Valid() && w.trace == start + t
    ensures Accounts(a, how, limits, t, r)
  {
    var failed := w.Set(true);
    t := Head(before, off) + [SetAdmin(true, failed)];
    ConcatAssoc(start, Head(before, off), [SetAdmin(true, failed)]);
    if failed.Some? {
      return Err(Io(failed.value)), OnFailed(before, off), t;
    }
    var end;
    ghost var on;
    end, on := RunPart(w, PhaseOn(how, before), limits.on);
    ConcatAssoc(start, t, PartEvents(PhaseOn(how, before), on));
    t := t + PartEvents(PhaseOn(how, before), on);
    a := Both(before, off, on);
    r := match end
         case Settled(_) => Ok(())
         case Late(poll, _) => Err(DidNotComeBack(before, poll.status))
         case Broken(f) => Err(Io(f));
  }

  /** CyclePoE and ClearPoEFault: a protected port needs force, whatever is done. */
  method Guarded(w: World, how: Recovery, limits: Timeouts, protected: bool, force: bool)
    returns (r: Option<Result<(), RearmError>>, ghost a: Account, ghost t: Trace)
    requires w.Valid() && w.ClockAdvances()
    modifies w`trace
    ensures w.Valid() && w.trace == old(w.trace) + t
    ensures protected && !force <==> r.None?
    ensures r.None? ==> t == []
    ensures r.Some? ==> Accounts(a, how, limits, t, r.value)
  {
    if protected && !force {
      return None, NotStarted, [];
    }
    var result;
    result, a, t := PoeRearm(w, how, limits);
    r := Some(result);
  }
}
