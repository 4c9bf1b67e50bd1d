/**
 * The depth-counted scenario clock. The wall clock is an arbitrary non-decreasing input: every
 * operation carries the samples it reads, in the order it reads them. A pause that freezes a
 * running clock reads it twice, first for the real start of the freeze and then for the frozen value.
 */
module Clock {
  import opened Options
  import opened Sequences
  import opened Intervals

  datatype State = State(
    realStart: int,
    offset: int,
    depth: nat,
    pauseRealStart: Option<int>,
    pausePassed: Option<int>,
    pauseOffset: int)

  datatype Op = Pause(first: int, second: int) | Resume(at: int) | Add(value: int)

  // ----- the operations as functions of the state ------------------------------------------

  function Fresh(now: int): State {
    State(now, 0, 0, None, None, 0)
  }

  function TimePassed(s: State, now: int): int {
    if s.depth > 0 && s.pausePassed.Some? then s.pausePassed.value + s.pauseOffset
    else now - s.realStart + s.offset
  }

  ghost predicate Valid(s: State) {
    s.depth > 0 <==> s.pauseRealStart.Some? && s.pausePassed.Some?
  }

  function AfterPause(s: State, first: int, second: int): State {
    if s.depth > 0 then s.(depth := s.depth + 1)
    else s.(depth := 1, pauseRealStart := Some(first), pausePassed := Some(second - s.realStart + s.offset),
            pauseOffset := 0)
  }

  function AfterResume(s: State, at: int): State
    requires Valid(s)
  {
    if s.depth != 1 then s.(depth := Clamp(s.depth - 1))
    else State(s.realStart, s.offset - Clamp(at - s.pauseRealStart.value) + s.pauseOffset, 0, None, None, 0)
  }

  function AfterAdd(s: State, value: int): State {
    if s.depth > 0 then s.(pauseOffset := s.pauseOffset + Clamp(value))
    else s.(offset := s.offset + Clamp(value))
  }

  function Apply(s: State, op: Op): (r: State)
    requires Valid(s)
    ensures Valid(r)
    ensures r.realStart == s.realStart
  {
    match op
    case Pause(first, second) => AfterPause(s, first, second)
    case Resume(at) => AfterResume(s, at)
    case Add(value) => AfterAdd(s, value)
  }

  function Run(s: State, ops: seq<Op>): (r: State)
    requires Valid(s)
    ensures Valid(r)
    ensures r.realStart == s.realStart
  {
    if ops == [] then s else Apply(Run(s, ops[..|ops| - 1]), ops[|ops| - 1])
  }

  lemma RunSnoc(s: State, ops: seq<Op>, op: Op)
    requires Valid(s)
    ensures Run(s, ops + [op]) == Apply(Run(s, ops), op)
  {
    assert (ops + [op])[..|ops|] == ops;
  }

  lemma {:induction false} RunConcat(s: State, a: seq<Op>, b: seq<Op>)
    requires Valid(s)
    ensures Run(s, a + b) == Run(Run(s, a), b)
  {
    if b == [] {
      assert a + b == a;
    } else {
      var init, last := b[..|b| - 1], b[|b| - 1];
      RunConcat(s, a, init);
      RunSnoc(s, a + init, last);
      assert a + b == (a + init) + [last];
    }
  }

  lemma RunShort(s: State, a: Op, b: Op)
    requires Valid(s)
    ensures Run(s, [a]) == Apply(s, a)
    ensures Run(s, [a, b]) == Apply(Apply(s, a), b)
  {
    assert [a][..0] == [] && [a, b][..1] == [a];
  }

  // ----- what the clock is supposed to show, read off the operations alone ------------------

  /** Wall time of the last sample taken. */
  function Latest(start: int, ops: seq<Op>): int {
    if ops == [] then start
    else
      match ops[|ops| - 1]
      case Pause(_, second) => second
      case Resume(at) => at
      case Add(_) => Latest(start, ops[..|ops| - 1])
  }

  /** The samples never run backwards. */
  ghost predicate WellTimed(start: int, ops: seq<Op>) {
    if ops == [] then true
    else
      var init := ops[..|ops| - 1];
      WellTimed(start, init) &&
      match ops[|ops| - 1]
      case Pause(first, second) => Latest(start, init) <= first <= second
      case Resume(at) => Latest(start, init) <= at
      case Add(_) => true
  }

  function Depth(ops: seq<Op>): nat {
    if ops == [] then 0
    else
      var before := Depth(ops[..|ops| - 1]);
      match ops[|ops| - 1]
      case Pause(_, _) => before + 1
      case Resume(_) => Clamp(before - 1)
      case Add(_) => before
  }

  /** Since when the clock has been running (meaningful at depth zero). */
  function RunningSince(start: int, ops: seq<Op>): int {
    if ops == [] then start
    else
      var init := ops[..|ops| - 1];
      match ops[|ops| - 1]
      case Resume(at) => if Depth(init) == 1 then at else RunningSince(start, init)
      case _ => RunningSince(start, init)
  }

  /** Wall time spent in the running stretches that are already over. */
  function Banked(start: int, ops: seq<Op>): int {
    if ops == [] then 0
    else
      var init := ops[..|ops| - 1];
      match ops[|ops| - 1]
      case Pause(first, _) =>
        if Depth(init) == 0 then Banked(start, init) + (first - RunningSince(start, init)) else Banked(start, init)
      case _ => Banked(start, init)
  }

  /** Wall time during which the clock was not frozen. */
  function Unfrozen(start: int, ops: seq<Op>, now: int): int {
    Banked(start, ops) + if Depth(ops) == 0 then now - RunningSince(start, ops) else 0
  }

  function Charges(ops: seq<Op>): nat {
    if ops == [] then 0
    else Charges(ops[..|ops| - 1]) + if ops[|ops| - 1].Add? then Clamp(ops[|ops| - 1].value) else 0
  }

  /** How far the two samples of the pause now in force are apart; zero when the clock is running. */
  function Tear(start: int, ops: seq<Op>): int {
    if ops == [] then 0
    else
      var init := ops[..|ops| - 1];
      match ops[|ops| - 1]
      case Pause(first, second) => if Depth(init) == 0 then second - first else Tear(start, init)
      case Resume(_) => if Depth(init) <= 1 then 0 else Tear(start, init)
      case Add(_) => Tear(start, init)
  }

  // ----- laws ------------------------------------------------------------------------------

  ghost predicate Represents(start: int, ops: seq<Op>, s: State) {
    && Valid(s) && s.realStart == start && s.depth == Depth(ops)
    && (s.depth == 0 ==>
          && Tear(start, ops) == 0
          && RunningSince(start, ops) - start + s.offset == Banked(start, ops) + Charges(ops))
    && (s.depth > 0 ==>
          && s.pauseRealStart.value <= Latest(start, ops)
          && s.pauseRealStart.value - start + s.offset + s.pauseOffset == Banked(start, ops) + Charges(ops)
          && s.pausePassed.value + s.pauseOffset == Banked(start, ops) + Charges(ops) + Tear(start, ops))
  }

  lemma {:induction false} RunRepresents(start: int, ops: seq<Op>)
    requires WellTimed(start, ops)
    ensures Represents(start, ops, Run(Fresh(start), ops))
  {
    if ops != [] {
      RunRepresents(start, ops[..|ops| - 1]);
    }
  }

  /**
   * Scenario time is the unfrozen wall time plus every non-negative charge, plus, while frozen, the
   * distance between the two samples of the pause in force.
   */
  lemma ClockLaw(start: int, ops: seq<Op>, now: int)
    requires WellTimed(start, ops)
    ensures TimePassed(Run(Fresh(start), ops), now) == Unfrozen(start, ops, now) + Charges(ops) + Tear(start, ops)
  {
    RunRepresents(start, ops);
  }

  /**
   * For as long as a freeze lasts, whatever nested pauses and resumes it sees, the wall clock has no
   * influence: scenario time moves by exactly the charges.
   */
  lemma {:induction false} FrozenMovesOnlyByCharges(s: State, ops: seq<Op>, now: int, later: int)
    requires Valid(s) && forall k :: 0 <= k <= |ops| ==> Run(s, ops[..k]).depth > 0
    ensures TimePassed(Run(s, ops), later) == TimePassed(s, now) + Charges(ops)
  {
    TakeAll(ops);
    if ops == [] {
      assert Run(s, ops[..0]).depth > 0;
    } else {
      var init := ops[..|ops| - 1];
      forall k | 0 <= k <= |init|
        ensures Run(s, init[..k]).depth > 0
      {
        assert init[..k] == ops[..k];
      }
      FrozenMovesOnlyByCharges(s, init, now, later);
      TakeAll(init);
      assert Run(s, init[..|init|]).depth > 0 && Run(s, ops[..|ops|]).depth > 0;
    }
  }

  /** How much an operation moves scenario time, comparing readings at the wall time it ends. */
  function Jump(start: int, ops: seq<Op>, op: Op): int {
    match op
    case Pause(_, _) => 0
    case Resume(_) => if Depth(ops) == 1 then -Tear(start, ops) else 0
    case Add(value) => Clamp(value)
  }

  function OpEnd(start: int, ops: seq<Op>, op: Op): int {
    Latest(start, ops + [op])
  }

  lemma StepLaw(start: int, ops: seq<Op>, op: Op)
    requires WellTimed(start, ops + [op])
    ensures var s, end := Run(Fresh(start), ops), OpEnd(start, ops, op);
            TimePassed(Apply(s, op), end) == TimePassed(s, end) + Jump(start, ops, op)
  {
    var all := ops + [op];
    assert all[..|ops|] == ops;
    RunRepresents(start, ops);
  }

  lemma TearNonNegative(start: int, ops: seq<Op>)
    requires WellTimed(start, ops)
    ensures Tear(start, ops) >= 0
  {
  }

  /** The wall time an operation starts with. */
  function Sample(op: Op): int
    requires !op.Add?
  {
    if op.Pause? then op.first else op.at
  }

  /** Scenario time as read at wall time `t`, after the first `k` operations. */
  function Shown(start: int, ops: seq<Op>, k: nat, t: int): int
    requires k <= |ops|
  {
    TimePassed(Run(Fresh(start), ops[..k]), t)
  }

  /** A reading at wall time `t` can fall between the first `k` operations and the rest. */
  ghost predicate Readable(start: int, ops: seq<Op>, k: nat, t: int) {
    && k <= |ops| && Latest(start, ops[..k]) <= t
    && (forall j :: k <= j < |ops| && !ops[j].Add? ==> t <= Sample(ops[j]))
  }

  /** No reading of the run shows less than an earlier one. */
  ghost predicate NeverRewinds(start: int, ops: seq<Op>) {
    forall j: nat, k: nat, a, b :: j <= k && a <= b && Readable(start, ops, j, a) && Readable(start, ops, k, b) ==>
      Shown(start, ops, j, a) <= Shown(start, ops, k, b)
  }

  /** Every pause that is ended had read the same wall time twice. */
  ghost predicate NoTornPauseEnds(start: int, ops: seq<Op>) {
    forall k :: 0 <= k < |ops| && ops[k].Resume? && Depth(ops[..k]) == 1 ==> Tear(start, ops[..k]) == 0
  }

  lemma {:induction false} WellTimedPrefix(start: int, ops: seq<Op>, k: nat)
    requires WellTimed(start, ops) && k <= |ops|
    ensures WellTimed(start, ops[..k])
    decreases |ops| - k
  {
    if k < |ops| {
      WellTimedPrefix(start, ops, k + 1);
      assert ops[..k + 1][..k] == ops[..k];
    } else {
      assert ops[..k] == ops;
    }
  }

  /** Wall time only moves on: nothing after the first `k` operations samples before they are over. */
  lemma {:induction false} SamplesMoveOn(start: int, ops: seq<Op>, k: nat, j: nat)
    requires WellTimed(start, ops) && k <= j <= |ops|
    ensures Latest(start, ops[..k]) <= Latest(start, ops[..j])
    ensures j < |ops| && !ops[j].Add? ==> Latest(start, ops[..k]) <= Sample(ops[j])
    decreases j
  {
    if j < |ops| {
      TakeNext(ops, j);
      WellTimedPrefix(start, ops, j + 1);
    }
    if k < j {
      TakeNext(ops, j - 1);
      WellTimedPrefix(start, ops, j);
      SamplesMoveOn(start, ops, k, j - 1);
    }
  }

  /** One operation shows no less afterwards, unless it ends a torn pause. */
  lemma StepShows(start: int, ops: seq<Op>, op: Op, c: int, b: int)
    requires WellTimed(start, ops + [op])
    requires c <= b && (!op.Add? ==> c <= Sample(op)) && Latest(start, ops + [op]) <= b
    requires op.Resume? && Depth(ops) == 1 ==> Tear(start, ops) == 0
    ensures var s := Run(Fresh(start), ops);
            TimePassed(s, c) <= TimePassed(Apply(s, op), b)
  {
    assert (ops + [op])[..|ops|] == ops;
    RunRepresents(start, ops);
  }

  lemma {:induction false} ReadingsGrow(start: int, ops: seq<Op>, j: nat, k: nat, a: int, b: int)
    requires WellTimed(start, ops) && NoTornPauseEnds(start, ops)
    requires j <= k && a <= b && Readable(start, ops, j, a) && Readable(start, ops, k, b)
    ensures Shown(start, ops, j, a) <= Shown(start, ops, k, b)
    decreases k
  {
    if j < k {
      var i, op := k - 1, ops[k - 1];
      var c := Max(a, Latest(start, ops[..i]));
      TakeNext(ops, i);
      forall l | i <= l < |ops| && !ops[l].Add?
        ensures c <= Sample(ops[l])
      {
        SamplesMoveOn(start, ops, i, l);
      }
      SamplesMoveOn(start, ops, i, k);
      ReadingsGrow(start, ops, j, i, a, c);
      WellTimedPrefix(start, ops, k);
      StepShows(start, ops[..i], op, c, b);
    }
  }

  /** Ending a torn pause shows less than the reading just before, both at the wall time of the resume. */
  lemma TornPauseShowsLess(start: int, ops: seq<Op>, k: nat)
    requires WellTimed(start, ops) && k < |ops|
    requires ops[k].Resume? && Depth(ops[..k]) == 1 && Tear(start, ops[..k]) != 0
    ensures Readable(start, ops, k, ops[k].at) && Readable(start, ops, k + 1, ops[k].at)
    ensures Shown(start, ops, k + 1, ops[k].at) < Shown(start, ops, k, ops[k].at)
  {
    var at := ops[k].at;
    TakeNext(ops, k);
    WellTimedPrefix(start, ops, k + 1);
    WellTimedPrefix(start, ops, k);
    assert Latest(start, ops[..k + 1]) == at;
    forall j | k < j < |ops| && !ops[j].Add?
      ensures at <= Sample(ops[j])
    {
      SamplesMoveOn(start, ops, k + 1, j);
    }
    StepLaw(start, ops[..k], ops[k]);
    TearNonNegative(start, ops[..k]);
  }

  /**
   * Exactly when scenario time is monotone over all readings of a run: every pause that ends must
   * have read one wall time twice.
   */
  lemma NeverRewindsIff(start: int, ops: seq<Op>)
    requires WellTimed(start, ops)
    ensures NeverRewinds(start, ops) <==> NoTornPauseEnds(start, ops)
  {
    if NoTornPauseEnds(start, ops) {
      forall j: nat, k: nat, a, b | j <= k && a <= b && Readable(start, ops, j, a) && Readable(start, ops, k, b)
        ensures Shown(start, ops, j, a) <= Shown(start, ops, k, b)
      {
        ReadingsGrow(start, ops, j, k, a, b);
      }
    } else {
      var k :| 0 <= k < |ops| && ops[k].Resume? && Depth(ops[..k]) == 1 && Tear(start, ops[..k]) != 0;
      TornPauseShowsLess(start, ops, k);
    }
  }

  /** A freeze whose two samples are 3 and 5: the clock shows 5 while frozen and 3 right after. */
  lemma TornPauseRewinds()
    ensures var ops := [Pause(3, 5), Resume(9)];
            && WellTimed(0, ops)
            && Shown(0, ops, 1, 9) == 5
            && Shown(0, ops, 2, 9) == 3
            && !NeverRewinds(0, ops)
  {
    var ops := [Pause(3, 5), Resume(9)];
    assert ops[..2] == ops && ops[..1] == [Pause(3, 5)] && ops[..1][..0] == [] && ops[1] == Resume(9);
    assert Run(Fresh(0), ops[..1]) == AfterPause(Fresh(0), 3, 5);
    assert Run(Fresh(0), ops) == Apply(Run(Fresh(0), ops[..1]), ops[1]);
    TornPauseShowsLess(0, ops, 1);
  }

  // ----- the clock object ------------------------------------------------------------------

  class ChargedTimeManager {
    var realStartTime: int
    var offset: int
    var isPaused: bool
    var pauseRealStartTime: Option<int>
    var pausePassedTime: Option<int>
    var pauseOffset: int
    var pauseDepth: nat

    ghost function View(): State
      reads this
    {
      State(realStartTime, offset, pauseDepth, pauseRealStartTime, pausePassedTime, pauseOffset)
    }

    ghost predicate Ok()
      reads this
    {
      Valid(View()) && (isPaused <==> pauseDepth > 0)
    }

    constructor (now: int)
      ensures Ok() && View() == Fresh(now)
    {
      realStartTime, offset, isPaused := now, 0, false;
      pauseRealStartTime, pausePassedTime, pauseOffset, pauseDepth := None, None, 0, 0;
    }

    function RealTimePassed(now: int): int
      reads this
    {
      now - realStartTime
    }

    method Reading(now: int) returns (t: int)
      ensures t == TimePassed(View(), now)
    {
      if pauseDepth > 0 && pausePassedTime.Some? {
        return pausePassedTime.value + pauseOffset;
      }
      return RealTimePassed(now) + offset;
    }

    method Pause(first: int, second: int)
      requires Ok()
      modifies this
      ensures Ok() && View() == AfterPause(old(View()), first, second)
    {
      if pauseDepth == 0 {
        pauseRealStartTime := Some(first);
        pausePassedTime := Some(RealTimePassed(second) + offset);
        pauseOffset := 0;
        isPaused := true;
      }
      pauseDepth := pauseDepth + 1;
    }

    method Resume(at: int)
      requires Ok()
      modifies this
      ensures Ok() && View() == AfterResume(old(View()), at)
    {
      if pauseDepth == 0 {
        return;
      }
      pauseDepth := pauseDepth - 1;
      if pauseDepth > 0 {
        return;
      }
      var pauseDuration := Max(0, at - pauseRealStartTime.value);
      offset := offset - pauseDuration;
      offset := offset + pauseOffset;
      pauseOffset := 0;
      isPaused := false;
      pausePassedTime := None;
      pauseRealStartTime := None;
    }

    method AddOffset(raw: int)
      requires Ok()
      modifies this
      ensures Ok() && View() == AfterAdd(old(View()), raw)
    {
      var value := Max(0, raw);
      if pauseDepth > 0 {
        pauseOffset := pauseOffset + value;
      } else {
        offset := offset + value;
      }
    }
  }
}
