/**
 * Model calls over the charged environment. Every call freezes the world for a token, reads its
 * coordinate on the parallel axis, waits, and on every exit path hands the token back with its
 * charge; the window it records is what the offline union later measures.
 */
module Calls {
  import opened Options
  import opened Sequences
  import opened Intervals
  import Clock
  import Env = Environment
  import Laws = EnvironmentLaws

  datatype Call = Call(token: nat, start: Option<int>, settled: bool)

  datatype Sys = Sys(env: Env.State, calls: seq<Call>, log: seq<Window>)

  /** `recorded` is false when the recorder raised: the token is then handed back with no charge. */
  datatype Op =
    | Admit(probe: int, first: int, second: int)
    | Probe(call: nat, at: int)
    | Settle(call: nat, charge: int, recorded: bool, startedAt: int, finishedAt: int, at: int)
    | JudgePause(first: int, second: int)
    | JudgeResume(offset: int, at: int)
    | AddOffset(value: int, at: int)
    | Stop(final: Env.Phase, at: int)

  predicate Open(s: Sys, c: nat) {
    c < |s.calls| && !s.calls[c].settled
  }

  function Issued(s: Sys): nat {
    if Env.Admissible(s.env) then s.env.nextToken + 1 else 0
  }

  /** The locked environment step `op` performs, if any. */
  function EnvStep(s: Sys, op: Op): Option<Env.Op> {
    match op
    case Admit(probe, first, second) => Some(Env.PauseGeneration(probe, first, second))
    case Probe(_, _) => None
    case Settle(c, charge, recorded, _, _, at) =>
      if Open(s, c) then Some(Env.ResumeGeneration(s.calls[c].token, if recorded then charge else 0, at, [])) else None
    case JudgePause(first, second) => Some(Env.JudgePause(first, second))
    case JudgeResume(offset, at) => Some(Env.JudgeResume(offset, at, []))
    case AddOffset(value, _) => Some(Env.AddOffset(value))
    case Stop(final, at) => Some(Env.Stop(final, at))
  }

  function NextEnv(s: Sys, op: Op): (r: Env.State)
    requires Env.Ok(s.env)
    ensures Env.Ok(r)
  {
    if EnvStep(s, op).None? then s.env else Env.Exec(s.env, EnvStep(s, op).value)
  }

  function NextCalls(s: Sys, op: Op): seq<Call> {
    match op
    case Admit(_, _, _) => s.calls + [Call(Issued(s), None, false)]
    case Probe(c, at) =>
      if Open(s, c) && s.calls[c].token != 0 && s.calls[c].start.None?
      then s.calls[c := s.calls[c].(start := Some(Env.ChargeTime(s.env, s.calls[c].token, at)))]
      else s.calls
    case Settle(c, _, _, _, _, _) => if Open(s, c) then s.calls[c := s.calls[c].(settled := true)] else s.calls
    case _ => s.calls
  }

  function NextLog(s: Sys, op: Op): seq<Window> {
    match op
    case Settle(c, charge, recorded, startedAt, finishedAt, _) =>
      if Open(s, c) && recorded
      then s.log + [Window(startedAt, Max(startedAt, finishedAt), charge, s.calls[c].start)]
      else s.log
    case _ => s.log
  }

  function Act(s: Sys, op: Op): (r: Sys)
    requires Env.Ok(s.env)
    ensures Env.Ok(r.env)
  {
    Sys(NextEnv(s, op), NextCalls(s, op), NextLog(s, op))
  }

  function Run(s: Sys, ops: seq<Op>): (r: Sys)
    requires Env.Ok(s.env)
    ensures Env.Ok(r.env)
  {
    if ops == [] then s else Act(Run(s, ops[..|ops| - 1]), ops[|ops| - 1])
  }

  function ChargeOf(op: Op): int
    requires op.Settle?
  {
    if op.recorded then op.charge else 0
  }

  predicate Redeems(s: Sys, op: Op) {
    op.Settle? && Open(s, op.call) && s.calls[op.call].token in s.env.tokens
  }

  predicate Admits(s: Sys, op: Op) {
    op.Admit? && Env.Admissible(s.env)
  }

  /** Nothing but a completion, an admission or a stop touches the tokens or the frontier. */
  predicate KeepsTokens(s: Sys, op: Op) {
    !op.Stop? && !Admits(s, op) && !Redeems(s, op)
  }

  lemma TokensKept(s: Sys, op: Op)
    requires Env.Ok(s.env) && KeepsTokens(s, op)
    ensures var e := NextEnv(s, op);
            && e.tokens == s.env.tokens && e.starts == s.env.starts
            && e.frontier == s.env.frontier && e.nextToken == s.env.nextToken
  {
    if op.JudgeResume? && s.env.judgeDepth > 0 {
      var r := Env.JudgeRelease(s.env, op.offset, op.at);
      assert Env.ExecAll(r, []) == r;
    }
  }

  lemma TokenRedeemed(s: Sys, op: Op)
    requires Env.Ok(s.env) && Redeems(s, op)
    ensures var e, token := NextEnv(s, op), s.calls[op.call].token;
            && e.tokens == s.env.tokens - {token} && e.starts == s.env.starts - {token}
            && e.nextToken == s.env.nextToken
            && (e.tokens != {} ==>
                  e.frontier == Some(Max(s.env.frontier.value, s.env.starts[token] + Clamp(ChargeOf(op)))))
  {
    var token, charge := s.calls[op.call].token, ChargeOf(op);
    Env.CompleteOk(s.env, token, charge, op.at);
    var released := Env.Complete(s.env, token, charge, op.at);
    assert Env.ExecAll(released, []) == released;
  }

  lemma TokenIssued(s: Sys, op: Op)
    requires Env.Ok(s.env) && Admits(s, op)
    ensures var e, token, frontier := NextEnv(s, op), s.env.nextToken + 1, Env.Frontier(s.env, op.probe);
            && token !in s.env.tokens
            && e.tokens == s.env.tokens + {token} && e.starts == s.env.starts[token := frontier]
            && e.frontier == Some(frontier) && e.nextToken == token
  {
    Env.IssueOk(s.env, op.probe, op.first, op.second);
  }

  lemma TokensAfter(s: Sys, op: Op)
    requires Env.Ok(s.env)
    ensures NextEnv(s, op).nextToken >= s.env.nextToken
    ensures forall t :: t in NextEnv(s, op).tokens && t != s.env.nextToken + 1 ==>
              t in s.env.tokens && NextEnv(s, op).starts[t] == s.env.starts[t]
    ensures s.env.nextToken + 1 in NextEnv(s, op).tokens ==> Admits(s, op)
  {
    if Redeems(s, op) {
      TokenRedeemed(s, op);
    } else if Admits(s, op) {
      TokenIssued(s, op);
    } else if !op.Stop? {
      TokensKept(s, op);
    }
  }

  // ----- every exit path releases ----------------------------------------------------------

  predicate OpenCall(calls: seq<Call>, c: nat, token: nat) {
    c < |calls| && !calls[c].settled && calls[c].token == token
  }

  /** Every outstanding token belongs to a call that has not left yet. */
  ghost predicate Owned(tokens: set<nat>, calls: seq<Call>) {
    forall t :: t in tokens ==> exists c: nat :: OpenCall(calls, c, t)
  }

  lemma CallPersists(s: Sys, op: Op, c: nat, token: nat)
    requires OpenCall(s.calls, c, token) && !(op.Settle? && op.call == c)
    ensures OpenCall(NextCalls(s, op), c, token)
  {
  }

  lemma OwnedStep(s: Sys, op: Op)
    requires Env.Ok(s.env) && Owned(s.env.tokens, s.calls)
    ensures Owned(NextEnv(s, op).tokens, NextCalls(s, op))
  {
    TokensAfter(s, op);
    var tokens, calls, issued := NextEnv(s, op).tokens, NextCalls(s, op), s.env.nextToken + 1;
    if Redeems(s, op) {
      TokenRedeemed(s, op);
    }
    assert issued in tokens ==> OpenCall(calls, |s.calls|, issued);
    forall t | t in tokens && t != issued
      ensures exists c: nat :: OpenCall(calls, c, t)
    {
      var c: nat :| OpenCall(s.calls, c, t);
      CallPersists(s, op, c, t);
    }
  }

  /** When every call has left, by whichever path, no generation freezes the world any more. */
  lemma {:induction false} EveryExitReleases(s: Sys, ops: seq<Op>)
    requires Env.Ok(s.env) && Owned(s.env.tokens, s.calls)
    ensures Owned(Run(s, ops).env.tokens, Run(s, ops).calls)
    ensures (forall c :: c in Run(s, ops).calls ==> c.settled) ==>
              Run(s, ops).env.tokens == {} && Run(s, ops).env.clock.depth == Run(s, ops).env.judgeDepth
  {
    if ops != [] {
      EveryExitReleases(s, ops[..|ops| - 1]);
      OwnedStep(Run(s, ops[..|ops| - 1]), ops[|ops| - 1]);
    }
    var r := Run(s, ops);
    if forall c :: c in r.calls ==> c.settled {
      forall t
        ensures t !in r.env.tokens
      {
        assert forall c: nat :: c < |r.calls| ==> r.calls[c] in r.calls;
        assert forall c: nat :: !OpenCall(r.calls, c, t);
      }
    }
  }

  // ----- which runs the accounting is about -------------------------------------------------

  function First(op: Op): int {
    match op
    case Admit(probe, _, _) => probe
    case Probe(_, at) => at
    case Settle(_, _, _, _, _, at) => at
    case JudgePause(first, _) => first
    case JudgeResume(_, at) => at
    case AddOffset(_, at) => at
    case Stop(_, at) => at
  }

  function End(op: Op): int {
    match op
    case Admit(_, _, second) => second
    case JudgePause(_, second) => second
    case _ => First(op)
  }

  function Latest(start: int, ops: seq<Op>): int {
    if ops == [] then start else End(ops[|ops| - 1])
  }

  /** The wall clock does not run backwards; two readings of one pause may differ. */
  predicate Timely(latest: int, op: Op) {
    && latest <= First(op)
    && (op.Admit? ==> op.probe <= op.first <= op.second)
    && (op.JudgePause? ==> op.first <= op.second)
  }

  /** A window is recorded only by a call whose coordinate was read and whose token is outstanding. */
  predicate LiveStep(s: Sys, op: Op) {
    op.Settle? && op.recorded && Open(s, op.call) ==>
      s.calls[op.call].token in s.env.tokens && s.calls[op.call].start.Some?
  }

  /** A run the source can make, with every token resumed before a stop. */
  ghost predicate Proper(s: Sys, start: int, ops: seq<Op>)
    requires Env.Ok(s.env)
  {
    if ops == [] then true
    else
      var init, last := ops[..|ops| - 1], ops[|ops| - 1];
      Proper(s, start, init) && Timely(Latest(start, init), last) && LiveStep(Run(s, init), last)
  }

  /** How far the frozen reading lies beyond what a resume would show: the freeze read two wall times. */
  function Gap(c: Clock.State): int
    requires Clock.Valid(c)
  {
    if c.depth > 0 then c.pausePassed.value - (c.pauseRealStart.value - c.realStart + c.offset) else 0
  }

  predicate Torn(c: Clock.State)
    requires Clock.Valid(c)
  {
    Gap(c) != 0
  }

  /** The admission that starts a busy period. */
  predicate Opens(s: Sys, op: Op) {
    Admits(s, op) && s.env.tokens == {}
  }

  /** No busy period of the run starts inside a torn freeze. */
  ghost predicate Coherent(s: Sys, ops: seq<Op>)
    requires Env.Ok(s.env)
  {
    if ops == [] then true
    else
      var init, last := ops[..|ops| - 1], ops[|ops| - 1];
      Coherent(s, init) && !(Opens(Run(s, init), last) && Torn(Run(s, init).env.clock))
  }

  /** No call is admitted while another is outstanding. */
  ghost predicate Solo(s: Sys, ops: seq<Op>)
    requires Env.Ok(s.env)
  {
    if ops == [] then true
    else
      var init, last := ops[..|ops| - 1], ops[|ops| - 1];
      Solo(s, init) && (last.Admit? ==> Run(s, init).env.tokens == {})
  }

  // ----- busy periods ----------------------------------------------------------------------

  /** One busy period: the frontier runs from `lo` to `hi`, and its windows are log[from..to]. */
  datatype Period = Period(lo: int, hi: int, from: nat, to: nat)

  /** The last period once `op` has moved the frontier. */
  function Longer(s: Sys, p: Period, op: Op): Period
    requires Env.Ok(s.env) && Redeems(s, op)
  {
    Period(p.lo, Env.Redeem(s.env, s.calls[op.call].token, ChargeOf(op)).frontier.value, p.from, |NextLog(s, op)|)
  }

  function Grow(s: Sys, ps: seq<Period>, op: Op): seq<Period>
    requires Env.Ok(s.env)
  {
    if op.Admit? && Env.Admissible(s.env) && s.env.tokens == {} then
      var frontier := Clock.TimePassed(s.env.clock, op.probe);
      ps + [Period(frontier, frontier, |s.log|, |s.log|)]
    else if Redeems(s, op) && ps != [] then
      ps[|ps| - 1 := Longer(s, ps[|ps| - 1], op)]
    else ps
  }

  function Periods(s: Sys, ops: seq<Op>): seq<Period>
    requires Env.Ok(s.env)
  {
    if ops == [] then []
    else Grow(Run(s, ops[..|ops| - 1]), Periods(s, ops[..|ops| - 1]), ops[|ops| - 1])
  }

  function Advance(ps: seq<Period>): int {
    if ps == [] then 0 else Advance(ps[..|ps| - 1]) + ps[|ps| - 1].hi - ps[|ps| - 1].lo
  }

  /**
   * The periods split the log; each one's windows cover its stretch of the axis without a gap, and
   * no period starts before the previous one's final frontier.
   */
  ghost predicate Tiled(log: seq<Window>, ps: seq<Period>)
    decreases |ps|
  {
    if ps == [] then log == []
    else
      var p := ps[|ps| - 1];
      && p.from <= p.to == |log| && p.lo <= p.hi
      && Axis(log[p.from..]) == Cells(Interval(p.lo, p.hi))
      && (|ps| > 1 ==> ps[|ps| - 2].hi <= p.lo)
      && Tiled(log[..p.from], ps[..|ps| - 1])
  }

  lemma SplitLog(log: seq<Window>, k: nat)
    requires k <= |log|
    ensures Axis(log) == Axis(log[..k]) + Axis(log[k..])
  {
    Split(log, k);
    AxisConcat(log[..k], log[k..]);
  }

  /** A tiled log's union is exactly what the frontier advanced. */
  lemma {:induction false} TiledUnion(log: seq<Window>, ps: seq<Period>)
    requires Tiled(log, ps)
    ensures |Axis(log)| == Advance(ps)
    ensures forall t :: t in Axis(log) ==> ps != [] && t < ps[|ps| - 1].hi
    decreases |ps|
  {
    if ps == [] {
    } else {
      var p, init := ps[|ps| - 1], ps[..|ps| - 1];
      TiledUnion(log[..p.from], init);
      SplitLog(log, p.from);
      UnionSize(Axis(log[..p.from]), Cells(Interval(p.lo, p.hi)));
      CellsCount(Interval(p.lo, p.hi));
    }
  }

  // ----- what the clock would show if it were resumed now ------------------------------------

  ghost predicate ClockOk(c: Clock.State, latest: int) {
    Clock.Valid(c) && Gap(c) >= 0 && (c.depth > 0 ==> c.pauseRealStart.value <= latest)
  }

  /** Scenario time once every freeze is over: unlike the frozen reading it never goes back. */
  function Thawed(c: Clock.State, now: int): int
    requires Clock.Valid(c)
  {
    if c.depth > 0 then c.pauseRealStart.value - c.realStart + c.offset + c.pauseOffset
    else now - c.realStart + c.offset
  }

  lemma ReadingIsThawedPlusGap(c: Clock.State, now: int)
    requires Clock.Valid(c)
    ensures Clock.TimePassed(c, now) == Thawed(c, now) + if c.depth > 0 then Gap(c) else 0
  {
  }

  lemma PauseKeepsTime(c: Clock.State, latest: int, first: int, second: int)
    requires ClockOk(c, latest) && latest <= first <= second
    ensures ClockOk(Clock.AfterPause(c, first, second), second)
    ensures Thawed(Clock.AfterPause(c, first, second), second) == Thawed(c, first) >= Thawed(c, latest)
  {
  }

  lemma ReleaseKeepsTime(c: Clock.State, latest: int, offset: int, at: int)
    requires ClockOk(c, latest) && latest <= at
    ensures var r := Clock.AfterResume(Clock.AfterAdd(c, offset), at);
            ClockOk(r, at) && Thawed(r, at) == Thawed(c, at) + Clamp(offset) && Thawed(c, at) >= Thawed(c, latest)
  {
  }

  lemma {:induction false} DrainKeepsTime(c: Clock.State, latest: int, at: int)
    requires ClockOk(c, latest) && latest <= at
    ensures ClockOk(Env.Drain(c, at), at)
    ensures Thawed(Env.Drain(c, at), at) == Thawed(c, at) >= Thawed(c, latest)
    decreases c.depth
  {
    if c.depth > 0 {
      DrainKeepsTime(Clock.AfterResume(c, at), at, at);
    }
  }

  // ----- the invariant of a proper run -----------------------------------------------------

  ghost predicate StartsKnown(s: Sys) {
    forall c :: 0 <= c < |s.calls| && s.calls[c].start.Some? && s.calls[c].token in s.env.starts ==>
      s.calls[c].start.value == s.env.starts[s.calls[c].token]
  }

  ghost predicate TokensOld(s: Sys) {
    forall c :: 0 <= c < |s.calls| ==> s.calls[c].token <= s.env.nextToken
  }

  /** Where the last period stands relative to the clock. */
  ghost predicate Placed(env: Env.State, latest: int, ps: seq<Period>)
    requires Env.Ok(env)
  {
    && (ps != [] ==> ps[|ps| - 1].hi <= Thawed(env.clock, latest))
    && (env.tokens != {} ==>
          && ps != []
          && env.frontier == Some(ps[|ps| - 1].hi)
          && (forall t :: t in env.tokens ==> ps[|ps| - 1].lo <= env.starts[t] <= ps[|ps| - 1].hi))
  }

  ghost predicate Inv(s: Sys, latest: int, ps: seq<Period>) {
    && Env.Ok(s.env)
    && ClockOk(s.env.clock, latest)
    && StartsKnown(s) && TokensOld(s)
    && AllCoordinated(s.log)
    && Tiled(s.log, ps)
    && Placed(s.env, latest, ps)
  }

  lemma TimeAfter(s: Sys, latest: int, op: Op)
    requires Env.Ok(s.env) && ClockOk(s.env.clock, latest) && Timely(latest, op)
    ensures ClockOk(NextEnv(s, op).clock, End(op))
    ensures Thawed(NextEnv(s, op).clock, End(op)) >= Thawed(s.env.clock, latest)
    ensures Redeems(s, op) && op.recorded ==>
              Thawed(NextEnv(s, op).clock, End(op)) >= Thawed(s.env.clock, latest) + Clamp(op.charge)
    ensures Admits(s, op) && !Torn(s.env.clock) ==>
              Thawed(NextEnv(s, op).clock, End(op)) >= Clock.TimePassed(s.env.clock, op.probe)
                >= Thawed(s.env.clock, latest)
  {
    var c := s.env.clock;
    var step := EnvStep(s, op);
    if step.Some? {
      Laws.ClockAfter(s.env, step.value);
    }
    match op
    case Admit(probe, first, second) =>
      ReadingIsThawedPlusGap(c, probe);
      PauseKeepsTime(c, latest, first, second);
    case JudgePause(first, second) => PauseKeepsTime(c, latest, first, second);
    case Settle(_, charge, recorded, _, _, at) => ReleaseKeepsTime(c, latest, if recorded then charge else 0, at);
    case JudgeResume(offset, at) => ReleaseKeepsTime(c, latest, offset, at);
    case Stop(_, at) => DrainKeepsTime(c, latest, at);
    case _ =>
  }

  lemma StepBookkeeping(s: Sys, latest: int, ps: seq<Period>, op: Op)
    requires Inv(s, latest, ps) && LiveStep(s, op)
    ensures StartsKnown(Act(s, op)) && TokensOld(Act(s, op)) && AllCoordinated(NextLog(s, op))
  {
    TokensAfter(s, op);
    var calls, env := NextCalls(s, op), NextEnv(s, op);
    forall c | 0 <= c < |calls|
      ensures calls[c].token <= env.nextToken
      ensures calls[c].start.Some? && calls[c].token in env.starts ==>
                calls[c].start.value == env.starts[calls[c].token]
    {
      if c < |s.calls| {
        assert calls[c].token == s.calls[c].token;
      }
    }
  }

  lemma PlacedKept(env: Env.State, next: Env.State, latest: int, end: int, ps: seq<Period>)
    requires Env.Ok(env) && Env.Ok(next) && Placed(env, latest, ps)
    requires next.tokens == {} || (next.tokens == env.tokens && next.starts == env.starts
                                   && next.frontier == env.frontier)
    requires Thawed(next.clock, end) >= Thawed(env.clock, latest)
    ensures Placed(next, end, ps)
  {
  }

  lemma PlacedJoined(env: Env.State, next: Env.State, latest: int, end: int, ps: seq<Period>, token: nat)
    requires Env.Ok(env) && Env.Ok(next) && Placed(env, latest, ps) && env.tokens != {} && ps != []
    requires next.tokens == env.tokens + {token} && next.starts == env.starts[token := ps[|ps| - 1].hi]
    requires next.frontier == env.frontier
    requires Thawed(next.clock, end) >= Thawed(env.clock, latest)
    ensures Placed(next, end, ps)
  {
  }

  lemma TiledOpen(log: seq<Window>, ps: seq<Period>, lo: int)
    requires Tiled(log, ps) && (ps != [] ==> ps[|ps| - 1].hi <= lo)
    ensures Tiled(log, ps + [Period(lo, lo, |log|, |log|)])
  {
    Snoc(ps, Period(lo, lo, |log|, |log|));
    TakeAll(log);
    assert log[|log|..] == [];
    assert Cells(Interval(lo, lo)) == {};
  }

  /** Opening a busy period, or joining the one in progress. */
  lemma AdmitStep(s: Sys, latest: int, ps: seq<Period>, op: Op)
    requires Inv(s, latest, ps) && Timely(latest, op) && Admits(s, op) && !(Opens(s, op) && Torn(s.env.clock))
    ensures Tiled(NextLog(s, op), Grow(s, ps, op)) && Placed(NextEnv(s, op), End(op), Grow(s, ps, op))
  {
    TimeAfter(s, latest, op);
    TokenIssued(s, op);
    if s.env.tokens == {} {
      TiledOpen(s.log, ps, Clock.TimePassed(s.env.clock, op.probe));
    } else {
      PlacedJoined(s.env, NextEnv(s, op), latest, End(op), ps, s.env.nextToken + 1);
    }
  }

  lemma TileGrows(log: seq<Window>, p: Period, w: Window)
    requires p.from <= p.to == |log| && p.lo <= p.hi
    requires Axis(log[p.from..]) == Cells(Interval(p.lo, p.hi))
    requires p.lo <= ChargedInterval(w).lo <= p.hi
    ensures Axis((log + [w])[p.from..]) == Cells(Interval(p.lo, Max(p.hi, ChargedInterval(w).hi)))
  {
    assert (log + [w])[p.from..] == log[p.from..] + [w];
    AxisSnoc(log[p.from..], w);
    MergeCells(Interval(p.lo, p.hi), ChargedInterval(w));
  }

  /** Replacing the last tile by a longer one, possibly with one more window, keeps the log tiled. */
  lemma TiledReplace(log: seq<Window>, ps: seq<Period>, more: seq<Window>, hi: int)
    requires ps != [] && Tiled(log, ps)
    requires var p := ps[|ps| - 1];
             p.lo <= hi && Axis((log + more)[p.from..]) == Cells(Interval(p.lo, hi))
    ensures var p := ps[|ps| - 1];
            Tiled(log + more, ps[|ps| - 1 := Period(p.lo, hi, p.from, |log + more|)])
  {
    var p := ps[|ps| - 1];
    var qs := ps[|ps| - 1 := Period(p.lo, hi, p.from, |log + more|)];
    assert qs[..|ps| - 1] == ps[..|ps| - 1];
    assert (log + more)[..p.from] == log[..p.from];
  }

  lemma RedeemTiles(log: seq<Window>, ps: seq<Period>, w: Window, recorded: bool, hi: int)
    requires ps != [] && Tiled(log, ps)
    requires ps[|ps| - 1].lo <= ChargedInterval(w).lo <= ps[|ps| - 1].hi
    requires hi == Max(ps[|ps| - 1].hi, ChargedInterval(w).hi)
    requires !recorded ==> ChargedInterval(w).hi <= ps[|ps| - 1].hi
    ensures var more, p := if recorded then [w] else [], ps[|ps| - 1];
            Tiled(log + more, ps[|ps| - 1 := Period(p.lo, hi, p.from, |log + more|)])
  {
    if recorded {
      TileGrows(log, ps[|ps| - 1], w);
      TiledReplace(log, ps, [w], hi);
    } else {
      assert log + [] == log;
      TiledReplace(log, ps, [], hi);
    }
  }

  lemma RedeemPlaced(env: Env.State, next: Env.State, latest: int, end: int, ps: seq<Period>, q: Period, token: nat,
                     charge: nat)
    requires Env.Ok(env) && Env.Ok(next) && Placed(env, latest, ps) && token in env.tokens
    requires next.tokens == env.tokens - {token} && next.starts == env.starts - {token}
    requires q.lo == ps[|ps| - 1].lo && q.hi == Max(ps[|ps| - 1].hi, env.starts[token] + charge)
    requires next.tokens != {} ==> next.frontier == Some(q.hi)
    requires Thawed(next.clock, end) >= Thawed(env.clock, latest) + charge
    ensures Placed(next, end, ps[|ps| - 1 := q])
  {
  }

  /** A completion moves the frontier exactly as far as its window extends the covered stretch. */
  lemma RedeemStep(s: Sys, latest: int, ps: seq<Period>, op: Op)
    requires Inv(s, latest, ps) && Timely(latest, op) && LiveStep(s, op) && Redeems(s, op)
    ensures Tiled(NextLog(s, op), Grow(s, ps, op)) && Placed(NextEnv(s, op), End(op), Grow(s, ps, op))
  {
    TimeAfter(s, latest, op);
    TokenRedeemed(s, op);
    var p, token, charge := ps[|ps| - 1], s.calls[op.call].token, ChargeOf(op);
    assert token in s.env.tokens;
    var q := Longer(s, p, op);
    RedeemPlaced(s.env, NextEnv(s, op), latest, End(op), ps, q, token, Clamp(charge));
    var w := Window(op.startedAt, Max(op.startedAt, op.finishedAt), charge, Some(s.env.starts[token]));
    RedeemTiles(s.log, ps, w, op.recorded, q.hi);
    assert NextLog(s, op) == s.log + if op.recorded then [w] else [];
  }

  lemma OtherStep(s: Sys, latest: int, ps: seq<Period>, op: Op)
    requires Inv(s, latest, ps) && Timely(latest, op) && LiveStep(s, op) && !Redeems(s, op) && !Admits(s, op)
    ensures Tiled(NextLog(s, op), Grow(s, ps, op)) && Placed(NextEnv(s, op), End(op), Grow(s, ps, op))
  {
    TimeAfter(s, latest, op);
    if !op.Stop? {
      TokensKept(s, op);
    }
    PlacedKept(s.env, NextEnv(s, op), latest, End(op), ps);
    QuietStep(s, ps, op);
  }

  lemma {:induction false} ProperRun(s: Sys, start: int, ops: seq<Op>)
    requires Env.Ok(s.env) && s.env.tokens == {} && s.calls == [] && s.log == []
    requires ClockOk(s.env.clock, start)
    requires Proper(s, start, ops) && Coherent(s, ops)
    ensures Inv(Run(s, ops), Latest(start, ops), Periods(s, ops))
  {
    if ops != [] {
      var init, op := ops[..|ops| - 1], ops[|ops| - 1];
      ProperRun(s, start, init);
      var mid, latest, ps := Run(s, init), Latest(start, init), Periods(s, init);
      TimeAfter(mid, latest, op);
      StepBookkeeping(mid, latest, ps, op);
      if Admits(mid, op) {
        AdmitStep(mid, latest, ps, op);
      } else if Redeems(mid, op) {
        RedeemStep(mid, latest, ps, op);
      } else {
        OtherStep(mid, latest, ps, op);
      }
    }
  }

  // ----- one call at a time ----------------------------------------------------------------

  /** With one call at a time, nothing of the open period has been settled while it is outstanding. */
  ghost predicate OneAtATime(env: Env.State, log: seq<Window>, ps: seq<Period>) {
    && SerializedCharge(log) == Advance(ps)
    && |env.tokens| <= 1
    && (env.tokens != {} ==> ps != [] && ps[|ps| - 1].lo == ps[|ps| - 1].hi)
  }

  lemma AdvanceReplace(ps: seq<Period>, p: Period)
    requires ps != []
    ensures Advance(ps[|ps| - 1 := p]) == Advance(ps) - (ps[|ps| - 1].hi - ps[|ps| - 1].lo) + p.hi - p.lo
  {
    assert ps[|ps| - 1 := p][..|ps| - 1] == ps[..|ps| - 1];
  }

  lemma SoloRedeem(s: Sys, latest: int, ps: seq<Period>, op: Op)
    requires Inv(s, latest, ps) && LiveStep(s, op) && OneAtATime(s.env, s.log, ps) && Redeems(s, op)
    ensures OneAtATime(NextEnv(s, op), NextLog(s, op), Grow(s, ps, op))
  {
    var token, p := s.calls[op.call].token, ps[|ps| - 1];
    TokenRedeemed(s, op);
    assert |s.env.tokens - {token}| == |s.env.tokens| - 1;
    AdvanceReplace(ps, Grow(s, ps, op)[|ps| - 1]);
    if op.recorded {
      ChargeSnoc(s.log, Window(op.startedAt, Max(op.startedAt, op.finishedAt), op.charge, s.calls[op.call].start));
    }
  }

  lemma SoloAdmit(s: Sys, ps: seq<Period>, op: Op)
    requires Env.Ok(s.env) && OneAtATime(s.env, s.log, ps) && Admits(s, op) && s.env.tokens == {}
    ensures OneAtATime(NextEnv(s, op), NextLog(s, op), Grow(s, ps, op))
  {
    TokenIssued(s, op);
    assert NextEnv(s, op).tokens == {s.env.nextToken + 1};
    assert Grow(s, ps, op)[..|ps|] == ps;
  }

  lemma SoloOther(s: Sys, ps: seq<Period>, op: Op)
    requires Env.Ok(s.env) && LiveStep(s, op) && OneAtATime(s.env, s.log, ps) && !Redeems(s, op) && !Admits(s, op)
    ensures OneAtATime(NextEnv(s, op), NextLog(s, op), Grow(s, ps, op))
  {
    QuietStep(s, ps, op);
    TokensKeptOrDrained(s, op);
  }

  /** A step that neither admits nor redeems records nothing and moves no period. */
  lemma QuietStep(s: Sys, ps: seq<Period>, op: Op)
    requires Env.Ok(s.env) && LiveStep(s, op) && !Redeems(s, op) && !Admits(s, op)
    ensures Grow(s, ps, op) == ps && NextLog(s, op) == s.log
  {
  }

  lemma TokensKeptOrDrained(s: Sys, op: Op)
    requires Env.Ok(s.env) && !Redeems(s, op) && !Admits(s, op)
    ensures NextEnv(s, op).tokens in {{}, s.env.tokens}
  {
    if !op.Stop? {
      TokensKept(s, op);
    }
  }

  lemma SoloStep(s: Sys, latest: int, ps: seq<Period>, op: Op)
    requires Inv(s, latest, ps) && LiveStep(s, op) && OneAtATime(s.env, s.log, ps)
    requires op.Admit? ==> s.env.tokens == {}
    ensures OneAtATime(NextEnv(s, op), NextLog(s, op), Grow(s, ps, op))
  {
    if Redeems(s, op) {
      SoloRedeem(s, latest, ps, op);
    } else if Admits(s, op) {
      SoloAdmit(s, ps, op);
    } else {
      SoloOther(s, ps, op);
    }
  }

  lemma {:induction false} SoloRun(s: Sys, start: int, ops: seq<Op>)
    requires Env.Ok(s.env) && s.env.tokens == {} && s.calls == [] && s.log == []
    requires ClockOk(s.env.clock, start)
    requires Proper(s, start, ops) && Coherent(s, ops) && Solo(s, ops)
    ensures OneAtATime(Run(s, ops).env, Run(s, ops).log, Periods(s, ops))
  {
    if ops != [] {
      var init, op := ops[..|ops| - 1], ops[|ops| - 1];
      SoloRun(s, start, init);
      ProperRun(s, start, init);
      SoloStep(Run(s, init), Latest(start, init), Periods(s, init), op);
    }
  }

  // ----- the main results ------------------------------------------------------------------

  /**
   * In any interleaving of calls, judge pauses, charges and stops, the recorded windows tile the
   * busy periods, so the offline union is the summed frontier advance. It never exceeds the
   * serialized charge, and equals it when no two calls were outstanding together.
   */
  lemma UnionIsFrontierAdvance(s: Sys, start: int, ops: seq<Op>)
    requires Env.Ok(s.env) && s.env.tokens == {} && s.calls == [] && s.log == []
    requires ClockOk(s.env.clock, start)
    requires Proper(s, start, ops) && Coherent(s, ops)
    ensures var log, ps := Run(s, ops).log, Periods(s, ops);
            && Tiled(log, ps)
            && AllCoordinated(log)
            && |Axis(log)| == Advance(ps)
            && Advance(ps) <= SerializedCharge(log)
            && (Solo(s, ops) ==> Advance(ps) == SerializedCharge(log))
  {
    var log, ps := Run(s, ops).log, Periods(s, ops);
    ProperRun(s, start, ops);
    TiledUnion(log, ps);
    AxisVersusSerialized(log);
    if Solo(s, ops) {
      SoloRun(s, start, ops);
    }
  }

  /** A call admitted after a stop freezes nothing and can only record a window off the axis. */
  lemma LateCallHasNoCoordinate(s: Sys, probe: int, first: int, second: int, at: int, charge: int, startedAt: int,
                                finishedAt: int)
    requires Laws.Halted(s.env)
    ensures var c := |s.calls|;
            var admitted := Act(s, Admit(probe, first, second));
            var settled := Act(Act(admitted, Probe(c, at)), Settle(c, charge, true, startedAt, finishedAt, at));
            && settled.env == s.env
            && settled.log == s.log + [Window(startedAt, Max(startedAt, finishedAt), charge, None)]
            && (s.log != [] && AllCoordinated(s.log) ==> !AllCoordinated(settled.log) && !NoneCoordinated(settled.log))
  {
    var c := |s.calls|;
    var admitted := Act(s, Admit(probe, first, second));
    var settled := Act(Act(admitted, Probe(c, at)), Settle(c, charge, true, startedAt, finishedAt, at));
    assert settled.log[|s.log|] in settled.log;
    if s.log != [] {
      assert settled.log[0] == s.log[0] && s.log[0] in s.log;
    }
  }

  // ----- a busy period inside a torn freeze: the premise of the main result is exact -----------

  lemma RunSnoc(s: Sys, ops: seq<Op>, op: Op)
    requires Env.Ok(s.env)
    ensures Run(s, ops + [op]) == Act(Run(s, ops), op)
    ensures Periods(s, ops + [op]) == Grow(Run(s, ops), Periods(s, ops), op)
  {
    assert (ops + [op])[..|ops|] == ops;
  }

  lemma {:induction false} RunConcat(s: Sys, a: seq<Op>, b: seq<Op>)
    requires Env.Ok(s.env)
    ensures Run(s, a + b) == Run(Run(s, a), b)
  {
    if b == [] {
      ConcatNil(a);
    } else {
      RunConcat(s, a, b[..|b| - 1]);
      ConcatSnoc(a, b);
      RunSnoc(s, a + b[..|b| - 1], b[|b| - 1]);
    }
  }

  /** A system together with the busy periods it has been through. */
  datatype Track = Track(sys: Sys, ps: seq<Period>)

  function Follow(t: Track, ops: seq<Op>): (r: Track)
    requires Env.Ok(t.sys.env)
    ensures Env.Ok(r.sys.env)
  {
    if ops == [] then t
    else
      var mid := Follow(t, ops[..|ops| - 1]);
      Track(Act(mid.sys, ops[|ops| - 1]), Grow(mid.sys, mid.ps, ops[|ops| - 1]))
  }

  /** A run the source can make from here, with no busy period started inside a torn freeze. */
  ghost predicate Fits(s: Sys, latest: int, ops: seq<Op>)
    requires Env.Ok(s.env)
  {
    Proper(s, latest, ops) && Coherent(s, ops)
  }

  lemma {:induction false} FollowIs(t: Track, s: Sys, before: seq<Op>, ops: seq<Op>)
    requires Env.Ok(s.env) && t == Track(Run(s, before), Periods(s, before))
    ensures Follow(t, ops) == Track(Run(s, before + ops), Periods(s, before + ops))
  {
    if ops == [] {
      ConcatNil(before);
    } else {
      FollowIs(t, s, before, ops[..|ops| - 1]);
      ConcatSnoc(before, ops);
      RunSnoc(s, before + ops[..|ops| - 1], ops[|ops| - 1]);
    }
  }

  lemma FollowSnoc(t: Track, ops: seq<Op>, op: Op)
    requires Env.Ok(t.sys.env)
    ensures var mid := Follow(t, ops);
            Follow(t, ops + [op]) == Track(Act(mid.sys, op), Grow(mid.sys, mid.ps, op))
  {
    Snoc(ops, op);
  }

  lemma {:induction false} FollowConcat(t: Track, a: seq<Op>, b: seq<Op>)
    requires Env.Ok(t.sys.env)
    ensures Follow(t, a + b) == Follow(Follow(t, a), b)
  {
    if b == [] {
      ConcatNil(a);
    } else {
      FollowConcat(t, a, b[..|b| - 1]);
      ConcatSnoc(a, b);
      FollowSnoc(t, a + b[..|b| - 1], b[|b| - 1]);
    }
  }

  lemma {:induction false} FollowRuns(t: Track, ops: seq<Op>)
    requires Env.Ok(t.sys.env)
    ensures Follow(t, ops).sys == Run(t.sys, ops)
  {
    if ops != [] {
      FollowRuns(t, ops[..|ops| - 1]);
    }
  }

  lemma {:induction false} LatestConcat(start: int, a: seq<Op>, b: seq<Op>)
    ensures Latest(start, a + b) == Latest(Latest(start, a), b)
  {
    if b == [] {
      ConcatNil(a);
    } else {
      ConcatSnoc(a, b);
    }
  }

  lemma {:induction false} FitsConcat(s: Sys, start: int, a: seq<Op>, b: seq<Op>)
    requires Env.Ok(s.env)
    ensures Run(s, a + b) == Run(Run(s, a), b)
    ensures Proper(s, start, a + b) <==> Proper(s, start, a) && Proper(Run(s, a), Latest(start, a), b)
    ensures Coherent(s, a + b) <==> Coherent(s, a) && Coherent(Run(s, a), b)
  {
    if b == [] {
      ConcatNil(a);
    } else {
      var init, last := b[..|b| - 1], b[|b| - 1];
      FitsConcat(s, start, a, init);
      ConcatSnoc(a, b);
      RunSnoc(s, a + init, last);
      LatestConcat(start, a, init);
    }
  }

  /** The call just admitted is outstanding alone, stamped `at`, and its coordinate is still to be read. */
  predicate AdmittedAlone(s: Sys, token: nat, at: int) {
    && token != 0 && s.calls != [] && s.calls[|s.calls| - 1] == Call(token, None, false)
    && s.env.tokens == {token} && s.env.starts == map[token := at] && s.env.frontier == Some(at)
  }

  /** The admission that starts a busy period. */
  lemma OpenedBy(s: Sys, open: Op)
    requires Env.Ok(s.env) && Opens(s, open)
    ensures var a := Act(s, open);
            && AdmittedAlone(a, s.env.nextToken + 1, Clock.TimePassed(s.env.clock, open.probe)) && a.log == s.log
            && a.env.judgeDepth == s.env.judgeDepth && a.env.phase == Env.Paused
            && (s.env.clock.depth > 0 ==> a.env.clock == s.env.clock.(depth := s.env.clock.depth + 1))
  {
    TokenIssued(s, open);
    Laws.ClockAfter(s.env, EnvStep(s, open).value);
    Env.IssueOk(s.env, open.probe, open.first, open.second);
    assert s.env.starts.Keys == {};
  }

  /** One call is outstanding, alone, and its coordinate has been read. */
  predicate AloneAt(s: Sys, token: nat, at: int) {
    && s.calls != [] && s.calls[|s.calls| - 1] == Call(token, Some(at), false)
    && s.env.tokens == {token} && s.env.starts == map[token := at] && s.env.frontier == Some(at)
  }

  lemma ProbedAlone(a: Sys, token: nat, at: int, now: int)
    requires Env.Ok(a.env) && AdmittedAlone(a, token, at)
    ensures var p := Act(a, Probe(|a.calls| - 1, now));
            p.env == a.env && p.log == a.log && |p.calls| == |a.calls| && AloneAt(p, token, at)
  {
  }

  /** Settling the only outstanding call closes the period at the end of its window. */
  lemma SettledAlone(p: Sys, ps: seq<Period>, token: nat, at: int, charge: nat, now: int)
    requires Env.Ok(p.env) && AloneAt(p, token, at) && ps != []
    requires ps[|ps| - 1] == Period(at, at, |p.log|, |p.log|)
    ensures var settle := Settle(|p.calls| - 1, charge, true, now, now, now);
            var z := Act(p, settle);
            && z.env.tokens == {} && |z.calls| == |p.calls|
            && z.log == p.log + [Window(now, now, charge, Some(at))]
            && z.env.judgeDepth == p.env.judgeDepth
            && z.env.clock == Clock.AfterResume(Clock.AfterAdd(p.env.clock, charge), now)
            && (z.env.clock.depth > 0 ==> z.env.phase == p.env.phase)
            && Grow(p, ps, settle) == ps[|ps| - 1 := Period(at, at + charge, |p.log|, |p.log| + 1)]
            && LiveStep(p, settle)
  {
    var settle := Settle(|p.calls| - 1, charge, true, now, now, now);
    assert Redeems(p, settle);
    TokenRedeemed(p, settle);
    Laws.ClockAfter(p.env, EnvStep(p, settle).value);
    SettledPhase(p, token, charge, now);
  }

  lemma SettledPhase(p: Sys, token: nat, charge: nat, now: int)
    requires Env.Ok(p.env) && token in p.env.tokens
    ensures var e := Env.Exec(p.env, Env.ResumeGeneration(token, charge, now, []));
            e.judgeDepth == p.env.judgeDepth && (e.clock.depth > 0 ==> e.phase == p.env.phase)
  {
    Env.CompleteOk(p.env, token, charge, now);
    var released := Env.Complete(p.env, token, charge, now);
    assert Env.ExecAll(released, []) == released;
  }

  function Releases(n: nat, at: int): seq<Op> {
    if n == 0 then [] else Releases(n - 1, at) + [JudgeResume(0, at)]
  }

  lemma ReleasedOnce(s: Sys, at: int)
    requires Env.Ok(s.env) && s.env.tokens == {} && s.env.judgeDepth > 0
    ensures var n := Act(s, JudgeResume(0, at));
            && n.env.tokens == {} && n.env.judgeDepth == s.env.judgeDepth - 1
            && n.calls == s.calls && n.log == s.log
            && n.env.clock == Clock.AfterResume(Clock.AfterAdd(s.env.clock, 0), at)
            && (n.env.judgeDepth == 0 ==> n.env.phase == Env.Running)
  {
    var r := Env.JudgeRelease(s.env, 0, at);
    assert Env.ExecAll(r, []) == r;
    Laws.ClockAfter(s.env, Env.JudgeResume(0, at, []));
  }

  /** `r` is `t` after `n` judges let go: nothing was recorded and what a resume shows has not moved. */
  ghost predicate Released(t: Track, r: Track, n: nat, at: int) {
    && Env.Ok(r.sys.env) && n <= t.sys.env.judgeDepth
    && r.ps == t.ps && r.sys.calls == t.sys.calls && r.sys.log == t.sys.log
    && r.sys.env.tokens == {} && r.sys.env.judgeDepth == t.sys.env.judgeDepth - n
    && Clock.Valid(t.sys.env.clock) && ClockOk(r.sys.env.clock, at)
    && Thawed(r.sys.env.clock, at) == Thawed(t.sys.env.clock, at)
    && (n > 0 && r.sys.env.judgeDepth == 0 ==> r.sys.env.phase == Env.Running)
  }

  lemma ReleasedNext(t: Track, mid: Track, n: nat, at: int)
    requires Released(t, mid, n, at) && n < t.sys.env.judgeDepth
    ensures Released(t, Track(Act(mid.sys, JudgeResume(0, at)), Grow(mid.sys, mid.ps, JudgeResume(0, at))), n + 1, at)
  {
    ReleasedOnce(mid.sys, at);
    ReleaseKeepsTime(mid.sys.env.clock, at, 0, at);
  }

  lemma FitsSnoc(s: Sys, latest: int, ops: seq<Op>, op: Op)
    requires Env.Ok(s.env) && Fits(s, latest, ops)
    requires Timely(Latest(latest, ops), op) && LiveStep(Run(s, ops), op)
    requires !(Opens(Run(s, ops), op) && Torn(Run(s, ops).env.clock))
    ensures Fits(s, latest, ops + [op]) && Latest(latest, ops + [op]) == End(op)
  {
    Snoc(ops, op);
  }

  /** Ending every judge's freeze, with no call outstanding. */
  lemma {:induction false} ReleasedAll(t: Track, n: nat, at: int)
    requires Env.Ok(t.sys.env) && t.sys.env.tokens == {} && n <= t.sys.env.judgeDepth && ClockOk(t.sys.env.clock, at)
    ensures Released(t, Follow(t, Releases(n, at)), n, at)
    ensures Fits(t.sys, at, Releases(n, at)) && Latest(at, Releases(n, at)) == at
  {
    if n > 0 {
      var more, release := Releases(n - 1, at), JudgeResume(0, at);
      ReleasedAll(t, n - 1, at);
      ReleasedNext(t, Follow(t, more), n - 1, at);
      FollowSnoc(t, more, release);
      FitsSnoc(t.sys, at, more, release);
    }
  }

  /** The rest of a call that is outstanding alone: read the coordinate, return, settle for `charge`. */
  function RestOfCall(c: nat, charge: nat, now: int): seq<Op> {
    [] + [Probe(c, now)] + [Settle(c, charge, true, now, now, now)]
  }

  /** `r` is `t` with that call settled: one window more, and the open period as long as its charge. */
  ghost predicate CallDone(t: Track, r: Track, at: int, charge: nat, now: int) {
    && Env.Ok(t.sys.env) && Env.Ok(r.sys.env) && t.ps != []
    && r.sys.env.tokens == {} && r.sys.env.judgeDepth == t.sys.env.judgeDepth
    && r.sys.log == t.sys.log + [Window(now, now, charge, Some(at))]
    && r.sys.env.clock == Clock.AfterResume(Clock.AfterAdd(t.sys.env.clock, charge), now)
    && r.ps == t.ps[|t.ps| - 1 := Period(at, at + charge, |t.sys.log|, |t.sys.log| + 1)]
  }

  lemma CallSettles(t: Track, p: Sys, token: nat, at: int, charge: nat, now: int)
    requires Env.Ok(t.sys.env) && t.ps != [] && t.ps[|t.ps| - 1] == Period(at, at, |t.sys.log|, |t.sys.log|)
    requires AloneAt(p, token, at) && p.env == t.sys.env && p.log == t.sys.log
    ensures var settle := Settle(|p.calls| - 1, charge, true, now, now, now);
            CallDone(t, Track(Act(p, settle), Grow(p, t.ps, settle)), at, charge, now) && LiveStep(p, settle)
  {
    SettledAlone(p, t.ps, token, at, charge, now);
  }

  /** `mid` is `t` with the coordinate of its only call read, and nothing else changed. */
  ghost predicate CallProbed(t: Track, mid: Track, token: nat, at: int) {
    && AloneAt(mid.sys, token, at) && |mid.sys.calls| == |t.sys.calls|
    && mid.sys.env == t.sys.env && mid.sys.log == t.sys.log && mid.ps == t.ps
  }

  lemma ProbeFollows(t: Track, before: seq<Op>, token: nat, at: int, now: int)
    requires Env.Ok(t.sys.env) && AdmittedAlone(t.sys, token, at) && before == [] + [Probe(|t.sys.calls| - 1, now)]
    ensures CallProbed(t, Follow(t, before), token, at)
    ensures Fits(t.sys, now, before) && Latest(now, before) == now
  {
    var probe := Probe(|t.sys.calls| - 1, now);
    ProbedAlone(t.sys, token, at, now);
    FollowSnoc(t, [], probe);
    FitsSnoc(t.sys, now, [], probe);
  }

  lemma SettleFollows(t: Track, before: seq<Op>, settle: Op, token: nat, at: int, charge: nat, now: int)
    requires Env.Ok(t.sys.env) && t.ps != [] && t.ps[|t.ps| - 1] == Period(at, at, |t.sys.log|, |t.sys.log|)
    requires CallProbed(t, Follow(t, before), token, at)
    requires settle == Settle(|t.sys.calls| - 1, charge, true, now, now, now)
    ensures CallDone(t, Follow(t, before + [settle]), at, charge, now)
  {
    FollowSnoc(t, before, settle);
    CallSettles(t, Follow(t, before).sys, token, at, charge, now);
  }

  lemma SettleFits(t: Track, before: seq<Op>, settle: Op, token: nat, at: int, now: int)
    requires Env.Ok(t.sys.env) && CallProbed(t, Follow(t, before), token, at)
    requires Fits(t.sys, now, before) && Latest(now, before) == now
    requires settle.Settle? && settle.call == |t.sys.calls| - 1 && settle.at == now
    ensures Fits(t.sys, now, before + [settle]) && Latest(now, before + [settle]) == now
  {
    FollowRuns(t, before);
    SettleIsLive(Follow(t, before).sys, settle, token, at);
    FitsSnoc(t.sys, now, before, settle);
  }

  lemma SettleIsLive(p: Sys, settle: Op, token: nat, at: int)
    requires AloneAt(p, token, at) && settle.Settle? && settle.call == |p.calls| - 1
    ensures LiveStep(p, settle)
  {
  }

  lemma CallFollows(t: Track, script: seq<Op>, token: nat, at: int, charge: nat, now: int)
    requires Env.Ok(t.sys.env) && AdmittedAlone(t.sys, token, at)
             && script == RestOfCall(|t.sys.calls| - 1, charge, now)
    requires t.ps != [] && t.ps[|t.ps| - 1] == Period(at, at, |t.sys.log|, |t.sys.log|)
    ensures CallDone(t, Follow(t, script), at, charge, now)
    ensures Fits(t.sys, now, script) && Latest(now, script) == now
  {
    var before := [] + [Probe(|t.sys.calls| - 1, now)];
    ProbeFollows(t, before, token, at, now);
    var settle := Settle(|t.sys.calls| - 1, charge, true, now, now, now);
    SettleFollows(t, before, settle, token, at, charge, now);
    SettleFits(t, before, settle, token, at, now);
  }

  lemma AdvanceSnoc(ps: seq<Period>, p: Period)
    ensures Advance(ps + [p]) == Advance(ps) + p.hi - p.lo
  {
    Snoc(ps, p);
  }

  /** Two windows stamped alike cover the axis once, whatever was there before. */
  lemma SameStretchTwice(log: seq<Window>, u: Window, v: Window, at: int, charge: nat)
    requires u.chargedStart == Some(at) && v.chargedStart == Some(at) && u.charged == charge && v.charged == charge
    ensures |Axis((log + [u]) + [v])| <= |Axis(log)| + charge
  {
    WindowCovers(log, u, at);
    WindowCovers(log + [u], v, at);
    CellsCount(Interval(at, at + charge));
    UnionTwice(Axis(log), Cells(Interval(at, at + charge)), Axis(log + [u]), Axis((log + [u]) + [v]));
  }

  lemma UnionTwice(a: set<int>, b: set<int>, once: set<int>, twice: set<int>)
    requires once == a + b && twice == once + b
    ensures |twice| <= |a| + |b|
  {
    UnionSize(a, b);
    assert twice == a + b;
  }

  /** `r` is `t` after one more call made on its own: its window at `at`, and its charge on the advances. */
  ghost predicate OneCallOn(t: Track, r: Track, at: int, charge: nat) {
    && Env.Ok(r.sys.env) && r.sys.env.tokens == {} && r.sys.env.judgeDepth == t.sys.env.judgeDepth
    && |r.sys.log| == |t.sys.log| + 1
    && StampedFor(r.sys.log[|t.sys.log|], at, charge)
    && r.sys.log == t.sys.log + [r.sys.log[|t.sys.log|]]
    && Advance(r.ps) == Advance(t.ps) + charge
  }

  predicate StampedFor(w: Window, at: int, charge: nat) { w.chargedStart == Some(at) && w.charged == charge }

  lemma OpeningFollows(t: Track, open: Op, latest: int, before: seq<Op>)
    requires Env.Ok(t.sys.env) && Opens(t.sys, open) && Timely(latest, open) && before == [] + [open]
    ensures var a, at := Track(Act(t.sys, open), Grow(t.sys, t.ps, open)),
            Clock.TimePassed(t.sys.env.clock, open.probe);
            && Follow(t, before) == a && a.ps == t.ps + [Period(at, at, |t.sys.log|, |t.sys.log|)]
    ensures Proper(t.sys, latest, before) && Latest(latest, before) == open.second
    ensures !Torn(t.sys.env.clock) ==> Coherent(t.sys, before)
  {
    FollowSnoc(t, [], open);
    Snoc([], open);
  }

  lemma CallAdds(t: Track, a: Track, r: Track, at: int, charge: nat, now: int)
    requires CallDone(a, r, at, charge, now)
    requires a.sys.log == t.sys.log && a.sys.env.judgeDepth == t.sys.env.judgeDepth
    requires a.ps == t.ps + [Period(at, at, |t.sys.log|, |t.sys.log|)]
    ensures OneCallOn(t, r, at, charge)
  {
    AdvanceSnoc(t.ps, Period(at, at, |t.sys.log|, |t.sys.log|));
    AdvanceReplace(a.ps, Period(at, at + charge, |a.sys.log|, |a.sys.log| + 1));
  }

  /** A call started inside a freeze that outlives it: what a resume would show moves by its charge. */
  lemma CallInside(t: Track, a: Track, script: seq<Op>, open: Op, latest: int, charge: nat)
    requires Env.Ok(t.sys.env) && Opens(t.sys, open) && Timely(latest, open) && ClockOk(t.sys.env.clock, latest)
    requires t.sys.env.clock.depth > 0 && a == Track(Act(t.sys, open), Grow(t.sys, t.ps, open))
    requires script == RestOfCall(|t.sys.calls|, charge, open.second)
    ensures var b := Follow(a, script);
            && OneCallOn(t, b, Clock.TimePassed(t.sys.env.clock, open.probe), charge)
            && ClockOk(b.sys.env.clock, open.second)
            && Thawed(b.sys.env.clock, open.second) == Thawed(t.sys.env.clock, open.second) + charge
    ensures Fits(a.sys, open.second, script) && Latest(open.second, script) == open.second
  {
    var now, at := open.second, Clock.TimePassed(t.sys.env.clock, open.probe);
    OpenedBy(t.sys, open);
    CallFollows(a, script, t.sys.env.nextToken + 1, at, charge, now);
    CallAdds(t, a, Follow(a, script), at, charge, now);
    ReleaseKeepsTime(a.sys.env.clock, now, charge, now);
  }

  /** A call started on a running clock: its window begins at the time shown. */
  lemma CallOutside(t: Track, script: seq<Op>, charge: nat, now: int)
    requires Env.Ok(t.sys.env) && t.sys.env.tokens == {} && t.sys.env.phase == Env.Running
    requires script == [] + [Admit(now, now, now)]
    ensures var s := script + RestOfCall(|t.sys.calls|, charge, now);
            && OneCallOn(t, Follow(t, s), Thawed(t.sys.env.clock, now), charge)
            && Fits(t.sys, now, s)
  {
    var open, rest := Admit(now, now, now), RestOfCall(|t.sys.calls|, charge, now);
    var at := Clock.TimePassed(t.sys.env.clock, now);
    OpenedBy(t.sys, open);
    OpeningFollows(t, open, now, script);
    var a := Follow(t, script);
    CallFollows(a, rest, t.sys.env.nextToken + 1, at, charge, now);
    CallAdds(t, a, Follow(a, rest), at, charge, now);
    FollowConcat(t, script, rest);
    FollowRuns(t, script);
    FitsConcat(t.sys, now, script, rest);
  }

  /** `r` is `t` after two more windows over the same stretch: covered once, charged twice. */
  ghost predicate Doubled(t: Track, r: Track, charge: nat) {
    && Env.Ok(r.sys.env) && Advance(r.ps) == Advance(t.ps) + 2 * charge
    && |Axis(r.sys.log)| <= |Axis(t.sys.log)| + charge
  }

  lemma TwiceOver(t: Track, b: Track, e: Track, r: Track, at: int, charge: nat)
    requires OneCallOn(t, b, at, charge) && e.ps == b.ps && e.sys.log == b.sys.log && OneCallOn(e, r, at, charge)
    ensures Doubled(t, r, charge)
  {
    SameStretchTwice(t.sys.log, b.sys.log[|t.sys.log|], r.sys.log[|e.sys.log|], at, charge);
  }

  /** The first call settles for the readings' gap, and every judge lets go. */
  lemma SettledAndThawed(t: Track, a: Track, settle: seq<Op>, release: seq<Op>, open: Op, latest: int)
    requires Env.Ok(t.sys.env) && Opens(t.sys, open) && Timely(latest, open) && ClockOk(t.sys.env.clock, latest)
    requires Torn(t.sys.env.clock) && a == Track(Act(t.sys, open), Grow(t.sys, t.ps, open))
    requires settle == RestOfCall(|t.sys.calls|, Gap(t.sys.env.clock), open.second)
    requires release == Releases(t.sys.env.judgeDepth, open.second)
    ensures var at, b := Clock.TimePassed(t.sys.env.clock, open.probe), Follow(a, settle);
            var e := Follow(b, release);
            && OneCallOn(t, b, at, Gap(t.sys.env.clock)) && e.ps == b.ps && e.sys.log == b.sys.log
            && e.sys.env.tokens == {} && e.sys.env.phase == Env.Running && Thawed(e.sys.env.clock, open.second) == at
    ensures Fits(a.sys, open.second, settle) && Latest(open.second, settle) == open.second
    ensures Fits(Follow(a, settle).sys, open.second, release) && Latest(open.second, release) == open.second
  {
    CallInside(t, a, settle, open, latest, Gap(t.sys.env.clock));
    ReleasedAll(Follow(a, settle), t.sys.env.judgeDepth, open.second);
    ReadingIsThawedPlusGap(t.sys.env.clock, open.probe);
  }

  /**
   * After a busy period started inside a torn freeze: settle that call for as much as the readings were
   * apart, let every judge go, and make one more call. It is stamped exactly like the first.
   */
  lemma TornOpeningDoubles(t: Track, a: Track, open: Op, latest: int) returns (rest: seq<Op>)
    requires Env.Ok(t.sys.env) && Opens(t.sys, open) && Timely(latest, open) && ClockOk(t.sys.env.clock, latest)
    requires Torn(t.sys.env.clock) && a == Track(Act(t.sys, open), Grow(t.sys, t.ps, open))
    ensures Fits(a.sys, open.second, rest)
    ensures Gap(t.sys.env.clock) > 0 && Doubled(t, Follow(a, rest), Gap(t.sys.env.clock))
  {
    var now, gap := open.second, Gap(t.sys.env.clock);
    var settle, release := RestOfCall(|t.sys.calls|, gap, now), Releases(t.sys.env.judgeDepth, now);
    SettledAndThawed(t, a, settle, release, open, latest);
    var b, e := Follow(a, settle), Follow(Follow(a, settle), release);
    var next := [] + [Admit(now, now, now)];
    var again := next + RestOfCall(|e.sys.calls|, gap, now);
    CallOutside(e, next, gap, now);
    TwiceOver(t, b, e, Follow(e, again), Clock.TimePassed(t.sys.env.clock, open.probe), gap);
    rest := settle + release + again;
    Chained(a, settle, release, again, now);
  }

  lemma Chained(a: Track, x: seq<Op>, y: seq<Op>, z: seq<Op>, now: int)
    requires Env.Ok(a.sys.env) && Fits(a.sys, now, x) && Latest(now, x) == now
    requires Fits(Follow(a, x).sys, now, y) && Latest(now, y) == now
    requires Fits(Follow(Follow(a, x), y).sys, now, z)
    ensures Follow(a, x + y + z) == Follow(Follow(Follow(a, x), y), z)
    ensures Fits(a.sys, now, x + y + z)
  {
    FollowConcat(a, x, y);
    FollowConcat(a, x + y, z);
    FollowRuns(a, x);
    FollowRuns(a, x + y);
    FitsConcat(a.sys, now, x, y);
    LatestConcat(now, x, y);
    FitsConcat(a.sys, now, x + y, z);
  }

  ghost predicate UnionAgrees(s: Sys, ops: seq<Op>)
    requires Env.Ok(s.env)
  {
    |Axis(Run(s, ops).log)| == Advance(Periods(s, ops))
  }

  /** Every way the run can go on agrees, as long as no later busy period starts inside a torn freeze. */
  ghost predicate AlwaysAgrees(s: Sys, start: int, ops: seq<Op>)
    requires Env.Ok(s.env)
  {
    forall rest: seq<Op> :: Proper(s, start, ops + rest) && Coherent(Run(s, ops), rest) ==> UnionAgrees(s, ops + rest)
  }

  /**
   * The premise of the main result is exact. At any moment of a run a busy period may start: from then
   * on the union is the summed advances, whatever happens, if and only if the freeze in force is not torn.
   */
  lemma OpeningAgreesIff(s: Sys, start: int, ops: seq<Op>, open: Op)
    requires Env.Ok(s.env) && s.env.tokens == {} && s.calls == [] && s.log == []
    requires ClockOk(s.env.clock, start)
    requires Proper(s, start, ops) && Coherent(s, ops)
    requires Opens(Run(s, ops), open) && Timely(Latest(start, ops), open)
    ensures AlwaysAgrees(s, start, ops + [open]) <==> !Torn(Run(s, ops).env.clock)
  {
    ProperRun(s, start, ops);
    if Torn(Run(s, ops).env.clock) {
      var rest := TornOpeningDisagrees(s, start, ops, open);
      assert !UnionAgrees(s, ops + [open] + rest);
    } else {
      var begun := ops + [open];
      RunSnoc(s, ops, open);
      FitsSnoc(s, start, ops, open);
      forall rest: seq<Op> | Proper(s, start, begun + rest) && Coherent(Run(s, begun), rest)
        ensures UnionAgrees(s, begun + rest)
      {
        FitsConcat(s, start, begun, rest);
        UnionIsFrontierAdvance(s, start, begun + rest);
      }
    }
  }

  /** From any such opening some continuation has a union strictly below the summed advances. */
  lemma TornOpeningDisagrees(s: Sys, start: int, ops: seq<Op>, open: Op) returns (rest: seq<Op>)
    requires Env.Ok(s.env) && s.env.tokens == {} && s.calls == [] && s.log == []
    requires ClockOk(s.env.clock, start)
    requires Proper(s, start, ops) && Coherent(s, ops)
    requires Opens(Run(s, ops), open) && Timely(Latest(start, ops), open) && Torn(Run(s, ops).env.clock)
    ensures Proper(s, start, ops + [open] + rest) && Coherent(Run(s, ops + [open]), rest)
    ensures |Axis(Run(s, ops + [open] + rest).log)| < Advance(Periods(s, ops + [open] + rest))
  {
    ProperRun(s, start, ops);
    UnionIsFrontierAdvance(s, start, ops);
    var t, begun := Track(Run(s, ops), Periods(s, ops)), ops + [open];
    RunSnoc(s, ops, open);
    var a := Track(Run(s, begun), Periods(s, begun));
    rest := TornOpeningDoubles(t, a, open, Latest(start, ops));
    FollowIs(a, s, begun, rest);
    ProperSnoc(s, start, ops, open);
    FitsConcat(s, start, begun, rest);
  }

  lemma ProperSnoc(s: Sys, start: int, ops: seq<Op>, op: Op)
    requires Env.Ok(s.env) && Proper(s, start, ops)
    requires Timely(Latest(start, ops), op) && LiveStep(Run(s, ops), op)
    ensures Proper(s, start, ops + [op]) && Latest(start, ops + [op]) == End(op)
  {
    Snoc(ops, op);
  }
}
