/**
 * Laws of the charged environment over whole runs: nested catch-up ticks flatten, a stop is final, a
 * token is charged once, and scenario time obeys the clock law for all callers together.
 */
module EnvironmentLaws {
  import opened Options
  import opened Intervals
  import opened Environment
  import Clock

  lemma ExecSnoc(s: State, ops: seq<Op>, op: Op)
    requires Ok(s)
    ensures ExecAll(s, ops + [op]) == Exec(ExecAll(s, ops), op)
  {
    assert (ops + [op])[..|ops|] == ops;
  }

  lemma {:induction false} ExecConcat(s: State, a: seq<Op>, b: seq<Op>)
    requires Ok(s)
    ensures ExecAll(s, a + b) == ExecAll(ExecAll(s, a), b)
  {
    if b == [] {
      assert a + b == a;
    } else {
      var init, last := b[..|b| - 1], b[|b| - 1];
      assert a + b == (a + init) + [last];
      ExecSnoc(s, a + init, last);
      ExecConcat(s, a, init);
    }
  }

  // ----- re-entrancy: a catch-up tick is no more than the calls it makes, run afterwards -----

  predicate Flat(op: Op) {
    (op.JudgeResume? || op.ResumeGeneration?) ==> op.tick == []
  }

  function Bare(op: Op): (r: Op)
    ensures Flat(r)
  {
    match op
    case JudgeResume(offset, at, _) => JudgeResume(offset, at, [])
    case ResumeGeneration(token, offset, at, _) => ResumeGeneration(token, offset, at, [])
    case _ => op
  }

  /** The calls made while `op` holds the lock, in order, each without a tick of its own. */
  function Flatten(s: State, op: Op): (r: seq<Op>)
    requires Ok(s)
    ensures forall x :: x in r ==> Flat(x)
    decreases op, 0
  {
    match op
    case JudgeResume(offset, at, tick) =>
      if s.judgeDepth == 0 then [Bare(op)] else
      var released := JudgeRelease(s, offset, at);
      [Bare(op)] + if released.clock.depth > 0 then [] else FlattenAll(released, tick)
    case ResumeGeneration(token, offset, at, tick) =>
      if token !in s.tokens then [Bare(op)] else
      CompleteOk(s, token, offset, at);
      var released := Complete(s, token, offset, at);
      [Bare(op)] + if released.clock.depth > 0 then [] else FlattenAll(released, tick)
    case _ => [op]
  }

  function FlattenAll(s: State, ops: seq<Op>): (r: seq<Op>)
    requires Ok(s)
    ensures forall x :: x in r ==> Flat(x)
    decreases ops, 0
  {
    if ops == [] then []
    else
      var init := ops[..|ops| - 1];
      FlattenAll(s, init) + Flatten(ExecAll(s, init), ops[|ops| - 1])
  }

  lemma TrimOk(s: State)
    requires Ok(s)
    ensures Ok(Trim(s))
  {
  }

  lemma TrimAdmits(s: State, op: Op)
    requires Ok(s) && Ok(Trim(s)) && op.PauseGeneration?
    ensures Exec(Trim(s), op) == Trim(Exec(s, op))
  {
    if Admissible(s) {
      IssueOk(s, op.probe, op.first, op.second);
    }
  }

  lemma TrimReleases(s: State, op: Op)
    requires Ok(s) && Ok(Trim(s)) && op.JudgeResume? && op.tick == []
    ensures Exec(Trim(s), op) == Trim(Exec(s, op))
  {
    if s.judgeDepth > 0 {
      var r := JudgeRelease(s, op.offset, op.at);
      assert ExecAll(r, []) == r && ExecAll(Trim(r), []) == Trim(r);
    }
  }

  /** A frontier left over from a finished busy period is never read. */
  lemma TrimIsInvisible(s: State, op: Op)
    requires Ok(s) && Flat(op)
    ensures Ok(Trim(s)) && Exec(Trim(s), op) == Trim(Exec(s, op))
  {
    TrimOk(s);
    match op
    case PauseGeneration(_, _, _) => TrimAdmits(s, op);
    case JudgeResume(_, _, _) => TrimReleases(s, op);
    case _ =>
  }

  lemma ExecCons(s: State, op: Op, rest: seq<Op>)
    requires Ok(s)
    ensures ExecAll(s, [op] + rest) == ExecAll(Exec(s, op), rest)
  {
    ExecConcat(s, [op], rest);
    ExecSnoc(s, [], op);
    assert [] + [op] == [op] && ExecAll(s, []) == s;
  }

  /** A judge resume without its tick is the release alone. */
  lemma BareJudge(s: State, op: Op)
    requires Ok(s) && op.JudgeResume? && s.judgeDepth > 0
    ensures Exec(s, Bare(op)) == JudgeRelease(s, op.offset, op.at)
  {
    var r := JudgeRelease(s, op.offset, op.at);
    assert ExecAll(r, []) == r;
  }

  /** A completion without its tick is the release alone. */
  lemma BareCompletion(s: State, op: Op)
    requires Ok(s) && op.ResumeGeneration? && op.token in s.tokens
    ensures Ok(Complete(s, op.token, op.offset, op.at))
    ensures Exec(s, Bare(op)) == Trim(Complete(s, op.token, op.offset, op.at))
  {
    CompleteOk(s, op.token, op.offset, op.at);
    var r := Complete(s, op.token, op.offset, op.at);
    assert ExecAll(r, []) == r;
  }

  lemma {:induction false} TickFlattensOne(s: State, op: Op)
    requires Ok(s)
    ensures Ok(Trim(s)) && ExecAll(Trim(s), Flatten(s, op)) == Trim(Exec(s, op))
    decreases op, 0
  {
    TrimIsInvisible(s, Bare(op));
    ExecCons(Trim(s), Bare(op), []);
    assert [Bare(op)] + [] == [Bare(op)];
    match op
    case JudgeResume(offset, at, tick) =>
      if s.judgeDepth > 0 {
        BareJudge(s, op);
        var released := JudgeRelease(s, offset, at);
        if released.clock.depth == 0 {
          TickFlattens(released, tick);
          ExecCons(Trim(s), Bare(op), FlattenAll(released, tick));
        }
      }
    case ResumeGeneration(token, offset, at, tick) =>
      if token in s.tokens {
        BareCompletion(s, op);
        var released := Complete(s, token, offset, at);
        if released.clock.depth == 0 {
          TickFlattens(released, tick);
          ExecCons(Trim(s), Bare(op), FlattenAll(released, tick));
        }
      }
    case _ =>
      assert Bare(op) == op;
  }

  /**
   * Whatever a catch-up tick re-enters, and however deeply, the outcome is that of the same calls
   * made one after the other; only the meaningless leftover frontier can differ in between.
   */
  lemma {:induction false} TickFlattens(s: State, ops: seq<Op>)
    requires Ok(s)
    ensures Ok(Trim(s)) && ExecAll(Trim(s), FlattenAll(s, ops)) == Trim(ExecAll(s, ops))
    decreases ops, 0
  {
    TrimOk(s);
    if ops != [] {
      var init, last := ops[..|ops| - 1], ops[|ops| - 1];
      var mid := ExecAll(s, init);
      TickFlattens(s, init);
      TickFlattensOne(mid, last);
      ExecConcat(Trim(s), FlattenAll(s, init), Flatten(mid, last));
    }
  }

  // ----- admission -------------------------------------------------------------------------

  lemma OneMoreToken(tokens: set<nat>, token: nat)
    requires token !in tokens
    ensures |tokens + {token}| == |tokens| + 1
  {
  }

  /**
   * A model call is admitted whatever else holds the clock: running or already frozen by judges and other
   * calls, the world takes one more token and one more freeze. In any other phase nothing happens.
   */
  lemma GenerationAdmitted(s: State, probe: int, first: int, second: int)
    requires Ok(s)
    ensures s.phase == Running || s.phase == Paused ==>
              var r := Exec(s, PauseGeneration(probe, first, second));
              && r.tokens == s.tokens + {s.nextToken + 1} && |r.tokens| == |s.tokens| + 1
              && r.nextToken == s.nextToken + 1 && r.judgeDepth == s.judgeDepth
              && r.clock.depth == s.clock.depth + 1 && r.phase == Paused && r.pauseEvent
    ensures s.phase != Running && s.phase != Paused ==> Exec(s, PauseGeneration(probe, first, second)) == s
  {
    OneMoreToken(s.tokens, s.nextToken + 1);
  }

  /** The same for a judge, who takes a freeze and no token. */
  lemma JudgeAdmitted(s: State, first: int, second: int)
    requires Ok(s)
    ensures var r := Exec(s, JudgePause(first, second));
            if s.phase == Running || s.phase == Paused then
              && r.judgeDepth == s.judgeDepth + 1 && r.clock.depth == s.clock.depth + 1
              && r.tokens == s.tokens && r.starts == s.starts && r.frontier == s.frontier
              && r.nextToken == s.nextToken && r.phase == Paused && r.pauseEvent
            else r == s
  {
  }

  /** Calls are outstanding together: from any admitting state a run reaches any number more of them. */
  lemma {:induction false} AnyNumberTogether(s: State, n: nat, at: int) returns (ops: seq<Op>)
    requires Ok(s) && (s.phase == Running || s.phase == Paused)
    ensures forall op :: op in ops ==> op == PauseGeneration(at, at, at)
    ensures var r := ExecAll(s, ops);
            && s.tokens <= r.tokens && |r.tokens| == |s.tokens| + n
            && r.clock.depth == s.clock.depth + n && r.nextToken == s.nextToken + n
            && (n > 0 ==> r.phase == Paused) && (n == 0 ==> r == s)
  {
    if n == 0 {
      ops := [];
    } else {
      var init := AnyNumberTogether(s, n - 1, at);
      ops := init + [PauseGeneration(at, at, at)];
      ExecSnoc(s, init, PauseGeneration(at, at, at));
      GenerationAdmitted(ExecAll(s, init), at, at, at);
    }
  }

  // ----- stop ------------------------------------------------------------------------------

  ghost predicate Halted(s: State) {
    Ok(s) && !Admissible(s) && s.clock.depth == 0
  }

  /** Whether some stop in `ops`, at any nesting depth, names a state that admits pauses again. */
  predicate Revives(ops: seq<Op>)
    decreases ops, 0
  {
    ops != [] && (RevivesOne(ops[|ops| - 1]) || Revives(ops[..|ops| - 1]))
  }

  predicate RevivesOne(op: Op)
    decreases op, 0
  {
    match op
    case Stop(final, _) => final == Running || final == Paused
    case JudgeResume(_, _, tick) => Revives(tick)
    case ResumeGeneration(_, _, _, tick) => Revives(tick)
    case _ => false
  }

  lemma StopDrains(s: State, final: Phase, at: int)
    requires Ok(s)
    ensures var r := Exec(s, Stop(final, at));
            r.clock.depth == 0 && r.tokens == {} && r.judgeDepth == 0 && !r.pauseEvent && r.phase == final
    ensures Halted(Exec(s, Stop(final, at))) <==> final != Running && final != Paused
  {
  }

  /** After a stop nothing freezes the world again and no token is ever issued. */
  lemma {:induction false} StopIsFinal(s: State, ops: seq<Op>)
    requires Halted(s) && !Revives(ops)
    ensures Halted(ExecAll(s, ops)) && ExecAll(s, ops).nextToken == s.nextToken
  {
    if ops != [] {
      StopIsFinal(s, ops[..|ops| - 1]);
      var mid := ExecAll(s, ops[..|ops| - 1]);
      assert mid.judgeDepth == 0 && mid.tokens == {};
    }
  }

  // ----- tokens ----------------------------------------------------------------------------

  ghost predicate Spent(s: State, token: nat) {
    token !in s.tokens && token <= s.nextToken
  }

  /** Once a token has been settled or drained it is never outstanding again, in any nesting. */
  lemma {:induction false} SpentForever(s: State, token: nat, ops: seq<Op>)
    requires Ok(s) && Spent(s, token)
    ensures Spent(ExecAll(s, ops), token)
    decreases ops, 0
  {
    if ops != [] {
      SpentForever(s, token, ops[..|ops| - 1]);
      SpentForeverOne(ExecAll(s, ops[..|ops| - 1]), token, ops[|ops| - 1]);
    }
  }

  lemma ReleaseSpends(s: State, token: nat, offset: int, at: int)
    requires Ok(s) && Spent(s, token)
    ensures s.judgeDepth > 0 ==> Spent(JudgeRelease(s, offset, at), token)
    ensures forall t :: t in s.tokens ==> Spent(Complete(s, t, offset, at), token)
  {
  }

  lemma SpentAfterJudge(s: State, token: nat, op: Op)
    requires Ok(s) && op.JudgeResume? && s.judgeDepth > 0
    requires var released := JudgeRelease(s, op.offset, op.at);
             Spent(released, token) && Spent(ExecAll(released, op.tick), token)
    ensures Spent(Exec(s, op), token)
  {
  }

  lemma SpentAfterCompletion(s: State, token: nat, op: Op)
    requires Ok(s) && op.ResumeGeneration? && op.token in s.tokens
    requires Ok(Complete(s, op.token, op.offset, op.at))
    requires var released := Complete(s, op.token, op.offset, op.at);
             Spent(released, token) && Spent(ExecAll(released, op.tick), token)
    ensures Spent(Exec(s, op), token)
  {
  }

  lemma {:induction false} SpentForeverOne(s: State, token: nat, op: Op)
    requires Ok(s) && Spent(s, token)
    ensures Spent(Exec(s, op), token)
    decreases op, 0
  {
    match op
    case JudgeResume(offset, at, tick) =>
      if s.judgeDepth > 0 {
        ReleaseSpends(s, token, offset, at);
        SpentForever(JudgeRelease(s, offset, at), token, tick);
        SpentAfterJudge(s, token, op);
      }
    case ResumeGeneration(t, offset, at, tick) =>
      if t in s.tokens {
        CompleteOk(s, t, offset, at);
        ReleaseSpends(s, token, offset, at);
        SpentForever(Complete(s, t, offset, at), token, tick);
        SpentAfterCompletion(s, token, op);
      }
    case _ =>
  }

  /** Tokens are numbered upwards: what was issued stays below the counter, in any nesting. */
  lemma {:induction false} TokensGrow(s: State, ops: seq<Op>)
    requires Ok(s)
    ensures ExecAll(s, ops).nextToken >= s.nextToken
    decreases ops, 0
  {
    if ops != [] {
      TokensGrow(s, ops[..|ops| - 1]);
      TokensGrowOne(ExecAll(s, ops[..|ops| - 1]), ops[|ops| - 1]);
    }
  }

  lemma {:induction false} TokensGrowOne(s: State, op: Op)
    requires Ok(s)
    ensures Exec(s, op).nextToken >= s.nextToken
    decreases op, 0
  {
    match op
    case JudgeResume(offset, at, tick) =>
      if s.judgeDepth > 0 {
        TokensGrow(JudgeRelease(s, offset, at), tick);
      }
    case ResumeGeneration(t, offset, at, tick) =>
      if t in s.tokens {
        CompleteOk(s, t, offset, at);
        TokensGrow(Complete(s, t, offset, at), tick);
      }
    case _ =>
  }

  /** Completing a token that was ever issued leaves it spent, whether or not a stop drained it first. */
  lemma CompletionSpends(s: State, token: nat, offset: int, at: int, tick: seq<Op>)
    requires Ok(s) && token <= s.nextToken
    ensures Spent(Exec(s, ResumeGeneration(token, offset, at, tick)), token)
  {
    if token in s.tokens {
      CompleteOk(s, token, offset, at);
      var released := Complete(s, token, offset, at);
      if released.clock.depth == 0 {
        SpentForever(released, token, tick);
      }
    }
  }

  /** A token charges the clock at most once: a second completion, however late, changes nothing. */
  lemma ChargedOnce(s: State, token: nat, offset: int, at: int, tick: seq<Op>, between: seq<Op>, again: Op)
    requires Ok(s) && token in s.tokens
    requires again.ResumeGeneration? && again.token == token
    ensures var later := ExecAll(Exec(s, ResumeGeneration(token, offset, at, tick)), between);
            Exec(later, again) == later
  {
    CompleteOk(s, token, offset, at);
    var released := Complete(s, token, offset, at);
    if released.clock.depth == 0 {
      SpentForever(released, token, tick);
    }
    SpentForever(Exec(s, ResumeGeneration(token, offset, at, tick)), token, between);
  }

  // ----- the environment's clock is the clock of its projection ------------------------------

  function Resumes(n: nat, at: int): seq<Clock.Op> {
    if n == 0 then [] else [Clock.Resume(at)] + Resumes(n - 1, at)
  }

  /** The clock operations one tick-free step performs. */
  function ClockOps(s: State, op: Op): seq<Clock.Op> {
    match op
    case JudgePause(first, second) => if Admissible(s) then [Clock.Pause(first, second)] else []
    case JudgeResume(offset, at, _) => if s.judgeDepth == 0 then [] else [Clock.Add(offset), Clock.Resume(at)]
    case PauseGeneration(_, first, second) => if Admissible(s) then [Clock.Pause(first, second)] else []
    case ResumeGeneration(token, offset, at, _) =>
      if token !in s.tokens then [] else [Clock.Add(offset), Clock.Resume(at)]
    case AddOffset(value) => [Clock.Add(value)]
    case Stop(_, at) => Resumes(s.clock.depth, at)
  }

  lemma {:induction false} DrainIsResumes(c: Clock.State, at: int)
    requires Clock.Valid(c)
    ensures Clock.Run(c, Resumes(c.depth, at)) == Drain(c, at)
    decreases c.depth
  {
    if c.depth > 0 {
      Clock.RunShort(c, Clock.Resume(at), Clock.Resume(at));
      DrainIsResumes(Clock.AfterResume(c, at), at);
      Clock.RunConcat(c, [Clock.Resume(at)], Resumes(c.depth - 1, at));
    }
  }

  function ClockStep(s: State, op: Op): Clock.State
    requires Ok(s)
  {
    match op
    case JudgePause(first, second) => if Admissible(s) then Clock.AfterPause(s.clock, first, second) else s.clock
    case JudgeResume(offset, at, _) =>
      if s.judgeDepth == 0 then s.clock else Clock.AfterResume(Clock.AfterAdd(s.clock, offset), at)
    case PauseGeneration(_, first, second) =>
      if Admissible(s) then Clock.AfterPause(s.clock, first, second) else s.clock
    case ResumeGeneration(token, offset, at, _) =>
      if token !in s.tokens then s.clock else Clock.AfterResume(Clock.AfterAdd(s.clock, offset), at)
    case AddOffset(value) => Clock.AfterAdd(s.clock, value)
    case Stop(_, at) => Drain(s.clock, at)
  }

  /** What one tick-free step does to the clock. */
  lemma ClockAfter(s: State, op: Op)
    requires Ok(s) && Flat(op)
    ensures Exec(s, op).clock == ClockStep(s, op)
  {
  }

  lemma StepProjects(s: State, op: Op)
    requires Ok(s)
    ensures Clock.Run(s.clock, ClockOps(s, op)) == ClockStep(s, op)
  {
    match op
    case JudgePause(first, second) => Clock.RunShort(s.clock, Clock.Pause(first, second), Clock.Resume(0));
    case PauseGeneration(_, first, second) => Clock.RunShort(s.clock, Clock.Pause(first, second), Clock.Resume(0));
    case AddOffset(value) => Clock.RunShort(s.clock, Clock.Add(value), Clock.Resume(0));
    case Stop(_, at) => DrainIsResumes(s.clock, at);
    case JudgeResume(offset, at, _) => Clock.RunShort(s.clock, Clock.Add(offset), Clock.Resume(at));
    case ResumeGeneration(_, offset, at, _) => Clock.RunShort(s.clock, Clock.Add(offset), Clock.Resume(at));
  }

  function Projection(s: State, ops: seq<Op>): seq<Clock.Op>
    requires Ok(s)
  {
    if ops == [] then []
    else
      var init := ops[..|ops| - 1];
      Projection(s, init) + ClockOps(ExecAll(s, init), ops[|ops| - 1])
  }

  lemma {:induction false} FlatProjects(s: State, ops: seq<Op>)
    requires Ok(s) && forall op :: op in ops ==> Flat(op)
    ensures ExecAll(s, ops).clock == Clock.Run(s.clock, Projection(s, ops))
  {
    if ops != [] {
      var init, last := ops[..|ops| - 1], ops[|ops| - 1];
      FlatProjects(s, init);
      var mid := ExecAll(s, init);
      ClockAfter(mid, last);
      StepProjects(mid, last);
      Clock.RunConcat(s.clock, Projection(s, init), ClockOps(mid, last));
    }
  }

  /** The clock operations a whole run performs, those its catch-up ticks re-enter included, in order. */
  function ClockTrace(s: State, ops: seq<Op>): seq<Clock.Op>
    requires Ok(s)
  {
    TrimOk(s);
    Projection(Trim(s), FlattenAll(s, ops))
  }

  /** Every law of the clock therefore holds of the environment's scenario time, however calls nest. */
  lemma ClockProjects(s: State, ops: seq<Op>)
    requires Ok(s)
    ensures ExecAll(s, ops).clock == Clock.Run(s.clock, ClockTrace(s, ops))
  {
    TickFlattens(s, ops);
    FlatProjects(Trim(s), FlattenAll(s, ops));
  }

  /** Scenario time is unfrozen wall time plus the charges of all steps, whoever made them. */
  lemma ScenarioTime(s: State, start: int, ops: seq<Op>, now: int)
    requires Ok(s) && s.clock == Clock.Fresh(start)
    requires Clock.WellTimed(start, ClockTrace(s, ops))
    ensures var trace := ClockTrace(s, ops);
            Clock.TimePassed(ExecAll(s, ops).clock, now)
            == Clock.Unfrozen(start, trace, now) + Clock.Charges(trace) + Clock.Tear(start, trace)
  {
    ClockProjects(s, ops);
    Clock.ClockLaw(start, ClockTrace(s, ops), now);
  }
}
