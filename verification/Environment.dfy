/**
 * The charged environment: judge pauses and tokenized generation pauses over one clock. Each locked
 * method is one step. A resume that restarts the world runs a catch-up tick before it returns, and
 * whatever that tick delivers may call back into the environment; `tick` is that sequence of calls.
 */
module Environment {
  import opened Options
  import opened Intervals
  import Clock

  datatype Phase = Setup | Running | Paused | Stopped | Failed

  datatype State = State(
    clock: Clock.State,
    phase: Phase,
    pauseEvent: bool,
    judgeDepth: nat,
    tokens: set<nat>,
    starts: map<nat, int>,
    frontier: Option<int>,
    nextToken: nat)

  datatype Op =
    | JudgePause(first: int, second: int)
    | JudgeResume(offset: int, at: int, tick: seq<Op>)
    | PauseGeneration(probe: int, first: int, second: int)
    | ResumeGeneration(token: nat, offset: int, at: int, tick: seq<Op>)
    | AddOffset(value: int)
    | Stop(final: Phase, at: int)

  // ----- the steps as functions of the state -----------------------------------------------

  predicate Admissible(s: State) {
    s.phase == Running || s.phase == Paused
  }

  /** What holds of every state, including the ones a catch-up tick sees halfway through a resume. */
  ghost predicate Ok(s: State) {
    && Clock.Valid(s.clock)
    && s.clock.depth == s.judgeDepth + |s.tokens|
    && (s.pauseEvent <==> s.clock.depth > 0)
    && (s.clock.depth > 0 ==> s.phase == Paused)
    && s.starts.Keys == s.tokens
    && (s.tokens != {} ==> s.frontier.Some?)
    && (forall t :: t in s.tokens ==> 1 <= t <= s.nextToken)
  }

  function PauseOnce(s: State, first: int, second: int): State {
    s.(pauseEvent := true, clock := Clock.AfterPause(s.clock, first, second), phase := Paused)
  }

  function ReleaseOnce(s: State, offset: int, at: int): State
    requires Clock.Valid(s.clock)
  {
    var clock := Clock.AfterResume(Clock.AfterAdd(s.clock, offset), at);
    if clock.depth > 0 then s.(clock := clock) else s.(clock := clock, pauseEvent := false, phase := Running)
  }

  function Drain(c: Clock.State, at: int): (r: Clock.State)
    requires Clock.Valid(c)
    ensures Clock.Valid(r) && r.depth == 0
    decreases c.depth
  {
    if c.depth == 0 then c else Drain(Clock.AfterResume(c, at), at)
  }

  function Frontier(s: State, probe: int): int
    requires s.tokens != {} ==> s.frontier.Some?
  {
    if s.tokens == {} then Clock.TimePassed(s.clock, probe) else s.frontier.value
  }

  /** The frontier is only meaningful while a generation is outstanding. */
  function Trim(s: State): State {
    if s.tokens == {} then s.(frontier := None) else s
  }

  /** A new token, stamped with the frontier; the first token of a busy period starts the frontier. */
  function Issue(s: State, probe: int): State
    requires s.tokens != {} ==> s.frontier.Some?
  {
    var frontier, token := Frontier(s, probe), s.nextToken + 1;
    s.(frontier := Some(frontier), nextToken := token, tokens := s.tokens + {token},
       starts := s.starts[token := frontier])
  }

  /** A token handed back: the frontier moves to the end of its charge if that lies beyond it. */
  function Redeem(s: State, token: nat, offset: int): State
    requires Ok(s) && token in s.tokens
  {
    var frontier := Max(s.frontier.value, s.starts[token] + Clamp(offset));
    s.(tokens := s.tokens - {token}, starts := s.starts - {token}, frontier := Some(frontier))
  }

  /** One completion, up to the moment the world restarts. */
  function Complete(s: State, token: nat, offset: int, at: int): State
    requires Ok(s) && token in s.tokens
  {
    ReleaseOnce(Redeem(s, token, offset), offset, at)
  }

  function JudgeRelease(s: State, offset: int, at: int): State
    requires Ok(s) && s.judgeDepth > 0
  {
    ReleaseOnce(s.(judgeDepth := s.judgeDepth - 1), offset, at)
  }

  lemma IssueOk(s: State, probe: int, first: int, second: int)
    requires Ok(s) && Admissible(s)
    ensures Ok(PauseOnce(Issue(s, probe), first, second))
    ensures Issue(Trim(s), probe) == Issue(s, probe)
  {
    assert s.nextToken + 1 !in s.tokens;
  }

  lemma CompleteOk(s: State, token: nat, offset: int, at: int)
    requires Ok(s) && token in s.tokens
    ensures Ok(Complete(s, token, offset, at))
  {
    assert |s.tokens - {token}| == |s.tokens| - 1;
  }

  function Exec(s: State, op: Op): (r: State)
    requires Ok(s)
    ensures Ok(r)
    decreases op, 0
  {
    match op
    case JudgePause(first, second) =>
      if !Admissible(s) then s else PauseOnce(s.(judgeDepth := s.judgeDepth + 1), first, second)
    case JudgeResume(offset, at, tick) =>
      if s.judgeDepth == 0 then s else
      var released := JudgeRelease(s, offset, at);
      if released.clock.depth > 0 then released else ExecAll(released, tick)
    case PauseGeneration(probe, first, second) =>
      if !Admissible(s) then s else
      IssueOk(s, probe, first, second);
      PauseOnce(Issue(s, probe), first, second)
    case ResumeGeneration(token, offset, at, tick) =>
      if token !in s.tokens then s else
      CompleteOk(s, token, offset, at);
      var released := Complete(s, token, offset, at);
      Trim(if released.clock.depth > 0 then released else ExecAll(released, tick))
    case AddOffset(value) => s.(clock := Clock.AfterAdd(s.clock, value))
    case Stop(final, at) =>
      State(Drain(s.clock, at), final, false, 0, {}, map[], None, s.nextToken)
  }

  function ExecAll(s: State, ops: seq<Op>): (r: State)
    requires Ok(s)
    ensures Ok(r)
    decreases ops, 0
  {
    if ops == [] then s else Exec(ExecAll(s, ops[..|ops| - 1]), ops[|ops| - 1])
  }

  // ----- the environment object ------------------------------------------------------------

  class ChargedEnvironment {
    const timeManager: Clock.ChargedTimeManager
    var state: Phase
    var pauseEvent: bool
    var judgePauseDepth: nat
    var generationTokens: set<nat>
    var chargeStarts: map<nat, int>
    var parallelFrontier: Option<int>
    var nextGenerationToken: nat

    ghost function View(): State
      reads this, timeManager
    {
      State(timeManager.View(), state, pauseEvent, judgePauseDepth, generationTokens,
            chargeStarts, parallelFrontier, nextGenerationToken)
    }

    ghost predicate Good()
      reads this, timeManager
    {
      Ok(View()) && timeManager.Ok()
    }

    constructor (now: int)
      ensures Good() && fresh(timeManager)
      ensures View() == State(Clock.Fresh(now), Setup, false, 0, {}, map[], None, 0)
    {
      timeManager := new Clock.ChargedTimeManager(now);
      state, pauseEvent, judgePauseDepth := Setup, false, 0;
      generationTokens, chargeStarts, parallelFrontier, nextGenerationToken := {}, map[], None, 0;
    }

    /** The base class starts the world; only then are pauses admitted. */
    method Start()
      requires Good() && state == Setup
      modifies this`state
      ensures Good() && View() == old(View()).(phase := Running) && Admissible(View())
    {
      state := Running;
    }

    method DoPauseOnce(first: int, second: int)
      requires timeManager.Ok()
      modifies this, timeManager
      ensures timeManager.Ok() && View() == PauseOnce(old(View()), first, second)
    {
      pauseEvent := true;
      timeManager.Pause(first, second);
      state := Paused;
    }

    /** Applies a charge and one resume; `restarted` says whether the world runs again. */
    method DoReleaseOnce(offset: int, at: int) returns (restarted: bool)
      requires timeManager.Ok()
      modifies this, timeManager
      ensures timeManager.Ok() && View() == ReleaseOnce(old(View()), offset, at)
      ensures restarted <==> View().clock.depth == 0
    {
      timeManager.AddOffset(Max(0, offset));
      timeManager.Resume(at);
      if timeManager.pauseDepth > 0 {
        return false;
      }
      pauseEvent := false;
      state := Running;
      return true;
    }

    method CatchUpTick(calls: seq<Op>)
      requires Good()
      modifies this, timeManager
      ensures Good() && View() == ExecAll(old(View()), calls)
      decreases calls, 0
    {
      for i := 0 to |calls|
        invariant Good() && View() == ExecAll(old(View()), calls[..i])
      {
        CallPrefix(calls, i);
        Do(calls[i]);
      }
      CallPrefix(calls, |calls|);
    }

    method Do(op: Op)
      requires Good()
      modifies this, timeManager
      ensures Good() && View() == Exec(old(View()), op)
      decreases op, 0
    {
      match op
      case JudgePause(first, second) => Pause(first, second);
      case JudgeResume(offset, at, tick) => ResumeWithOffset(offset, at, tick);
      case PauseGeneration(probe, first, second) => var _ := StartGeneration(probe, first, second);
      case ResumeGeneration(token, offset, at, tick) => FinishGeneration(token, offset, at, tick);
      case AddOffset(value) => timeManager.AddOffset(value);
      case Stop(final, at) => Halt(final, at);
    }

    method Pause(first: int, second: int)
      requires Good()
      modifies this, timeManager
      ensures Good() && View() == Exec(old(View()), JudgePause(first, second))
    {
      if state != Running && state != Paused {
        return;
      }
      judgePauseDepth := judgePauseDepth + 1;
      DoPauseOnce(first, second);
    }

    method ResumeWithOffset(offset: int, at: int, tick: seq<Op>)
      requires Good()
      modifies this, timeManager
      ensures Good() && View() == Exec(old(View()), JudgeResume(offset, at, tick))
      decreases tick, 1
    {
      if judgePauseDepth == 0 {
        return;
      }
      judgePauseDepth := judgePauseDepth - 1;
      var restarted := DoReleaseOnce(offset, at);
      if restarted {
        CatchUpTick(tick);
      }
    }

    method IssueToken(probe: int) returns (token: nat)
      requires Good()
      modifies this
      ensures View() == Issue(old(View()), probe) && token == View().nextToken
    {
      if generationTokens == {} {
        var now := timeManager.Reading(probe);
        parallelFrontier := Some(now);
      }
      nextGenerationToken := nextGenerationToken + 1;
      token := nextGenerationToken;
      generationTokens := generationTokens + {token};
      chargeStarts := chargeStarts[token := parallelFrontier.value];
    }

    /** The token is zero exactly when the environment no longer admits pauses. */
    method StartGeneration(probe: int, first: int, second: int) returns (token: nat)
      requires Good()
      modifies this, timeManager
      ensures Good() && View() == Exec(old(View()), PauseGeneration(probe, first, second))
      ensures token == if old(state) == Running || old(state) == Paused then old(nextGenerationToken) + 1 else 0
    {
      if state != Running && state != Paused {
        return 0;
      }
      IssueOk(View(), probe, first, second);
      token := IssueToken(probe);
      DoPauseOnce(first, second);
    }

    method FinishGeneration(token: nat, offset: int, at: int, tick: seq<Op>)
      requires Good()
      modifies this, timeManager
      ensures Good() && View() == Exec(old(View()), ResumeGeneration(token, offset, at, tick))
      decreases tick, 1
    {
      if token !in generationTokens {
        return;
      }
      CompleteOk(View(), token, offset, at);
      generationTokens := generationTokens - {token};
      var value := Max(0, offset);
      var chargedStart := chargeStarts[token];
      chargeStarts := chargeStarts - {token};
      parallelFrontier := Some(Max(parallelFrontier.value, chargedStart + value));
      assert View() == Redeem(old(View()), token, offset);
      var restarted := DoReleaseOnce(value, at);
      assert View() == Complete(old(View()), token, offset, at);
      if restarted {
        CatchUpTick(tick);
      }
      if generationTokens == {} {
        parallelFrontier := None;
      }
    }

    /** One crossing's start on the parallel axis; a token no longer outstanding reads the clock. */
    method GenerationChargeTime(token: nat, now: int) returns (t: int)
      requires Good()
      ensures t == ChargeTime(View(), token, now)
    {
      if token in chargeStarts {
        return chargeStarts[token];
      }
      t := timeManager.Reading(now);
    }

    method Halt(final: Phase, at: int)
      requires Good()
      modifies this, timeManager
      ensures Good() && View() == Exec(old(View()), Stop(final, at))
    {
      judgePauseDepth := 0;
      generationTokens := {};
      chargeStarts := map[];
      parallelFrontier := None;
      while timeManager.pauseDepth > 0
        invariant timeManager.Ok()
        invariant Drain(timeManager.View(), at) == Drain(old(View()).clock, at)
        invariant View().(clock := old(View()).clock, pauseEvent := false, phase := final)
                  == State(old(View()).clock, final, false, 0, {}, map[], None, old(View()).nextToken)
        decreases timeManager.pauseDepth
      {
        timeManager.Resume(at);
      }
      pauseEvent := false;
      state := final;
    }
  }

  function ChargeTime(s: State, token: nat, now: int): int {
    if token in s.starts then s.starts[token] else Clock.TimePassed(s.clock, now)
  }

  lemma CallPrefix(calls: seq<Op>, i: nat)
    requires i <= |calls|
    ensures i < |calls| ==> calls[..i + 1][..i] == calls[..i] && calls[..i + 1][i] == calls[i]
    ensures i == |calls| ==> calls[..i] == calls
  {
  }
}
