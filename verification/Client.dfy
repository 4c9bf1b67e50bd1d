/**
 * One physical model call of the clocked client. It freezes the world for a token, reads its
 * coordinate, waits for the model while everyone else goes on, and hands the token back. Begin, probe,
 * model and recorder may each raise; whichever does, the token is handed back.
 */
module Client {
  import opened Options
  import opened Sequences
  import opened Intervals
  import Env = Environment
  import Laws = EnvironmentLaws
  import Calls

  /** What everyone else does in between: calls into the environment, windows of other calls. */
  datatype Others = Others(calls: seq<Env.Op>, windows: seq<Window>)

  /**
   * What one call meets: the wall times it reads, which of its collaborators raise, what others do
   * before its probe, during the wait and after it, its price, and what its catch-up tick delivers.
   */
  datatype Crossing = Crossing(
    beginRaises: bool,
    probe: int,
    first: int,
    second: int,
    before: Others,
    probeRaises: bool,
    probeAt: int,
    during: Others,
    modelRaises: bool,
    after: Others,
    startedAt: int,
    finishedAt: int,
    price: int,
    recorderRaises: bool,
    at: int,
    tick: seq<Env.Op>)

  datatype Exit = Answered | NotBegun | ProbeRaised | ModelRaised | RecorderRaised

  // ----- what a call amounts to ------------------------------------------------------------

  function TokenOf(s: Env.State): nat {
    if s.phase == Env.Running || s.phase == Env.Paused then s.nextToken + 1 else 0
  }

  /** Only an admitted call probes. */
  predicate ProbeFails(s: Env.State, x: Crossing) {
    TokenOf(s) != 0 && x.probeRaises
  }

  function Charged(x: Crossing): int {
    if x.recorderRaises then 0 else x.price
  }

  function Admitted(s: Env.State, x: Crossing): (r: Env.State)
    requires Env.Ok(s)
    ensures Env.Ok(r)
  {
    Env.Exec(s, Env.PauseGeneration(x.probe, x.first, x.second))
  }

  /** The environment when the probe is due. */
  function Probed(s: Env.State, x: Crossing): (r: Env.State)
    requires Env.Ok(s)
    ensures Env.Ok(r)
  {
    Env.ExecAll(Admitted(s, x), x.before.calls)
  }

  /** The environment when the token is about to be handed back. */
  function Awaited(s: Env.State, x: Crossing): (r: Env.State)
    requires Env.Ok(s)
    ensures Env.Ok(r)
  {
    Env.ExecAll(if ProbeFails(s, x) then Probed(s, x) else Env.ExecAll(Probed(s, x), x.during.calls), x.after.calls)
  }

  function Left(s: Env.State, x: Crossing): (r: Env.State)
    requires Env.Ok(s)
    ensures Env.Ok(r)
  {
    Env.Exec(Awaited(s, x), Env.ResumeGeneration(TokenOf(s), Charged(x), x.at, x.tick))
  }

  function Coordinate(s: Env.State, x: Crossing): Option<int>
    requires Env.Ok(s)
  {
    if TokenOf(s) == 0 || x.probeRaises then None
    else Some(Env.ChargeTime(Probed(s, x), TokenOf(s), x.probeAt))
  }

  /** What others record while the call is under way; a failed probe leaves out the wait. */
  function Meanwhile(failed: bool, x: Crossing): seq<Window> {
    x.before.windows + (if failed then [] else x.during.windows) + x.after.windows
  }

  /** The call's own window; a recorder that raises has recorded none. */
  function Recorded(x: Crossing, coordinate: Option<int>): seq<Window> {
    if x.recorderRaises then []
    else [Window(x.startedAt, Max(x.startedAt, x.finishedAt), x.price, coordinate)]
  }

  lemma Appended(log: seq<Window>, x: Crossing, failed: bool, own: seq<Window>,
                 a: seq<Window>, b: seq<Window>, c: seq<Window>)
    requires a == log + x.before.windows
    requires b == if failed then a else a + x.during.windows
    requires c == b + x.after.windows
    ensures c + own == log + Meanwhile(failed, x) + own
  {
  }

  lemma AwaitedKnowsToken(s: Env.State, x: Crossing)
    requires Env.Ok(s)
    ensures TokenOf(s) <= Awaited(s, x).nextToken
  {
    if Env.Admissible(s) {
      Env.IssueOk(s, x.probe, x.first, x.second);
    }
    Laws.TokensGrow(Admitted(s, x), x.before.calls);
    Laws.TokensGrow(Probed(s, x), x.during.calls);
    Laws.TokensGrow(Probed(s, x), x.after.calls);
    Laws.TokensGrow(Env.ExecAll(Probed(s, x), x.during.calls), x.after.calls);
  }

  /** On every exit path the call's token is gone for good, whatever others did and whatever raised. */
  lemma ExitSpendsToken(s: Env.State, x: Crossing, later: seq<Env.Op>)
    requires Env.Ok(s)
    ensures Laws.Spent(Left(s, x), TokenOf(s)) && Laws.Spent(Env.ExecAll(Left(s, x), later), TokenOf(s))
  {
    AwaitedKnowsToken(s, x);
    Laws.CompletionSpends(Awaited(s, x), TokenOf(s), Charged(x), x.at, x.tick);
    Laws.SpentForever(Left(s, x), TokenOf(s), later);
  }

  /** A call that holds the last freeze restarts the world on its way out, whichever way that is. */
  lemma LastExitRestarts(s: Env.State, x: Crossing)
    requires Env.Ok(s) && x.tick == []
    requires Awaited(s, x).tokens == {TokenOf(s)} && Awaited(s, x).judgeDepth == 0
    ensures var r := Left(s, x);
            r.phase == Env.Running && !r.pauseEvent && r.clock.depth == 0 && r.tokens == {}
  {
    var mid, token := Awaited(s, x), TokenOf(s);
    Env.CompleteOk(mid, token, Charged(x), x.at);
    var released := Env.Complete(mid, token, Charged(x), x.at);
    assert mid.tokens - {token} == {};
    assert Env.ExecAll(released, []) == released;
  }

  /** `None` is a client without a clock: nothing is frozen, and windows carry no coordinate. */
  predicate Fails(world: Option<Env.State>, x: Crossing) {
    world.Some? && ProbeFails(world.value, x)
  }

  function CoordinateIn(world: Option<Env.State>, x: Crossing): Option<int>
    requires world.Some? ==> Env.Ok(world.value)
  {
    if world.None? then None else Coordinate(world.value, x)
  }

  /** The world may be frozen for the call: there is a clock, and it is running or already frozen. */
  predicate Admits(world: Option<Env.State>) {
    world.Some? && (world.value.phase == Env.Running || world.value.phase == Env.Paused)
  }

  // ----- a call is a stretch of the protocol ------------------------------------------------

  /** The protocol step is not one of call `c`'s own. */
  predicate Foreign(op: Calls.Op, c: nat) {
    !(op.Probe? && op.call == c) && !(op.Settle? && op.call == c)
  }

  function NewWindows(s: Calls.Sys, op: Calls.Op): seq<Window> {
    if Calls.NextLog(s, op) == s.log then [] else Calls.NextLog(s, op)[|s.log|..]
  }

  /** What a stretch of other callers' protocol steps does to the environment and the log. */
  function OthersOf(s: Calls.Sys, ops: seq<Calls.Op>): Others
    requires Env.Ok(s.env)
  {
    if ops == [] then Others([], [])
    else
      var init, last := ops[..|ops| - 1], ops[|ops| - 1];
      var so, mid := OthersOf(s, init), Calls.Run(s, init);
      var step := Calls.EnvStep(mid, last);
      Others(so.calls + (if step.None? then [] else [step.value]), so.windows + NewWindows(mid, last))
  }

  lemma {:induction false} OthersEnv(s: Calls.Sys, ops: seq<Calls.Op>)
    requires Env.Ok(s.env)
    ensures Calls.Run(s, ops).env == Env.ExecAll(s.env, OthersOf(s, ops).calls)
  {
    if ops != [] {
      var init, last := ops[..|ops| - 1], ops[|ops| - 1];
      OthersEnv(s, init);
      OthersEnvStep(s.env, OthersOf(s, init).calls, Calls.Run(s, init), last);
    }
  }

  lemma OthersEnvStep(env: Env.State, calls: seq<Env.Op>, mid: Calls.Sys, op: Calls.Op)
    requires Env.Ok(env) && mid.env == Env.ExecAll(env, calls)
    ensures var step := Calls.EnvStep(mid, op);
            Calls.NextEnv(mid, op) == Env.ExecAll(env, calls + if step.None? then [] else [step.value])
  {
    if Calls.EnvStep(mid, op).Some? {
      Laws.ExecSnoc(env, calls, Calls.EnvStep(mid, op).value);
    } else {
      ConcatNil(calls);
    }
  }

  lemma {:induction false} OthersLog(s: Calls.Sys, ops: seq<Calls.Op>)
    requires Env.Ok(s.env)
    ensures Calls.Run(s, ops).log == s.log + OthersOf(s, ops).windows
  {
    if ops == [] {
      ConcatNil(s.log);
    } else {
      var init, last := ops[..|ops| - 1], ops[|ops| - 1];
      OthersLog(s, init);
      OthersLogStep(s.log, OthersOf(s, init).windows, Calls.Run(s, init), last);
    }
  }

  lemma OthersLogStep(log: seq<Window>, windows: seq<Window>, mid: Calls.Sys, op: Calls.Op)
    requires mid.log == log + windows
    ensures Calls.NextLog(mid, op) == log + (windows + NewWindows(mid, op))
  {
    assert Calls.NextLog(mid, op) == mid.log + NewWindows(mid, op);
  }

  predicate Holds(calls: seq<Calls.Call>, c: nat, call: Calls.Call) {
    c < |calls| && calls[c] == call
  }

  lemma OwnRecordStep(s: Calls.Sys, op: Calls.Op, c: nat, call: Calls.Call)
    requires Holds(s.calls, c, call) && Foreign(op, c)
    ensures Holds(Calls.NextCalls(s, op), c, call)
  {
  }

  /** Other callers do not touch an open call's own record. */
  lemma {:induction false} OwnRecordKept(s: Calls.Sys, ops: seq<Calls.Op>, c: nat, call: Calls.Call)
    requires Env.Ok(s.env) && Holds(s.calls, c, call) && forall op :: op in ops ==> Foreign(op, c)
    ensures Holds(Calls.Run(s, ops).calls, c, call)
  {
    if ops != [] {
      var init, last := ops[..|ops| - 1], ops[|ops| - 1];
      OwnRecordKept(s, init, c, call);
      OwnRecordStep(Calls.Run(s, init), last, c, call);
    }
  }

  /** The state in which call `|s.calls|` settles, after three stretches of other callers' steps. */
  function Due(s: Calls.Sys, x: Crossing, before: seq<Calls.Op>, during: seq<Calls.Op>, after: seq<Calls.Op>): Calls.Sys
    requires Env.Ok(s.env)
  {
    var b := BeforeProbe(s, x, before);
    Calls.Run(if ProbeFails(s.env, x) then b else Calls.Run(AfterProbe(s, x, before), during), after)
  }

  function BeforeProbe(s: Calls.Sys, x: Crossing, before: seq<Calls.Op>): (r: Calls.Sys)
    requires Env.Ok(s.env)
    ensures Env.Ok(r.env)
  {
    Calls.Run(Calls.Act(s, Calls.Admit(x.probe, x.first, x.second)), before)
  }

  function AfterProbe(s: Calls.Sys, x: Crossing, before: seq<Calls.Op>): (r: Calls.Sys)
    requires Env.Ok(s.env)
    ensures Env.Ok(r.env)
  {
    Calls.Act(BeforeProbe(s, x, before), Calls.Probe(|s.calls|, x.probeAt))
  }

  function Settlement(c: nat, x: Crossing): Calls.Op {
    Calls.Settle(c, x.price, !x.recorderRaises, x.startedAt, x.finishedAt, x.at)
  }

  function Script(s: Calls.Sys, x: Crossing, before: seq<Calls.Op>, during: seq<Calls.Op>, after: seq<Calls.Op>)
    : seq<Calls.Op>
  {
    [Calls.Admit(x.probe, x.first, x.second)] + before
    + (if ProbeFails(s.env, x) then [] else [Calls.Probe(|s.calls|, x.probeAt)] + during)
    + after + [Settlement(|s.calls|, x)]
  }

  /** What others do in the three stretches of `x` is what these protocol steps do. */
  ghost predicate Matches(s: Calls.Sys, x: Crossing, before: seq<Calls.Op>, during: seq<Calls.Op>, after: seq<Calls.Op>)
    requires Env.Ok(s.env)
  {
    var failed, b, p := ProbeFails(s.env, x), BeforeProbe(s, x, before), AfterProbe(s, x, before);
    && x.before == OthersOf(Calls.Act(s, Calls.Admit(x.probe, x.first, x.second)), before)
    && (!failed ==> x.during == OthersOf(p, during))
    && x.after == OthersOf(if failed then b else Calls.Run(p, during), after)
  }

  ghost predicate AllForeign(ops: seq<Calls.Op>, c: nat) {
    forall op :: op in ops ==> Foreign(op, c)
  }

  /** The environment, the log and the call's own record, as the call goes on. */
  ghost predicate Stands(t: Calls.Sys, env: Env.State, log: seq<Window>, c: nat, call: Calls.Call) {
    t.env == env && t.log == log && Holds(t.calls, c, call)
  }

  lemma StandsOn(t: Calls.Sys, ops: seq<Calls.Op>, env: Env.State, log: seq<Window>, c: nat, call: Calls.Call)
    requires Env.Ok(t.env) && Stands(t, env, log, c, call) && AllForeign(ops, c)
    ensures var others := OthersOf(t, ops);
            Stands(Calls.Run(t, ops), Env.ExecAll(env, others.calls), log + others.windows, c, call)
  {
    OthersEnv(t, ops);
    OthersLog(t, ops);
    OwnRecordKept(t, ops, c, call);
  }

  lemma StandsAdmitted(s: Calls.Sys, x: Crossing)
    requires Env.Ok(s.env)
    ensures Stands(Calls.Act(s, Calls.Admit(x.probe, x.first, x.second)), Admitted(s.env, x), s.log, |s.calls|,
                   Calls.Call(TokenOf(s.env), None, false))
  {
  }

  lemma StandsProbed(t: Calls.Sys, env: Env.State, log: seq<Window>, c: nat, token: nat, at: int)
    requires Env.Ok(t.env) && Stands(t, env, log, c, Calls.Call(token, None, false))
    ensures Stands(Calls.Act(t, Calls.Probe(c, at)), env, log, c,
                   Calls.Call(token, if token == 0 then None else Some(Env.ChargeTime(env, token, at)), false))
  {
  }

  lemma StandsBefore(s: Calls.Sys, x: Crossing, before: seq<Calls.Op>)
    requires Env.Ok(s.env) && AllForeign(before, |s.calls|)
    requires x.before == OthersOf(Calls.Act(s, Calls.Admit(x.probe, x.first, x.second)), before)
    ensures Stands(BeforeProbe(s, x, before), Probed(s.env, x), s.log + x.before.windows, |s.calls|,
                   Calls.Call(TokenOf(s.env), None, false))
  {
    var a := Calls.Act(s, Calls.Admit(x.probe, x.first, x.second));
    StandsAdmitted(s, x);
    StandsOn(a, before, Admitted(s.env, x), s.log, |s.calls|, Calls.Call(TokenOf(s.env), None, false));
  }

  lemma StandsWaited(s: Calls.Sys, x: Crossing, before: seq<Calls.Op>, during: seq<Calls.Op>)
    requires Env.Ok(s.env) && !ProbeFails(s.env, x) && AllForeign(before, |s.calls|) && AllForeign(during, |s.calls|)
    requires x.before == OthersOf(Calls.Act(s, Calls.Admit(x.probe, x.first, x.second)), before)
    requires x.during == OthersOf(AfterProbe(s, x, before), during)
    ensures Stands(Calls.Run(AfterProbe(s, x, before), during), Env.ExecAll(Probed(s.env, x), x.during.calls),
                   s.log + x.before.windows + x.during.windows, |s.calls|,
                   Calls.Call(TokenOf(s.env), Coordinate(s.env, x), false))
  {
    var c, env, log := |s.calls|, Probed(s.env, x), s.log + x.before.windows;
    var b, p := BeforeProbe(s, x, before), AfterProbe(s, x, before);
    StandsBefore(s, x, before);
    StandsProbed(b, env, log, c, TokenOf(s.env), x.probeAt);
    StandsOn(p, during, env, log, c, Calls.Call(TokenOf(s.env), Coordinate(s.env, x), false));
  }

  lemma StandsDue(s: Calls.Sys, x: Crossing, before: seq<Calls.Op>, during: seq<Calls.Op>, after: seq<Calls.Op>)
    requires Env.Ok(s.env) && Matches(s, x, before, during, after)
    requires AllForeign(before, |s.calls|) && AllForeign(during, |s.calls|) && AllForeign(after, |s.calls|)
    ensures Stands(Due(s, x, before, during, after), Awaited(s.env, x), s.log + Meanwhile(ProbeFails(s.env, x), x),
                   |s.calls|, Calls.Call(TokenOf(s.env), Coordinate(s.env, x), false))
  {
    var own := Calls.Call(TokenOf(s.env), Coordinate(s.env, x), false);
    MeanwhileAdds(s.log, x);
    if ProbeFails(s.env, x) {
      StandsBefore(s, x, before);
      StandsOn(BeforeProbe(s, x, before), after, Probed(s.env, x), s.log + x.before.windows, |s.calls|, own);
    } else {
      StandsWaited(s, x, before, during);
      StandsOn(Calls.Run(AfterProbe(s, x, before), during), after, Env.ExecAll(Probed(s.env, x), x.during.calls),
               s.log + x.before.windows + x.during.windows, |s.calls|, own);
    }
  }

  lemma MeanwhileAdds(log: seq<Window>, x: Crossing)
    ensures log + x.before.windows + x.after.windows == log + Meanwhile(true, x)
    ensures log + x.before.windows + x.during.windows + x.after.windows == log + Meanwhile(false, x)
  {
  }

  lemma SettlesAs(t: Calls.Sys, env: Env.State, log: seq<Window>, c: nat, x: Crossing, token: nat,
                  coordinate: Option<int>)
    requires Env.Ok(t.env) && Stands(t, env, log, c, Calls.Call(token, coordinate, false)) && x.tick == []
    ensures var r := Calls.Act(t, Settlement(c, x));
            && r.env == Env.Exec(env, Env.ResumeGeneration(token, Charged(x), x.at, x.tick))
            && r.log == log + Recorded(x, coordinate)
            && Holds(r.calls, c, Calls.Call(token, coordinate, true))
  {
    ConcatNil(log);
  }

  lemma ScriptRuns(s: Calls.Sys, x: Crossing, before: seq<Calls.Op>, during: seq<Calls.Op>, after: seq<Calls.Op>)
    requires Env.Ok(s.env)
    ensures Calls.Run(s, Script(s, x, before, during, after))
            == Calls.Act(Due(s, x, before, during, after), Settlement(|s.calls|, x))
  {
    var admit, probe := Calls.Admit(x.probe, x.first, x.second), Calls.Probe(|s.calls|, x.probeAt);
    var wait := if ProbeFails(s.env, x) then [] else [probe] + during;
    var b := BeforeProbe(s, x, before);
    RunOne(s, admit);
    Calls.RunConcat(s, [admit], before);
    Calls.RunConcat(s, [admit] + before, wait);
    RunOne(b, probe);
    Calls.RunConcat(b, [probe], during);
    Calls.RunConcat(s, [admit] + before + wait, after);
    Calls.RunSnoc(s, [admit] + before + wait + after, Settlement(|s.calls|, x));
  }

  lemma RunOne(s: Calls.Sys, op: Calls.Op)
    requires Env.Ok(s.env)
    ensures Calls.Run(s, [op]) == Calls.Act(s, op)
  {
    ConcatNil([op]);
    Calls.RunSnoc(s, [], op);
  }

  /**
   * What `Complete` does to the environment and the log is a run of the token protocol, on every exit
   * path: admission, other callers' steps, the probe unless it fails, the wait, and the settlement.
   */
  lemma CompleteFollowsProtocol(s: Calls.Sys, x: Crossing,
                                before: seq<Calls.Op>, during: seq<Calls.Op>, after: seq<Calls.Op>)
    requires Env.Ok(s.env) && Matches(s, x, before, during, after) && x.tick == []
    requires AllForeign(before, |s.calls|) && AllForeign(during, |s.calls|) && AllForeign(after, |s.calls|)
    ensures var r := Calls.Run(s, Script(s, x, before, during, after));
            && r.env == Left(s.env, x)
            && r.log == s.log + Meanwhile(ProbeFails(s.env, x), x) + Recorded(x, Coordinate(s.env, x))
            && Holds(r.calls, |s.calls|, Calls.Call(TokenOf(s.env), Coordinate(s.env, x), true))
  {
    StandsDue(s, x, before, during, after);
    SettlesAs(Due(s, x, before, during, after), Awaited(s.env, x), s.log + Meanwhile(ProbeFails(s.env, x), x),
              |s.calls|, x, TokenOf(s.env), Coordinate(s.env, x));
    ScriptRuns(s, x, before, during, after);
  }

  // ----- the client ------------------------------------------------------------------------

  class ClockedClient {
    const clock: Env.ChargedEnvironment?
    /** The windows of the shared recorder, in the order they were recorded. */
    var log: seq<Window>

    ghost function Parts(): set<object>
      reads this
    {
      if clock == null then {this} else {this, clock, clock.timeManager}
    }

    ghost predicate Good()
      reads Parts()
    {
      clock != null ==> clock.Good()
    }

    ghost function World(): Option<Env.State>
      reads Parts()
    {
      if clock == null then None else Some(clock.View())
    }

    constructor (environment: Env.ChargedEnvironment?)
      ensures clock == environment && log == []
    {
      clock, log := environment, [];
    }

    /** The environment and the recorder belong to everyone else for a while. */
    method Elsewhere(others: Others)
      requires Good()
      modifies Parts()
      ensures Good() && log == old(log) + others.windows
      ensures World() == if old(World()).None? then None else Some(Env.ExecAll(old(World()).value, others.calls))
    {
      log := log + others.windows;
      if clock != null {
        clock.CatchUpTick(others.calls);
      }
    }

    /** The freeze. Without a clock there is no token; without admission it is zero. */
    method Enter(x: Crossing) returns (token: nat)
      requires Good()
      modifies Parts()
      ensures Good() && log == old(log) + x.before.windows
      ensures World() == if old(World()).None? then None else Some(Probed(old(World()).value, x))
      ensures token == if old(World()).None? then 0 else TokenOf(old(World()).value)
    {
      token := 0;
      if clock != null {
        token := clock.StartGeneration(x.probe, x.first, x.second);
      }
      Elsewhere(x.before);
    }

    /** The body of the `try` up to the model: `None` where no coordinate is due or the probe raises. */
    method Measure(x: Crossing, token: nat) returns (failed: bool, coordinate: Option<int>)
      requires Good()
      ensures failed <==> clock != null && token != 0 && x.probeRaises
      ensures coordinate == if World().None? || token == 0 || x.probeRaises then None
                            else Some(Env.ChargeTime(World().value, token, x.probeAt))
    {
      failed, coordinate := false, None;
      if clock != null && token != 0 {
        if x.probeRaises {
          failed := true;
        } else {
          var now := clock.GenerationChargeTime(token, x.probeAt);
          coordinate := Some(now);
        }
      }
    }

    /** The outer `finally`: a recorder that raises leaves the charge at zero, and the inner one follows. */
    method Leave(x: Crossing, token: nat, coordinate: Option<int>)
      requires Good()
      modifies Parts()
      ensures Good() && log == old(log) + Recorded(x, coordinate)
      ensures World() ==
                if old(World()).None? then None
                else Some(Env.Exec(old(World()).value, Env.ResumeGeneration(token, Charged(x), x.at, x.tick)))
    {
      var charged := 0;
      if !x.recorderRaises {
        charged := x.price;
        log := log + [Window(x.startedAt, Max(x.startedAt, x.finishedAt), x.price, coordinate)];
      }
      if clock != null {
        clock.FinishGeneration(token, charged, x.at, x.tick);
      }
    }

    /** One call: whatever raises, it leaves by `Leave`, and a later failure hides an earlier one. */
    method Complete(x: Crossing) returns (exit: Exit)
      requires Good()
      modifies Parts()
      ensures Good()
      // what the caller sees: a later failure takes the place of an earlier one
      ensures exit.NotBegun? <==> x.beginRaises
      ensures exit.RecorderRaised? <==> !x.beginRaises && x.recorderRaises
      ensures exit.ProbeRaised? <==> !x.beginRaises && !x.recorderRaises && Admits(old(World())) && x.probeRaises
      ensures exit.ModelRaised? <==>
                !x.beginRaises && !x.recorderRaises && !(Admits(old(World())) && x.probeRaises) && x.modelRaises
      ensures x.beginRaises ==> World() == old(World()) && log == old(log)
      ensures !x.beginRaises && clock != null ==> World() == Some(Left(old(World()).value, x))
      ensures !x.beginRaises && clock != null ==> Laws.Spent(World().value, TokenOf(old(World()).value))
      ensures !x.beginRaises ==>
                log == old(log) + Meanwhile(Fails(old(World()), x), x) + Recorded(x, CoordinateIn(old(World()), x))
    {
      if x.beginRaises {
        return NotBegun;
      }
      if clock != null {
        ExitSpendsToken(World().value, x, []);
      }
      ghost var world, start := World(), log;
      var token := Enter(x);
      ghost var entered := log;
      var failed, coordinate := Measure(x, token);
      exit := ProbeRaised;
      if !failed {
        Elsewhere(x.during);
        exit := if x.modelRaises then ModelRaised else Answered;
      }
      ghost var waited := log;
      Elsewhere(x.after);
      Appended(start, x, failed, Recorded(x, coordinate), entered, waited, log);
      Leave(x, token, coordinate);
      if x.recorderRaises {
        exit := RecorderRaised;
      }
      assert failed == Fails(world, x) && coordinate == CoordinateIn(world, x);
    }
  }
}
