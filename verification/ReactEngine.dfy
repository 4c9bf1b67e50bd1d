/**
 * The ReAct engine's accounting: a bracket is one frozen step of the agent, and every round trip
 * made inside it is priced and stamped right after the trips before it, whether or not it raised.
 */
module ReactEngine {
  import opened Options
  import opened Sequences
  import opened Intervals
  import Env = Environment
  import Calls

  datatype Trip = Trip(startedAt: int, finishedAt: int, charged: nat)

  datatype Usage = Usage(input: nat, cached: Option<nat>, output: nat)

  datatype Pricing = GenerationFree | Elapsed | Priced(model: (nat, nat, nat) -> nat)

  /** An unreported cache figure bills as uncached. */
  function ChargeFor(pricing: Pricing, usage: Usage, elapsed: nat): nat {
    match pricing
    case GenerationFree => 0
    case Elapsed => elapsed
    case Priced(model) => model(usage.input, if usage.cached.Some? then usage.cached.value else 0, usage.output)
  }

  datatype Engine = Engine(
    wired: bool,
    brackets: nat,
    bracket: seq<Trip>,
    bracketStart: Option<int>,
    charged: nat,
    cursor: int,
    windows: seq<Window>)

  const NewEngine := Engine(false, 0, [], None, 0, 0, [])

  function Sum(trips: seq<Trip>): nat {
    if trips == [] then 0 else Sum(trips[..|trips| - 1]) + trips[|trips| - 1].charged
  }

  lemma SumSnoc(trips: seq<Trip>, t: Trip)
    ensures Sum(trips + [t]) == Sum(trips) + t.charged
  {
    assert (trips + [t])[..|trips|] == trips;
  }

  function Begin(e: Engine, start: Option<int>): Engine {
    e.(wired := true, brackets := e.brackets + 1, bracket := [], bracketStart := start)
  }

  predicate Coordinated(e: Engine) {
    e.wired && e.bracketStart.Some?
  }

  function Stamp(e: Engine): int {
    if Coordinated(e) then e.bracketStart.value + Sum(e.bracket) else e.cursor
  }

  function StampedWindow(e: Engine, t: Trip): Window {
    Window(t.startedAt, Max(t.startedAt, t.finishedAt), t.charged, Some(Stamp(e)))
  }

  function Take(e: Engine, t: Trip): Engine {
    e.(brackets := if e.wired then e.brackets else e.brackets + 1,
       bracket := e.bracket + [t],
       charged := e.charged + t.charged,
       cursor := if Coordinated(e) then e.cursor else e.cursor + t.charged,
       windows := e.windows + [StampedWindow(e, t)])
  }

  function BracketCharge(e: Engine): nat { Sum(e.bracket) }

  // ----- the engine object -----------------------------------------------------------------

  class MeteredEngine {
    const pricing: Pricing
    var bracketWired: bool
    var brackets: nat
    var bracket: seq<Trip>
    var bracketChargedStartedAt: Option<int>
    var chargedSeconds: nat
    var unbracketedCursor: int
    var roundTripWindows: seq<Window>

    ghost function View(): Engine
      reads this
    {
      Engine(bracketWired, brackets, bracket, bracketChargedStartedAt, chargedSeconds, unbracketedCursor,
             roundTripWindows)
    }

    constructor (pricing: Pricing)
      ensures View() == NewEngine && this.pricing == pricing
    {
      this.pricing := pricing;
      bracketWired, brackets, bracket, bracketChargedStartedAt := false, 0, [], None;
      chargedSeconds, unbracketedCursor, roundTripWindows := 0, 0, [];
    }

    method BeginBracket(start: Option<int>)
      modifies this
      ensures View() == Begin(old(View()), start)
      ensures bracketWired && bracket == [] && bracketChargedStartedAt == start && brackets == old(brackets) + 1
    {
      bracketWired := true;
      brackets := brackets + 1;
      bracket := [];
      bracketChargedStartedAt := start;
    }

    method Charge() returns (total: nat)
      ensures total == BracketCharge(View())
    {
      total := 0;
      for i := 0 to |bracket|
        invariant total == Sum(bracket[..i])
      {
        assert bracket[..i + 1][..i] == bracket[..i];
        total := total + bracket[i].charged;
      }
      assert bracket[..|bracket|] == bracket;
    }

    /** The three clock modes: free, by the wall, or by the tokens, an unreported cache counting as none. */
    method Price(usage: Usage, elapsed: nat) returns (charged: nat)
      ensures charged == ChargeFor(pricing, usage, elapsed)
      ensures pricing.GenerationFree? ==> charged == 0
      ensures pricing.Elapsed? ==> charged == elapsed
      ensures pricing.Priced? && usage.cached.Some? ==>
                charged == pricing.model(usage.input, usage.cached.value, usage.output)
      ensures pricing.Priced? && usage.cached.None? ==> charged == pricing.model(usage.input, 0, usage.output)
    {
      match pricing
      case GenerationFree => return 0;
      case Elapsed => return elapsed;
      case Priced(model) =>
        var cached := if usage.cached.Some? then usage.cached.value else 0;
        return model(usage.input, cached, usage.output);
    }

    /**
     * One round trip. `metadata` is the charge reported for it, absent when the call raised; the
     * crossing is priced, stamped and kept in the bracket either way.
     */
    method ChatCompletion(usage: Usage, startedAt: int, finishedAt: int, raised: bool) returns (metadata: Option<nat>)
      modifies this
      ensures var trip := Trip(startedAt, finishedAt, ChargeFor(pricing, usage, Clamp(finishedAt - startedAt)));
              && View() == Take(old(View()), trip)
              && brackets == old(brackets) + (if old(bracketWired) then 0 else 1)
              && (raised <==> metadata.None?)
              && (!raised ==> metadata.value == if bracketWired then BracketCharge(View()) else trip.charged)
    {
      if !bracketWired {
        brackets := brackets + 1;
      }
      var charged := Price(usage, Max(0, finishedAt - startedAt));
      var trip := Trip(startedAt, finishedAt, charged);
      chargedSeconds := chargedSeconds + charged;
      var stamp;
      if bracketWired && bracketChargedStartedAt.Some? {
        var prior := Charge();
        stamp := bracketChargedStartedAt.value + prior;
      } else {
        stamp := unbracketedCursor;
        unbracketedCursor := unbracketedCursor + charged;
      }
      roundTripWindows := roundTripWindows + [Window(startedAt, Max(startedAt, finishedAt), charged, Some(stamp))];
      bracket := bracket + [trip];
      if raised {
        return None;
      }
      if bracketWired {
        var total := Charge();
        return Some(total);
      }
      return Some(charged);
    }
  }

  // ----- one bracket tiles its stretch of the charged axis ----------------------------------

  lemma TakeAddsWindow(e: Engine, t: Trip)
    ensures var n := Take(e, t);
            && Axis(n.windows) == Axis(e.windows) + Cells(Interval(Stamp(e), Stamp(e) + t.charged))
            && SerializedCharge(n.windows) == SerializedCharge(e.windows) + t.charged
  {
    WindowCovers(e.windows, StampedWindow(e, t), Stamp(e));
  }

  /** `n` is `e` after one more coordinated trip charged `c`. */
  ghost predicate Extends(e: Engine, n: Engine, c: nat)
    requires Coordinated(e)
  {
    && n.wired && n.bracketStart == e.bracketStart
    && BracketCharge(n) == BracketCharge(e) + c
    && Axis(n.windows) == Axis(e.windows) + Cells(Interval(Stamp(e), Stamp(e) + c))
    && SerializedCharge(n.windows) == SerializedCharge(e.windows) + c
    && n.charged == e.charged + c
  }

  /** What one more trip adds to the covered axis, to the engine total and to the window charges. */
  lemma TakeCovers(e: Engine, t: Trip)
    requires Coordinated(e)
    ensures Extends(e, Take(e, t), t.charged)
  {
    SumSnoc(e.bracket, t);
    TakeAddsWindow(e, t);
  }

  lemma AxisGrows(windows: set<int>, log: set<int>, lo: int, before: nat, more: nat)
    requires windows == log + Cells(Interval(lo, lo + before))
    ensures windows + Cells(Interval(lo + before, lo + before + more)) == log + Cells(Interval(lo, lo + before + more))
  {
    MergeCells(Interval(lo, lo + before), Interval(lo + before, lo + before + more));
    SetAlgebra(log, Cells(Interval(lo, lo + before)), Cells(Interval(lo + before, lo + before + more)));
  }

  function TakeAllTrips(e: Engine, trips: seq<Trip>): Engine {
    if trips == [] then e else Take(TakeAllTrips(e, trips[..|trips| - 1]), trips[|trips| - 1])
  }

  predicate StampedAt(w: Window, start: int) { w.chargedStart == Some(start) && w.charged >= 0 }

  /**
   * The windows `b` has beyond the first `n` are end to end from `start`: the first begins there, each
   * next one where the one before ends, and the last ends where the bracket's charge does.
   */
  ghost predicate EndToEnd(n: nat, start: int, b: Engine) {
    && b.wired && b.bracketStart == Some(start) && |b.windows| == n + |b.bracket|
    && (forall i :: n <= i < |b.windows| ==> StampedAt(b.windows[i], WindowStart(b.windows[i])))
    && (|b.windows| > n ==> WindowStart(b.windows[n]) == start)
    && (forall i :: n < i < |b.windows| ==> WindowStart(b.windows[i]) == WindowEnd(b.windows[i - 1]))
    && start + BracketCharge(b) == if |b.windows| == n then start else WindowEnd(b.windows[|b.windows| - 1])
  }

  function WindowStart(w: Window): int { if w.chargedStart.Some? then w.chargedStart.value else w.startedAt }

  function WindowEnd(w: Window): int { WindowStart(w) + w.charged }

  lemma OneMoreTrip(n: nat, start: int, before: Engine, t: Trip)
    requires EndToEnd(n, start, before)
    ensures EndToEnd(n, start, Take(before, t))
  {
    var b := Take(before, t);
    SumSnoc(before.bracket, t);
    assert b.windows[|before.windows|] == StampedWindow(before, t);
    assert forall i :: 0 <= i < |before.windows| ==> b.windows[i] == before.windows[i];
  }

  /** For any list of trips, raising or not, a bracket's windows lie end to end from its coordinate. */
  lemma {:induction false} BracketTiles(e: Engine, start: int, trips: seq<Trip>)
    ensures EndToEnd(|e.windows|, start, TakeAllTrips(Begin(e, Some(start)), trips))
    ensures TakeAllTrips(Begin(e, Some(start)), trips).bracket == trips
  {
    if trips != [] {
      var init, t := trips[..|trips| - 1], trips[|trips| - 1];
      BracketTiles(e, start, init);
      Unsnoc(trips);
      OneMoreTrip(|e.windows|, start, TakeAllTrips(Begin(e, Some(start)), init), t);
    }
  }

  /** So together they cover exactly the bracket's own stretch of the axis. */
  lemma {:induction false} BracketCovers(e: Engine, start: int, trips: seq<Trip>)
    ensures Covering(e, start, TakeAllTrips(Begin(e, Some(start)), trips))
  {
    if trips == [] {
      SetAlgebra(Axis(e.windows), {}, {});
      assert Cells(Interval(start, start)) == {};
    } else {
      var init := trips[..|trips| - 1];
      BracketCovers(e, start, init);
      BracketTiles(e, start, init);
      CoverOne(e, start, TakeAllTrips(Begin(e, Some(start)), init), trips[|trips| - 1]);
    }
  }

  /** The bracket `b` covers `start` to `start` plus its charge, on top of what `e` covered before. */
  ghost predicate Covering(e: Engine, start: int, b: Engine) {
    && Axis(b.windows) == Axis(e.windows) + Cells(Interval(start, start + BracketCharge(b)))
    && b.charged == e.charged + BracketCharge(b)
  }

  lemma CoverOne(e: Engine, start: int, before: Engine, t: Trip)
    requires Covering(e, start, before) && before.wired && before.bracketStart == Some(start)
    ensures Covering(e, start, Take(before, t))
  {
    TakeCovers(before, t);
    AxisGrows(Axis(before.windows), Axis(e.windows), start, BracketCharge(before), t.charged);
  }

  /** A trip without a coordinate covers the stretch at the engine's own cursor instead. */
  lemma UncoordinatedTakeCovers(e: Engine, t: Trip)
    requires !Coordinated(e)
    ensures var r := Take(e, t);
            && Axis(r.windows) == Axis(e.windows) + Cells(Interval(e.cursor, e.cursor + t.charged))
            && r.charged == e.charged + t.charged && r.cursor == e.cursor + t.charged
  {
    TakeAddsWindow(e, t);
  }

  // ----- a whole wired run ------------------------------------------------------------------

  /**
   * `Open` freezes the world and begins a bracket at the token's coordinate; `Close` hands the token
   * back with the bracket's charge, whatever its caller passed. World steps interleave freely.
   */
  datatype Op =
    | Open(probe: int, first: int, second: int)
    | Cross(trip: Trip)
    | Close(startedAt: int, finishedAt: int, at: int)
    | World(op: Calls.Op)

  datatype Run = Run(engine: Engine, sys: Calls.Sys, open: bool)

  predicate WorldOp(op: Calls.Op) {
    op.JudgePause? || op.JudgeResume? || op.AddOffset? || op.Stop?
  }

  /** Trips only happen in an open bracket whose token was granted, and a bracket closes before the next. */
  predicate Legal(r: Run, op: Op) {
    match op
    case Open(_, _, _) => !r.open && Env.Admissible(r.sys.env)
    case Cross(_) => r.open
    case Close(_, _, _) => r.open
    case World(w) => WorldOp(w)
  }

  function Bracket(r: Run): nat { Clamp(|r.sys.calls| - 1) }

  /** The protocol steps behind one step of the run. */
  function Protocol(r: Run, op: Op): seq<Calls.Op> {
    match op
    case Open(probe, first, second) => [Calls.Admit(probe, first, second), Calls.Probe(|r.sys.calls|, second)]
    case Cross(_) => []
    case Close(startedAt, finishedAt, at) =>
      [Calls.Settle(Bracket(r), BracketCharge(r.engine), true, startedAt, finishedAt, at)]
    case World(w) => [w]
  }

  function Step(r: Run, op: Op): (n: Run)
    requires Env.Ok(r.sys.env)
    ensures Env.Ok(n.sys.env)
  {
    match op
    case Open(probe, first, second) =>
      var sys := Calls.Act(Calls.Act(r.sys, Calls.Admit(probe, first, second)), Calls.Probe(|r.sys.calls|, second));
      Run(Begin(r.engine, sys.calls[|r.sys.calls|].start), sys, true)
    case Cross(trip) => r.(engine := Take(r.engine, trip))
    case Close(startedAt, finishedAt, at) =>
      r.(sys := Calls.Act(r.sys, Calls.Settle(Bracket(r), BracketCharge(r.engine), true, startedAt, finishedAt, at)),
         open := false)
    case World(w) => r.(sys := Calls.Act(r.sys, w))
  }

  function Steps(r: Run, ops: seq<Op>): (n: Run)
    requires Env.Ok(r.sys.env)
    ensures Env.Ok(n.sys.env)
  {
    if ops == [] then r else Step(Steps(r, ops[..|ops| - 1]), ops[|ops| - 1])
  }

  ghost predicate LegalRun(r: Run, ops: seq<Op>)
    requires Env.Ok(r.sys.env)
  {
    if ops == [] then true
    else LegalRun(r, ops[..|ops| - 1]) && Legal(Steps(r, ops[..|ops| - 1]), ops[|ops| - 1])
  }

  function Trace(r: Run, ops: seq<Op>): seq<Calls.Op>
    requires Env.Ok(r.sys.env)
  {
    if ops == [] then []
    else Trace(r, ops[..|ops| - 1]) + Protocol(Steps(r, ops[..|ops| - 1]), ops[|ops| - 1])
  }

  lemma ProtocolRuns(r: Run, mid: Run, before: seq<Calls.Op>, op: Op)
    requires Env.Ok(r.sys.env) && Env.Ok(mid.sys.env) && mid.sys == Calls.Run(r.sys, before)
    ensures Step(mid, op).sys == Calls.Run(r.sys, before + Protocol(mid, op))
  {
    match op
    case Open(probe, first, second) =>
      var admit, reply := Calls.Admit(probe, first, second), Calls.Probe(|mid.sys.calls|, second);
      Calls.RunSnoc(r.sys, before, admit);
      Calls.RunSnoc(r.sys, before + [admit], reply);
      ConcatSnoc(before, [admit, reply]);
      assert [admit, reply][..1] == [admit];
    case Cross(_) => ConcatNil(before);
    case _ => Calls.RunSnoc(r.sys, before, Protocol(mid, op)[0]);
  }

  lemma {:induction false} TraceRuns(r: Run, ops: seq<Op>)
    requires Env.Ok(r.sys.env)
    ensures Steps(r, ops).sys == Calls.Run(r.sys, Trace(r, ops))
  {
    if ops != [] {
      var init := ops[..|ops| - 1];
      TraceRuns(r, init);
      ProtocolRuns(r, Steps(r, init), Trace(r, init), ops[|ops| - 1]);
    }
  }

  /** The open bracket's own stretch, if there is one. */
  ghost function OpenStretch(r: Run): set<int> {
    if r.open && Coordinated(r.engine)
    then Cells(Interval(r.engine.bracketStart.value, r.engine.bracketStart.value + BracketCharge(r.engine)))
    else {}
  }

  function OpenCharge(r: Run): nat { if r.open then BracketCharge(r.engine) else 0 }

  /** The engine's windows and the protocol's one window per closed bracket describe the same axis. */
  ghost predicate SameAxis(r: Run) {
    Axis(r.engine.windows) == Axis(r.sys.log) + OpenStretch(r) && SameCharge(r)
  }

  predicate SameCharge(r: Run) {
    && r.engine.charged == SerializedCharge(r.engine.windows)
    && r.engine.charged == SerializedCharge(r.sys.log) + OpenCharge(r)
  }

  ghost predicate Matched(r: Run) {
    r.open ==>
      && Coordinated(r.engine)
      && |r.sys.calls| > 0 && !r.sys.calls[Bracket(r)].settled
      && r.sys.calls[Bracket(r)].start == r.engine.bracketStart
  }

  lemma OpenAgrees(r: Run, op: Op)
    requires Env.Ok(r.sys.env) && SameAxis(r) && Legal(r, op) && op.Open?
    ensures Matched(Step(r, op)) && SameAxis(Step(r, op))
  {
    var admit := Calls.Admit(op.probe, op.first, op.second);
    var admitted := Calls.Act(r.sys, admit);
    Calls.TokenIssued(r.sys, admit);
    var n := Step(r, op);
    assert Calls.Open(admitted, |r.sys.calls|);
    assert n.sys.calls[|r.sys.calls|].start.Some?;
    assert n.sys.log == r.sys.log && n.engine.windows == r.engine.windows && BracketCharge(n.engine) == 0;
  }

  lemma CloseAgrees(r: Run, n: Run, w: Window)
    requires r.open && SameAxis(r) && Matched(r)
    requires w.chargedStart == r.engine.bracketStart && w.charged == BracketCharge(r.engine)
    requires n.engine == r.engine && !n.open && n.sys.log == r.sys.log + [w]
    ensures SameAxis(n)
  {
    AxisSnoc(r.sys.log, w);
    ChargeSnoc(r.sys.log, w);
    var before, after := Axis(r.sys.log), Axis(n.sys.log);
    assert OpenStretch(r) == Cells(ChargedInterval(w));
    assert after == Axis(r.engine.windows);
    SetAlgebra(after, {}, {});
    assert OpenStretch(n) == {};
  }

  lemma ExtendedAxis(r: Run, n: Run, c: nat)
    requires r.open && Coordinated(r.engine) && n.open && n.sys == r.sys && Extends(r.engine, n.engine, c)
    requires Axis(r.engine.windows) == Axis(r.sys.log) + OpenStretch(r)
    ensures Axis(n.engine.windows) == Axis(n.sys.log) + OpenStretch(n)
  {
    AxisGrows(Axis(r.engine.windows), Axis(r.sys.log), r.engine.bracketStart.value, BracketCharge(r.engine), c);
  }

  lemma ExtendedCharge(r: Run, n: Run, c: nat)
    requires r.open && SameCharge(r) && Matched(r)
    requires n.sys == r.sys && n.open && Extends(r.engine, n.engine, c)
    ensures SameCharge(n) && Matched(n)
  {
  }

  lemma ExtendedAgrees(r: Run, n: Run, c: nat)
    requires r.open && SameAxis(r) && Matched(r)
    requires n.sys == r.sys && n.open && Extends(r.engine, n.engine, c)
    ensures Matched(n) && SameAxis(n)
  {
    ExtendedCharge(r, n, c);
    ExtendedAxis(r, n, c);
  }

  lemma WorldIsQuiet(s: Calls.Sys, op: Calls.Op)
    requires Env.Ok(s.env) && WorldOp(op)
    ensures Calls.Act(s, op).calls == s.calls && Calls.Act(s, op).log == s.log
  {
    assert Calls.NextCalls(s, op) == s.calls && Calls.NextLog(s, op) == s.log;
  }

  lemma WorldAgrees(r: Run, n: Run)
    requires SameAxis(r) && Matched(r)
    requires n.engine == r.engine && n.open == r.open && n.sys.calls == r.sys.calls && n.sys.log == r.sys.log
    ensures SameAxis(n) && Matched(n)
  {
  }

  lemma StepAgrees(r: Run, op: Op)
    requires Env.Ok(r.sys.env) && SameAxis(r) && Matched(r) && Legal(r, op)
    ensures SameAxis(Step(r, op)) && Matched(Step(r, op))
  {
    match op
    case Open(_, _, _) => OpenAgrees(r, op);
    case Cross(t) =>
      TakeCovers(r.engine, t);
      ExtendedAgrees(r, Step(r, op), t.charged);
    case Close(startedAt, finishedAt, _) =>
      var w := Window(startedAt, Max(startedAt, finishedAt), BracketCharge(r.engine), r.engine.bracketStart);
      CloseAgrees(r, Step(r, op), w);
    case World(w) =>
      WorldIsQuiet(r.sys, w);
      WorldAgrees(r, Step(r, op));
  }

  lemma {:induction false} RunAgrees(r: Run, ops: seq<Op>)
    requires Env.Ok(r.sys.env) && SameAxis(r) && Matched(r) && LegalRun(r, ops)
    ensures SameAxis(Steps(r, ops)) && Matched(Steps(r, ops))
  {
    if ops != [] {
      RunAgrees(r, ops[..|ops| - 1]);
      StepAgrees(Steps(r, ops[..|ops| - 1]), ops[|ops| - 1]);
    }
  }

  /** Brackets come one at a time: the previous token is back before the next is asked for. */
  ghost predicate BracketsAlone(r: Run) {
    && Calls.Owned(r.sys.env.tokens, r.sys.calls)
    && (forall c: nat :: c < |r.sys.calls| && !r.sys.calls[c].settled ==> r.open && c == |r.sys.calls| - 1)
  }

  lemma NoTokenBetweenBrackets(r: Run)
    requires BracketsAlone(r) && !r.open
    ensures r.sys.env.tokens == {}
  {
    forall t
      ensures t !in r.sys.env.tokens
    {
      assert forall c: nat :: !Calls.OpenCall(r.sys.calls, c, t);
    }
  }

  lemma AloneStep(r: Run, op: Op)
    requires Env.Ok(r.sys.env) && BracketsAlone(r) && Legal(r, op)
    ensures BracketsAlone(Step(r, op))
  {
    match op
    case Open(probe, first, second) =>
      var admit := Calls.Admit(probe, first, second);
      Calls.OwnedStep(r.sys, admit);
      Calls.OwnedStep(Calls.Act(r.sys, admit), Calls.Probe(|r.sys.calls|, second));
    case Cross(_) =>
    case Close(startedAt, finishedAt, at) =>
      Calls.OwnedStep(r.sys, Calls.Settle(Bracket(r), BracketCharge(r.engine), true, startedAt, finishedAt, at));
    case World(w) => Calls.OwnedStep(r.sys, w);
  }

  lemma SoloSnoc(s: Calls.Sys, ops: seq<Calls.Op>, op: Calls.Op)
    requires Env.Ok(s.env) && Calls.Solo(s, ops)
    requires op.Admit? ==> Calls.Run(s, ops).env.tokens == {}
    ensures Calls.Solo(s, ops + [op])
  {
    assert (ops + [op])[..|ops|] == ops;
  }

  lemma {:induction false} BracketsAreSolo(r: Run, ops: seq<Op>)
    requires Env.Ok(r.sys.env) && BracketsAlone(r) && LegalRun(r, ops)
    ensures BracketsAlone(Steps(r, ops)) && Calls.Solo(r.sys, Trace(r, ops))
  {
    if ops != [] {
      var init, op := ops[..|ops| - 1], ops[|ops| - 1];
      BracketsAreSolo(r, init);
      TraceRuns(r, init);
      AloneStep(Steps(r, init), op);
      ProtocolIsSolo(r, Steps(r, init), Trace(r, init), op);
    }
  }

  lemma ProtocolIsSolo(r: Run, mid: Run, before: seq<Calls.Op>, op: Op)
    requires Env.Ok(r.sys.env) && Env.Ok(mid.sys.env) && BracketsAlone(mid) && Legal(mid, op)
    requires Calls.Solo(r.sys, before) && mid.sys == Calls.Run(r.sys, before)
    ensures Calls.Solo(r.sys, before + Protocol(mid, op))
  {
    match op
    case Open(probe, first, second) =>
      var admit, reply := Calls.Admit(probe, first, second), Calls.Probe(|mid.sys.calls|, second);
      NoTokenBetweenBrackets(mid);
      SoloSnoc(r.sys, before, admit);
      SoloSnoc(r.sys, before + [admit], reply);
      ConcatSnoc(before, [admit, reply]);
      assert [admit, reply][..1] == [admit];
    case Cross(_) => ConcatNil(before);
    case _ => SoloSnoc(r.sys, before, Protocol(mid, op)[0]);
  }

  /**
   * In a run where every trip has a bracket coordinate, the engine total, the sum of its windows'
   * charges, the union of those windows and the advance of the clock's frontier are one number.
   */
  lemma ReactAccountsAgree(r: Run, start: int, ops: seq<Op>)
    requires r.engine == NewEngine && !r.open && r.sys.calls == [] && r.sys.log == []
    requires Env.Ok(r.sys.env) && r.sys.env.tokens == {} && Calls.ClockOk(r.sys.env.clock, start)
    requires LegalRun(r, ops) && Calls.Proper(r.sys, start, Trace(r, ops)) && Calls.Coherent(r.sys, Trace(r, ops))
    requires !Steps(r, ops).open
    ensures var n, ps := Steps(r, ops), Calls.Periods(r.sys, Trace(r, ops));
            && n.engine.charged == SerializedCharge(n.engine.windows)
            && n.engine.charged == |Axis(n.engine.windows)|
            && n.engine.charged == Calls.Advance(ps)
            && n.engine.charged == SerializedCharge(n.sys.log)
  {
    RunAgrees(r, ops);
    BracketsAreSolo(r, ops);
    TraceRuns(r, ops);
    Calls.UnionIsFrontierAdvance(r.sys, start, Trace(r, ops));
  }

  /** A second bracket, begun without a coordinate, lies inside what the first one covered. */
  lemma UncoordinatedInside(e: Engine, covered: nat, t: Trip)
    requires e.charged == covered && e.cursor == 0 && Axis(e.windows) == Cells(Interval(0, covered))
    requires t.charged <= covered
    ensures var n := Take(Begin(e, None), t);
            n.charged == covered + t.charged && |Axis(n.windows)| == covered
  {
    UncoordinatedTakeCovers(Begin(e, None), t);
    MergeCells(Interval(0, covered), Interval(0, t.charged));
    CellsCount(Interval(0, covered));
  }

  /**
   * A bracket begun without a coordinate stamps from the engine's own cursor, so its windows may lie
   * on top of coordinated ones: the engine charges both brackets and the union sees only the longer.
   */
  lemma UncoordinatedBracketOverlaps(first: Trip, second: Trip)
    requires 0 < second.charged <= first.charged
    ensures var e := Take(Begin(Take(Begin(NewEngine, Some(0)), first), None), second);
            e.charged == first.charged + second.charged && |Axis(e.windows)| == first.charged
  {
    var start := Begin(NewEngine, Some(0));
    TakeCovers(start, first);
    SetAlgebra(Cells(Interval(0, first.charged)), {}, {});
    assert Axis(start.windows) == {};
    UncoordinatedInside(Take(start, first), first.charged, second);
  }
}
