/**
 * Dropping a plan: how much of the intention stack survives, what is forgotten with the plan, and the
 * trail of replans that got nowhere, which only genuinely new work forgives.
 */
module Replan {
  import opened Options
  import opened Sequences

  datatype Step = Step(goalKind: Option<string>)
  datatype Plan = Plan(id: string, steps: seq<Step>)

  /** A suspended parent: its plan, the sub-goal step that pushed the next frame, its history mark. */
  datatype Frame = Frame(plan: Plan, index: int, mark: nat)

  /** A live condition records the chain of (plan, step) that reaches the frame which declared it. */
  datatype Condition = Condition(declaredBy: seq<(string, int)>, watch: string)

  datatype Superseded = Superseded(plan: Plan, stepIndex: int, frames: seq<(Plan, int)>, defect: Option<string>)

  datatype Call = Call(tool: string, operation: string, params: string)
  datatype Completed = Completed(ok: bool, call: Call)

  /** The bindings the runtime itself provides, whatever plan is in force. */
  const SEEDED_BINDINGS := {"fired_added_ids", "fired_removed_ids", "fired_updated_ids"}

  // ----- which frames a live condition holds -------------------------------------------------

  /** Only a maintenance sub-goal is held; an index outside the plan reads as nothing. */
  predicate Maintenance(frame: Frame) {
    0 <= frame.index < |frame.plan.steps| && frame.plan.steps[frame.index].goalKind == Some("maintenance")
  }

  function Chain(frames: seq<Frame>): (r: seq<(string, int)>)
    ensures |r| == |frames|
  {
    if frames == [] then []
    else Chain(frames[..|frames| - 1]) + [(frames[|frames| - 1].plan.id, frames[|frames| - 1].index)]
  }

  lemma ChainNext(frames: seq<Frame>, i: nat)
    requires i < |frames|
    ensures Chain(frames[..i + 1]) == Chain(frames[..i]) + [(frames[i].plan.id, frames[i].index)]
  {
    TakeNext(frames, i);
  }

  /** Some live condition was declared by the frame at depth `k`, and that frame is held by its conditions. */
  predicate HeldAt(frames: seq<Frame>, conditions: seq<Condition>, k: nat) {
    && 0 < k <= |frames| && Maintenance(frames[k - 1])
    && exists i :: 0 <= i < |conditions| && conditions[i].declaredBy == Chain(frames[..k])
  }

  /** The condition names the outermost `k` frames one by one: plan and sub-goal step. */
  ghost predicate DeclaredAt(c: Condition, frames: seq<Frame>, k: nat) {
    && k <= |frames| && |c.declaredBy| == k
    && forall j :: 0 <= j < k ==> c.declaredBy[j] == (frames[j].plan.id, frames[j].index)
  }

  /** The frame at depth `k` was pushed by a maintenance step, and a live condition names it. */
  ghost predicate Awaited(frames: seq<Frame>, conditions: seq<Condition>, k: nat) {
    && 0 < k <= |frames|
    && (var f := frames[k - 1]; 0 <= f.index < |f.plan.steps| && f.plan.steps[f.index] == Step(Some("maintenance")))
    && exists c :: c in conditions && DeclaredAt(c, frames, k)
  }

  lemma {:induction false} ChainIs(frames: seq<Frame>, c: Condition, k: nat)
    requires k <= |frames|
    ensures c.declaredBy == Chain(frames[..k]) <==> DeclaredAt(c, frames, k)
    decreases k
  {
    if k > 0 && |c.declaredBy| == k {
      var init := c.(declaredBy := c.declaredBy[..k - 1]);
      Unsnoc(c.declaredBy);
      ChainNext(frames, k - 1);
      ChainIs(frames, init, k - 1);
      assert forall j :: 0 <= j < k - 1 ==> init.declaredBy[j] == c.declaredBy[j];
    }
  }

  lemma HeldIsAwaited(frames: seq<Frame>, conditions: seq<Condition>, k: nat)
    ensures HeldAt(frames, conditions, k) <==> Awaited(frames, conditions, k)
  {
    if 0 < k <= |frames| {
      forall c | c in conditions
        ensures c.declaredBy == Chain(frames[..k]) <==> DeclaredAt(c, frames, k)
      {
        ChainIs(frames, c, k);
      }
    }
  }

  /** `held` is the deepest awaited frame of the stack, or zero. */
  ghost predicate IsHeldDepth(frames: seq<Frame>, conditions: seq<Condition>, held: nat) {
    && held <= |frames|
    && (held > 0 ==> Awaited(frames, conditions, held))
    && (forall k: nat :: held < k <= |frames| ==> !Awaited(frames, conditions, k))
  }

  /** The deepest held frame among the first `k`. */
  function HeldUpTo(frames: seq<Frame>, conditions: seq<Condition>, k: nat): (r: nat)
    ensures r <= k
  {
    if k == 0 then 0 else if HeldAt(frames, conditions, k) then k else HeldUpTo(frames, conditions, k - 1)
  }

  function HeldDepth(frames: seq<Frame>, conditions: seq<Condition>): (r: nat)
    ensures r <= |frames|
  {
    HeldUpTo(frames, conditions, |frames|)
  }

  lemma {:induction false} HeldUpToIs(frames: seq<Frame>, conditions: seq<Condition>, n: nat)
    ensures var held := HeldUpTo(frames, conditions, n);
            && (held > 0 ==> HeldAt(frames, conditions, held))
            && (forall k: nat :: held < k <= n ==> !HeldAt(frames, conditions, k))
  {
    if n > 0 && !HeldAt(frames, conditions, n) {
      HeldUpToIs(frames, conditions, n - 1);
    }
  }

  /** What a discard keeps is the longest prefix of the stack that ends in a held frame. */
  lemma KeptIsLongestHeld(frames: seq<Frame>, conditions: seq<Condition>)
    ensures IsHeldDepth(frames, conditions, HeldDepth(frames, conditions))
  {
    HeldUpToIs(frames, conditions, |frames|);
    forall k: nat | k <= |frames|
      ensures HeldAt(frames, conditions, k) <==> Awaited(frames, conditions, k)
    {
      HeldIsAwaited(frames, conditions, k);
    }
  }

  lemma HeldDepthUnique(frames: seq<Frame>, conditions: seq<Condition>, held: nat)
    requires IsHeldDepth(frames, conditions, held)
    ensures held == HeldDepth(frames, conditions)
  {
    KeptIsLongestHeld(frames, conditions);
  }

  lemma HeldInPrefix(frames: seq<Frame>, conditions: seq<Condition>, k: nat, n: nat)
    requires k <= n <= |frames|
    ensures Awaited(frames[..n], conditions, k) <==> Awaited(frames, conditions, k)
  {
    assert frames[..n][..k] == frames[..k];
    HeldIsAwaited(frames, conditions, k);
    HeldIsAwaited(frames[..n], conditions, k);
  }

  /** Counting again over the kept frames keeps every one of them. */
  lemma HeldAgain(frames: seq<Frame>, conditions: seq<Condition>)
    ensures var held := HeldDepth(frames, conditions); HeldDepth(frames[..held], conditions) == held
  {
    var held := HeldDepth(frames, conditions);
    KeptIsLongestHeld(frames, conditions);
    HeldInPrefix(frames, conditions, held, held);
    HeldDepthUnique(frames[..held], conditions, held);
  }

  /** Reason refuses to pop an exhausted frame exactly here. */
  predicate RefusesToPop(frames: seq<Frame>, conditions: seq<Condition>) {
    0 < |frames| == HeldDepth(frames, conditions)
  }

  /** Reason refuses to pop when the frame it is about to leave is itself awaited. */
  lemma RefusesWhenAwaited(frames: seq<Frame>, conditions: seq<Condition>)
    ensures RefusesToPop(frames, conditions) <==> Awaited(frames, conditions, |frames|)
  {
    KeptIsLongestHeld(frames, conditions);
  }

  /**
   * However deep Reason would refuse to pop, a discard keeps at least that much; and what it keeps is
   * empty or is itself a stack Reason would refuse to pop.
   */
  lemma DiscardKeepsWhatReasonHolds(frames: seq<Frame>, conditions: seq<Condition>, k: nat)
    requires k <= |frames|
    ensures var held := HeldDepth(frames, conditions);
            && (RefusesToPop(frames[..k], conditions) ==> k <= held)
            && (held == 0 || RefusesToPop(frames[..held], conditions))
  {
    KeptIsLongestHeld(frames, conditions);
    KeptIsLongestHeld(frames[..k], conditions);
    HeldInPrefix(frames, conditions, k, k);
    HeldAgain(frames, conditions);
  }

  // ----- progress ----------------------------------------------------------------------------

  /** The distinct calls that have succeeded. */
  function Successes(history: seq<Completed>): set<Call> {
    if history == [] then {}
    else
      var last := history[|history| - 1];
      Successes(history[..|history| - 1]) + if last.ok then {last.call} else {}
  }

  lemma {:induction false} SucceededIff(history: seq<Completed>, call: Call)
    ensures call in Successes(history) <==> exists i :: 0 <= i < |history| && history[i].ok && history[i].call == call
  {
    if history != [] {
      var init := history[..|history| - 1];
      SucceededIff(init, call);
      ExistsSnoc(history, init, (c: Completed) => c.ok && c.call == call);
    }
  }

  lemma SuccessesNext(history: seq<Completed>, i: nat)
    requires i < |history|
    ensures Successes(history[..i + 1]) == Successes(history[..i]) + if history[i].ok then {history[i].call} else {}
  {
    TakeNext(history, i);
  }

  lemma {:induction false} SuccessesGrow(history: seq<Completed>, i: nat)
    requires i <= |history|
    ensures Successes(history[..i]) <= Successes(history)
    decreases |history| - i
  {
    if i < |history| {
      SuccessesGrow(history, i + 1);
      SuccessesNext(history, i);
    } else {
      TakeAll(history);
    }
  }

  /** The set of distinct successful calls has grown since `mark`. */
  predicate Progressed(history: seq<Completed>, mark: nat)
    requires mark <= |history|
  {
    Successes(history[..mark]) != Successes(history)
  }

  // ----- what is forgotten with the plan -------------------------------------------------------

  function NoDeeperThan(goals: map<nat, string>, depth: nat): (r: map<nat, string>)
    ensures forall d :: d in r <==> d in goals && d <= depth
    ensures forall d :: d in r ==> r[d] == goals[d]
  {
    map d | d in goals && d <= depth :: goals[d]
  }

  /** The ids a watched change reported are facts about the world; every other binding was the plan's. */
  function SeededOnly(bindings: map<string, string>): (r: map<string, string>)
    ensures forall name :: name in r <==> name in bindings && name in SEEDED_BINDINGS
    ensures forall name :: name in r ==> r[name] == bindings[name]
  {
    map name | name in bindings && name in SEEDED_BINDINGS :: bindings[name]
  }

  /** Only the ids a fired condition reported as added, removed or updated outlive the plan. */
  lemma FiredIdsSurvive(bindings: map<string, string>, name: string)
    ensures name in SeededOnly(bindings) <==>
              && name in bindings
              && (name == "fired_added_ids" || name == "fired_removed_ids" || name == "fired_updated_ids")
  {
  }

  /** The bundle the next inference reads: the plan just dropped, or the earlier one if there was none. */
  function Parked(earlier: Option<Superseded>, plan: Option<Plan>, stepIndex: int, frames: seq<Frame>,
                  defect: Option<string>): Option<Superseded>
  {
    if plan.Some? then Some(Superseded(plan.value, stepIndex, PlansOf(frames), defect)) else earlier
  }

  // ----- the activity ------------------------------------------------------------------------

  datatype Phase = Ready | Running | Blocked
  datatype InferenceKind = Planning | Grounding | Judging

  class Activity {
    var plan: Option<Plan>
    var stepIndex: int
    var parentFrames: seq<Frame>
    var pursuedGoals: map<nat, string>
    var pendingConditions: seq<Condition>
    var conditionBatch: seq<Condition>
    var bindings: map<string, string>
    var history: seq<Completed>
    var noopSubgoals: seq<string>
    var reconsiderBaseline: Option<string>
    var reconsiderVerdict: Option<bool>
    var reconsiderScope: Option<(nat, nat)>
    var superseded: Option<Superseded>
    var pendingInference: Option<InferenceKind>
    var groundedParams: Option<string>
    var phase: Phase
    var replanTrail: seq<Option<string>>
    var replanHistoryMark: nat
    var replanCount: nat

    /** Whether the set of distinct successful calls has grown since the last replan. */
    method ProgressedSinceReplan() returns (progressed: bool)
      requires replanHistoryMark <= |history|
      ensures progressed <==> Progressed(history, replanHistoryMark)
    {
      for i := replanHistoryMark to |history|
        invariant Successes(history[..i]) == Successes(history[..replanHistoryMark])
      {
        SuccessesNext(history, i);
        SucceededIff(history[..i], history[i].call);
        if history[i].ok {
          var seen := exists j :: 0 <= j < i && history[j].ok && history[j].call == history[i].call;
          if !seen {
            SuccessesGrow(history, i + 1);
            assert history[i].call in Successes(history);
            return true;
          }
        }
      }
      TakeAll(history);
      return false;
    }

    method ClearReplanTrail()
      modifies `replanTrail, `replanHistoryMark
      ensures replanTrail == [] && replanHistoryMark == |history|
    {
      replanTrail, replanHistoryMark := [], |history|;
    }

    method FramesHeldByConditions() returns (held: nat)
      ensures held == HeldDepth(parentFrames, pendingConditions)
    {
      held := 0;
      var key: seq<(string, int)> := [];
      for depth := 1 to |parentFrames| + 1
        invariant key == Chain(parentFrames[..depth - 1])
        invariant held < depth && (held > 0 ==> Awaited(parentFrames, pendingConditions, held))
        invariant forall k: nat :: held < k < depth ==> !Awaited(parentFrames, pendingConditions, k)
      {
        var frame := parentFrames[depth - 1];
        ChainNext(parentFrames, depth - 1);
        key := key + [(frame.plan.id, frame.index)];
        HeldIsAwaited(parentFrames, pendingConditions, depth);
        if Maintenance(frame) && exists i :: 0 <= i < |pendingConditions| && pendingConditions[i].declaredBy == key {
          held := depth;
        }
      }
      HeldDepthUnique(parentFrames, pendingConditions, held);
    }

    /** Invalidate an inference in flight, its late result and whatever it already parked. */
    method DiscardInference()
      modifies `pendingInference, `groundedParams, `conditionBatch
      ensures pendingInference == None && groundedParams == None
      ensures conditionBatch == if old(pendingInference) == Some(Judging) then [] else old(conditionBatch)
    {
      if pendingInference == Some(Judging) {
        conditionBatch := [];
      }
      pendingInference, groundedParams := None, None;
    }

    /** An activity that was inferring is ready again. */
    method StopInferring()
      modifies `pendingInference, `groundedParams, `conditionBatch, `phase
      ensures pendingInference == None && groundedParams == None
      ensures conditionBatch == if old(pendingInference) == Some(Judging) then [] else old(conditionBatch)
      ensures phase == if old(pendingInference).Some? then Ready else old(phase)
    {
      var wasInferring := pendingInference.Some?;
      DiscardInference();
      if wasInferring {
        phase := Ready;
      }
    }

    /** Keep the dropped plan for the next inference to read. */
    method ParkPlan(defect: Option<string>)
      modifies `plan, `stepIndex, `superseded
      ensures plan == None && stepIndex == 0
      ensures superseded == Parked(old(superseded), old(plan), old(stepIndex), parentFrames, defect)
    {
      if plan.Some? {
        superseded := Some(Superseded(plan.value, stepIndex, PlansOf(parentFrames), defect));
      }
      plan, stepIndex := None, 0;
    }

    /** Cut the stack to its held prefix, and the commitments with it. */
    method DropStack()
      modifies `parentFrames, `pursuedGoals
      ensures parentFrames == old(parentFrames)[..HeldDepth(old(parentFrames), pendingConditions)]
      ensures pursuedGoals == NoDeeperThan(old(pursuedGoals), |parentFrames|)
    {
      var held := FramesHeldByConditions();
      parentFrames := parentFrames[..held];
      pursuedGoals := NoDeeperThan(pursuedGoals, |parentFrames|);
    }

    /** What only meant something within the plan goes with it. */
    method ForgetPlan()
      modifies `bindings, `noopSubgoals, `reconsiderBaseline, `reconsiderVerdict, `reconsiderScope
      ensures bindings == SeededOnly(old(bindings))
      ensures noopSubgoals == [] && reconsiderBaseline == None && reconsiderVerdict == None && reconsiderScope == None
    {
      bindings, noopSubgoals := SeededOnly(bindings), [];
      reconsiderBaseline, reconsiderVerdict, reconsiderScope := None, None, None;
    }

    /** The plan, its stack and its bindings, as opposed to the replan bookkeeping. */
    method DropPlan(defect: Option<string>)
      modifies `plan, `stepIndex, `superseded, `parentFrames, `pursuedGoals
      modifies `bindings, `noopSubgoals, `reconsiderBaseline, `reconsiderVerdict, `reconsiderScope
      ensures plan == None && stepIndex == 0
      ensures superseded == Parked(old(superseded), old(plan), old(stepIndex), old(parentFrames), defect)
      ensures parentFrames == old(parentFrames)[..HeldDepth(old(parentFrames), pendingConditions)]
      ensures pursuedGoals == NoDeeperThan(old(pursuedGoals), |parentFrames|)
      ensures bindings == SeededOnly(old(bindings))
      ensures noopSubgoals == [] && reconsiderBaseline == None && reconsiderVerdict == None && reconsiderScope == None
    {
      ParkPlan(defect);
      DropStack();
      ForgetPlan();
    }

    method ExtendTrail(defect: Option<string>)
      requires replanHistoryMark <= |history|
      modifies `replanTrail, `replanHistoryMark, `replanCount
      ensures replanHistoryMark == |history| && replanCount == old(replanCount) + 1
      ensures replanTrail == (if Progressed(history, old(replanHistoryMark)) then [] else old(replanTrail)) + [defect]
    {
      replanCount := replanCount + 1;
      var progressed := ProgressedSinceReplan();
      if progressed {
        replanTrail := [];
      }
      replanTrail := replanTrail + [defect];
      replanHistoryMark := |history|;
    }

    method ResetForReplan(defect: Option<string>)
      requires replanHistoryMark <= |history|
      modifies `plan, `stepIndex, `superseded, `parentFrames, `pursuedGoals
      modifies `bindings, `noopSubgoals, `reconsiderBaseline, `reconsiderVerdict, `reconsiderScope
      modifies `replanTrail, `replanHistoryMark, `replanCount
      modifies `pendingInference, `groundedParams, `conditionBatch, `phase
      // the plan, and what is kept of it for the next inference
      ensures plan == None && stepIndex == 0
      ensures superseded == Parked(old(superseded), old(plan), old(stepIndex), old(parentFrames), defect)
      // the stack: the longest prefix that ends in a held frame
      ensures parentFrames == old(parentFrames)[..HeldDepth(old(parentFrames), pendingConditions)]
      // commitments no deeper than the stack, and only those
      ensures pursuedGoals == NoDeeperThan(old(pursuedGoals), |parentFrames|)
      // only what the runtime seeded stays bound
      ensures bindings == SeededOnly(old(bindings))
      ensures noopSubgoals == [] && reconsiderBaseline == None && reconsiderVerdict == None && reconsiderScope == None
      // the trail
      ensures replanCount == old(replanCount) + 1 && replanHistoryMark == |history|
      ensures replanTrail == (if Progressed(history, old(replanHistoryMark)) then [] else old(replanTrail)) + [defect]
      // inference and phase
      ensures pendingInference == None && groundedParams == None
      ensures conditionBatch == if old(pendingInference) == Some(Judging) then [] else old(conditionBatch)
      ensures phase == if old(pendingInference).Some? then Ready else old(phase)
    {
      DropPlan(defect);
      ExtendTrail(defect);
      StopInferring();
    }
  }

  function PlansOf(frames: seq<Frame>): (r: seq<(Plan, int)>)
    ensures |r| == |frames| && forall i :: 0 <= i < |frames| ==> r[i] == (frames[i].plan, frames[i].index)
  {
    if frames == [] then []
    else PlansOf(frames[..|frames| - 1]) + [(frames[|frames| - 1].plan, frames[|frames| - 1].index)]
  }

  // ----- how many replans a run can forgive --------------------------------------------------

  /** What a run does to the trail: an operation completes, a plan is dropped, or new direction arrives. */
  datatype Event = Complete(done: Completed) | Reset(defect: Option<string>) | Clear

  datatype Run = Run(
    history: seq<Completed>, trail: seq<Option<string>>, mark: nat,
    replans: nat, forgiven: nat, cleared: nat, longest: nat)

  const FreshRun := Run([], [], 0, 0, 0, 0, 0)

  function After(r: Run, e: Event): Run
    requires r.mark <= |r.history|
  {
    match e
    case Complete(done) => r.(history := r.history + [done])
    case Reset(defect) =>
      var trail := (if Progressed(r.history, r.mark) then [] else r.trail) + [defect];
      r.(trail := trail, mark := |r.history|, replans := r.replans + 1,
         forgiven := r.forgiven + if Progressed(r.history, r.mark) then 1 else 0,
         longest := if r.longest < |trail| then |trail| else r.longest)
    case Clear => r.(trail := [], mark := |r.history|, cleared := r.cleared + 1)
  }

  function Replay(events: seq<Event>): (r: Run)
    ensures r.mark <= |r.history|
  {
    if events == [] then FreshRun else After(Replay(events[..|events| - 1]), events[|events| - 1])
  }

  function ResetsIn(events: seq<Event>): nat {
    if events == [] then 0 else ResetsIn(events[1..]) + if events[0].Reset? then 1 else 0
  }

  function ClearsIn(events: seq<Event>): nat {
    if events == [] then 0 else ClearsIn(events[1..]) + if events[0].Clear? then 1 else 0
  }

  /** A run counts every plan dropped and every new direction given, wherever they fall. */
  lemma {:induction false} RunCounts(events: seq<Event>)
    ensures Replay(events).replans == ResetsIn(events) && Replay(events).cleared == ClearsIn(events)
  {
    if events != [] {
      var init := events[..|events| - 1];
      RunCounts(init);
      Unsnoc(events);
      CountsSnoc(init, events[|events| - 1]);
    }
  }

  lemma {:induction false} CountsSnoc(events: seq<Event>, e: Event)
    ensures ResetsIn(events + [e]) == ResetsIn(events) + if e.Reset? then 1 else 0
    ensures ClearsIn(events + [e]) == ClearsIn(events) + if e.Clear? then 1 else 0
  {
    if events != [] {
      CountsSnoc(events[1..], e);
      assert (events + [e])[1..] == events[1..] + [e];
    }
  }

  /** Every forgiving replan saw a call succeed that no earlier replan had. */
  lemma {:induction false} ForgivenAreNovel(events: seq<Event>)
    ensures var r := Replay(events); r.forgiven <= |Successes(r.history[..r.mark])|
  {
    if events != [] {
      var before, e := Replay(events[..|events| - 1]), events[|events| - 1];
      ForgivenAreNovel(events[..|events| - 1]);
      SuccessesGrow(before.history, before.mark);
      ProperlyLarger(Successes(before.history[..before.mark]), Successes(before.history));
      match e
      case Complete(done) => assert (before.history + [done])[..before.mark] == before.history[..before.mark];
      case _ => TakeAll(before.history);
    }
  }

  /** The replans fall into stretches, each ended by forgiveness or by a clear, none longer than the trail got. */
  lemma {:induction false} Stretches(events: seq<Event>)
    ensures var r := Replay(events);
            r.replans <= (r.forgiven + r.cleared) * r.longest + |r.trail| && |r.trail| <= r.longest
  {
    if events != [] {
      var before := Replay(events[..|events| - 1]);
      Stretches(events[..|events| - 1]);
      var r := Replay(events);
      Product(before.forgiven + before.cleared, before.longest, r.longest);
    }
  }

  lemma Product(n: nat, small: nat, large: nat)
    requires small <= large
    ensures n * small <= n * large && (n + 1) * large == n * large + large
  {
  }

  lemma SuccessesBound(r: Run)
    requires r.mark <= |r.history|
    ensures |Successes(r.history[..r.mark])| <= |Successes(r.history)|
  {
    SuccessesGrow(r.history, r.mark);
    ProperlyLarger(Successes(r.history[..r.mark]), Successes(r.history));
  }

  lemma {:induction false} NeverLonger(events: seq<Event>, j: nat)
    requires j <= |events|
    ensures |Replay(events[..j]).trail| <= Replay(events).longest
  {
    if j == |events| {
      TakeAll(events);
      Stretches(events);
    } else {
      var init := events[..|events| - 1];
      assert init[..j] == events[..j];
      NeverLonger(init, j);
    }
  }

  /** The recorded maximum is a length the trail really had, and it never had a greater one. */
  lemma {:induction false} LongestReached(events: seq<Event>) returns (k: nat)
    ensures k <= |events| && |Replay(events[..k]).trail| == Replay(events).longest
    ensures forall j :: 0 <= j <= |events| ==> |Replay(events[..j]).trail| <= Replay(events).longest
  {
    forall j | 0 <= j <= |events|
      ensures |Replay(events[..j]).trail| <= Replay(events).longest
    {
      NeverLonger(events, j);
    }
    k := 0;
    if events != [] {
      var init := events[..|events| - 1];
      k := LongestReached(init);
      if Replay(events).longest > Replay(init).longest {
        k := |events|;
        TakeAll(events);
      } else {
        assert init[..k] == events[..k];
      }
    }
  }

  /**
   * With K distinct successful calls, R replans and C clears, the trail at some point reached
   * R / (K + C + 1): an agent that keeps dropping plans without doing anything new must trip a breaker.
   */
  lemma TrailMustGrow(events: seq<Event>, r: Run)
    requires r == Replay(events)
    ensures r.forgiven <= |Successes(r.history)|
    ensures ResetsIn(events) <= (|Successes(r.history)| + ClearsIn(events) + 1) * r.longest
  {
    ForgivenWithinDistinct(events, r);
    RunBound(events, r, ResetsIn(events), ClearsIn(events), |Successes(r.history)|);
  }

  lemma RunBound(events: seq<Event>, r: Run, resets: nat, clears: nat, distinct: nat)
    requires r == Replay(events) && r.forgiven <= distinct
    requires resets == ResetsIn(events) && clears == ClearsIn(events)
    ensures resets <= (distinct + clears + 1) * r.longest
  {
    RunCounts(events);
    Stretches(events);
    Bound(resets, r.forgiven, clears, distinct, r.longest, |r.trail|);
  }

  lemma ForgivenWithinDistinct(events: seq<Event>, r: Run)
    requires r == Replay(events)
    ensures r.forgiven <= |Successes(r.history)|
  {
    ForgivenAreNovel(events);
    SuccessesBound(r);
  }

  lemma Bound(replans: nat, forgiven: nat, cleared: nat, distinct: nat, longest: nat, trail: nat)
    requires replans <= (forgiven + cleared) * longest + trail && trail <= longest && forgiven <= distinct
    ensures replans <= (distinct + cleared + 1) * longest
  {
    var n, k := forgiven + cleared, distinct + cleared;
    assert k * longest == n * longest + (k - n) * longest;
    assert (k + 1) * longest == k * longest + longest;
  }
}
