/**
 * The viability guard: before a write, does the rest of the plan read data that provably is not
 * there? It scans the active frame and then every suspended parent, in the order they resume.
 */
module PlanGuard {
  import opened Options
  import opened Sequences
  import opened Values
  import opened References

  datatype PlanStep = PlanStep(action: string, params: seq<Entry>)

  /** A plan and the step it is at. */
  datatype Frame = Frame(steps: seq<PlanStep>, index: nat)

  /** `parents` are outermost first, each at the step that pushed the frame above it. */
  datatype Activity = Activity(
    plan: Option<Frame>,
    parents: seq<Frame>,
    history: seq<Completed>,
    bindings: map<string, Value>)

  const INVOKE := "invoke"

  predicate IsCollectionKey(key: string) {
    key == "in" || key == "where" || key == "from"
  }

  function TextOf(v: Option<Value>): Option<string> {
    if v.Some? && v.value.Str? then Some(v.value.s) else None
  }

  function Output(step: PlanStep): Option<string> {
    TextOf(Lookup(step.params, "out"))
  }

  function Invoked(step: PlanStep): Option<string> {
    if step.action == INVOKE then TextOf(Lookup(step.params, "operation_name")) else None
  }

  // ----- what a step reads values out of ----------------------------------------------------

  /** Binding names read at any depth; the loop element of a fan-out is not one of them. */
  function BoundNames(v: Value, loop: Option<Value>): set<string>
    decreases v, 1
  {
    match v
    case Dict(entries) =>
      var name := TextOf(Lookup(entries, BIND));
      if name.Some? then (if loop == Some(Str(name.value)) then {} else {name.value})
      else BoundInEntries(entries, loop)
    case List(items) => BoundInItems(items, loop)
    case _ => {}
  }

  function BoundInItems(items: seq<Value>, loop: Option<Value>): set<string>
    decreases items, 0
  {
    if items == [] then {}
    else BoundInItems(items[..|items| - 1], loop) + BoundNames(items[|items| - 1], loop)
  }

  function BoundInEntries(entries: seq<Entry>, loop: Option<Value>): set<string>
    decreases entries, 0
  {
    if entries == [] then {}
    else BoundInEntries(entries[..|entries| - 1], loop) + BoundNames(entries[|entries| - 1].value, loop)
  }

  /** The `$from` references read at any depth. */
  function OperationRefs(v: Value): (r: seq<Value>)
    ensures forall ref :: ref in r ==> TextOf(Get(ref, FROM)).Some?
    decreases v, 1
  {
    match v
    case Dict(entries) =>
      if TextOf(Lookup(entries, FROM)).Some? then [v] else RefsInEntries(entries)
    case List(items) => RefsInItems(items)
    case _ => []
  }

  function RefsInItems(items: seq<Value>): (r: seq<Value>)
    ensures forall ref :: ref in r ==> TextOf(Get(ref, FROM)).Some?
    decreases items, 0
  {
    if items == [] then [] else RefsInItems(items[..|items| - 1]) + OperationRefs(items[|items| - 1])
  }

  function RefsInEntries(entries: seq<Entry>): (r: seq<Value>)
    ensures forall ref :: ref in r ==> TextOf(Get(ref, FROM)).Some?
    decreases entries, 0
  {
    if entries == [] then []
    else RefsInEntries(entries[..|entries| - 1]) + OperationRefs(entries[|entries| - 1].value)
  }

  function ValueParams(params: seq<Entry>): (r: seq<Entry>) {
    if params == [] then []
    else
      var last := params[|params| - 1];
      ValueParams(params[..|params| - 1]) + if IsCollectionKey(last.key) then [] else [last]
  }

  function DereferencedBindings(step: PlanStep): set<string> {
    BoundInEntries(ValueParams(step.params), Lookup(step.params, "as"))
  }

  function DereferencedOperations(step: PlanStep): (r: seq<Value>)
    ensures forall ref :: ref in r ==> TextOf(Get(ref, FROM)).Some?
  {
    RefsInEntries(ValueParams(step.params))
  }

  function OperationName(ref: Value): string
    requires TextOf(Get(ref, FROM)).Some?
  {
    TextOf(Get(ref, FROM)).value
  }

  /** The named operation already ran, nothing scanned so far re-runs it, and it yielded nothing here. */
  predicate Spent(ref: Value, history: seq<Completed>, refreshed: set<string>)
    requires TextOf(Get(ref, FROM)).Some?
  {
    var name := OperationName(ref);
    var result := LatestResult(history, name);
    && name !in refreshed && Tail(name) !in refreshed
    && result.Some?
    && (IsEmpty(result.value) ||
        (var walked := WalkPath(result.value, PathText(ref)); walked.Some? && IsEmpty(walked.value)))
  }

  // ----- exactly what a step reads ---------------------------------------------------------

  predicate Binds(v: Value) { TextOf(Get(v, BIND)).Some? }

  predicate Asks(v: Value) { TextOf(Get(v, FROM)).Some? }

  /** A reference to this binding occurs in `v`, at any depth. */
  ghost predicate ReadsName(v: Value, name: string) {
    exists x :: Occurs(v, x, Binds) && Get(x, BIND) == Some(Str(name))
  }

  lemma {:induction false} BoundNamesMean(v: Value, loop: Option<Value>)
    ensures forall name :: name in BoundNames(v, loop) <==> loop != Some(Str(name)) && ReadsName(v, name)
    decreases v, 1
  {
    match v {
      case Dict(entries) => BoundInEntriesMeans(entries, loop);
      case List(items) => BoundInItemsMeans(items, loop);
      case _ =>
    }
    forall name
      ensures name in BoundNames(v, loop) <==> loop != Some(Str(name)) && ReadsName(v, name)
    {
      ReadsNameIff(v, name);
    }
  }

  lemma ReadsNameIff(v: Value, name: string)
    ensures Binds(v) ==> (ReadsName(v, name) <==> Get(v, BIND) == Some(Str(name)))
    ensures !Binds(v) && v.List? ==>
              (ReadsName(v, name) <==> exists i: nat :: i < |v.items| && ReadsName(v.items[i], name))
    ensures !Binds(v) && v.Dict? ==>
              (ReadsName(v, name) <==> exists i: nat :: i < |v.entries| && ReadsName(v.entries[i].value, name))
    ensures !Binds(v) && !v.List? && !v.Dict? ==> !ReadsName(v, name)
  {
    if Binds(v) {
      OccursIff(v, v, Binds);
      forall x | Occurs(v, x, Binds)
        ensures x == v
      {
        OccursIff(v, x, Binds);
      }
    } else {
      forall x
        ensures v.List? ==> (Occurs(v, x, Binds) <==> exists i: nat :: i < |v.items| && Occurs(v.items[i], x, Binds))
        ensures v.Dict? ==>
                  (Occurs(v, x, Binds) <==> exists i: nat :: i < |v.entries| && Occurs(v.entries[i].value, x, Binds))
        ensures !v.List? && !v.Dict? ==> !Occurs(v, x, Binds)
      {
        OccursInside(v, x, Binds);
      }
    }
  }

  lemma {:induction false} BoundInItemsMeans(items: seq<Value>, loop: Option<Value>)
    ensures forall name :: name in BoundInItems(items, loop) <==>
              loop != Some(Str(name)) && exists i: nat :: i < |items| && ReadsName(items[i], name)
    decreases items, 0
  {
    if items != [] {
      BoundInItemsMeans(items[..|items| - 1], loop);
      BoundNamesMean(items[|items| - 1], loop);
    }
  }

  lemma {:induction false} BoundInEntriesMeans(entries: seq<Entry>, loop: Option<Value>)
    ensures forall name :: name in BoundInEntries(entries, loop) <==>
              loop != Some(Str(name)) && exists i: nat :: i < |entries| && ReadsName(entries[i].value, name)
    decreases entries, 0
  {
    if entries != [] {
      BoundInEntriesMeans(entries[..|entries| - 1], loop);
      BoundNamesMean(entries[|entries| - 1].value, loop);
    }
  }

  lemma {:induction false} OperationRefsMean(v: Value)
    ensures forall x :: x in OperationRefs(v) <==> Occurs(v, x, Asks)
    decreases v, 1
  {
    match v {
      case Dict(entries) => RefsInEntriesMean(entries);
      case List(items) => RefsInItemsMean(items);
      case _ =>
    }
    forall x
      ensures x in OperationRefs(v) <==> Occurs(v, x, Asks)
    {
      if Asks(v) {
        OccursIff(v, x, Asks);
      } else {
        OccursInside(v, x, Asks);
      }
    }
  }

  lemma {:induction false} RefsInItemsMean(items: seq<Value>)
    ensures forall x :: x in RefsInItems(items) <==> exists i: nat :: i < |items| && Occurs(items[i], x, Asks)
    decreases items, 0
  {
    if items != [] {
      RefsInItemsMean(items[..|items| - 1]);
      OperationRefsMean(items[|items| - 1]);
    }
  }

  lemma {:induction false} RefsInEntriesMean(entries: seq<Entry>)
    ensures forall x :: x in RefsInEntries(entries) <==>
              exists i: nat :: i < |entries| && Occurs(entries[i].value, x, Asks)
    decreases entries, 0
  {
    if entries != [] {
      RefsInEntriesMean(entries[..|entries| - 1]);
      OperationRefsMean(entries[|entries| - 1].value);
    }
  }

  lemma {:induction false} ValueParamsHas(params: seq<Entry>)
    ensures forall p :: p in ValueParams(params) <==> p in params && p.key !in {"in", "where", "from"}
  {
    if params != [] {
      ValueParamsHas(params[..|params| - 1]);
    }
  }

  /** Some parameter outside the collection positions satisfies `reads`. */
  ghost predicate SomeParam(step: PlanStep, i: nat) {
    i < |step.params| && step.params[i].key !in {"in", "where", "from"}
  }

  /**
   * What a step reads a value out of: the bindings and the operations referred to at any depth of its
   * parameters, except in the positions of a collection, and except its own loop element.
   */
  lemma StepReads(step: PlanStep)
    ensures forall name :: name in DereferencedBindings(step) <==>
              Lookup(step.params, "as") != Some(Str(name))
              && exists i: nat :: SomeParam(step, i) && ReadsName(step.params[i].value, name)
    ensures forall x :: x in DereferencedOperations(step) <==>
              exists i: nat :: SomeParam(step, i) && Occurs(step.params[i].value, x, Asks)
  {
    var kept := ValueParams(step.params);
    ValueParamsHas(step.params);
    BoundInEntriesMeans(kept, Lookup(step.params, "as"));
    RefsInEntriesMean(kept);
    forall i: nat | i < |kept|
      ensures exists j: nat :: SomeParam(step, j) && step.params[j] == kept[i]
    {
      assert kept[i] in kept;
    }
    forall j: nat | SomeParam(step, j)
      ensures exists i: nat :: i < |kept| && kept[i] == step.params[j]
    {
      assert step.params[j] in kept;
    }
  }

  // ----- the scan --------------------------------------------------------------------------

  datatype Reason = DeadBindings(names: set<string>) | SpentOperation(ref: Value)

  datatype Verdict = Verdict(at: nat, reason: Reason)

  function EmptyNames(bindings: map<string, Value>): set<string> {
    set name | name in bindings && IsEmpty(bindings[name])
  }

  function EmptyAfter(empty: set<string>, step: PlanStep): set<string> {
    if Output(step).Some? then empty - {Output(step).value} else empty
  }

  function RefreshedAfter(refreshed: set<string>, step: PlanStep): set<string> {
    if Invoked(step).Some? then refreshed + {Invoked(step).value} else refreshed
  }

  function EmptyBefore(bindings: map<string, Value>, steps: seq<PlanStep>): set<string> {
    if steps == [] then EmptyNames(bindings)
    else EmptyAfter(EmptyBefore(bindings, steps[..|steps| - 1]), steps[|steps| - 1])
  }

  function RefreshedBefore(steps: seq<PlanStep>): set<string> {
    if steps == [] then {} else RefreshedAfter(RefreshedBefore(steps[..|steps| - 1]), steps[|steps| - 1])
  }

  function FirstSpent(refs: seq<Value>, history: seq<Completed>, refreshed: set<string>): (r: Option<Value>)
    requires forall ref :: ref in refs ==> TextOf(Get(ref, FROM)).Some?
    ensures r.Some? ==> r.value in refs && Spent(r.value, history, refreshed)
    ensures r.None? ==> forall ref :: ref in refs ==> !Spent(ref, history, refreshed)
  {
    if refs == [] then None
    else if Spent(refs[0], history, refreshed) then Some(refs[0])
    else FirstSpent(refs[1..], history, refreshed)
  }

  /** What is provably dead at one step, given what the steps before it may have changed. */
  function Judge(step: PlanStep, empty: set<string>, history: seq<Completed>, refreshed: set<string>): Option<Reason> {
    var dead := DereferencedBindings(step) * empty;
    if dead != {} then Some(DeadBindings(dead))
    else
      var spent := FirstSpent(DereferencedOperations(step), history, refreshed);
      if spent.Some? then Some(SpentOperation(spent.value)) else None
  }

  function JudgeAt(a: Activity, steps: seq<PlanStep>, k: nat): Option<Reason>
    requires k < |steps|
  {
    Judge(steps[k], EmptyBefore(a.bindings, steps[..k]), a.history, RefreshedBefore(steps[..k]))
  }

  function StepsFrom(f: Frame, from: nat): seq<PlanStep> {
    if from <= |f.steps| then f.steps[from..] else []
  }

  /** What each frame still has to run, in the order the frames resume: innermost parent first. */
  function ParentPieces(parents: seq<Frame>): seq<seq<PlanStep>> {
    if parents == [] then []
    else
      var inner := parents[|parents| - 1];
      [StepsFrom(inner, inner.index + 1)] + ParentPieces(parents[..|parents| - 1])
  }

  function Pieces(a: Activity): seq<seq<PlanStep>> {
    if a.plan.None? then [] else [StepsFrom(a.plan.value, a.plan.value.index)] + ParentPieces(a.parents)
  }

  function Concat<T>(pieces: seq<seq<T>>): seq<T> {
    if pieces == [] then [] else Concat(pieces[..|pieces| - 1]) + pieces[|pieces| - 1]
  }

  function Offset<T>(pieces: seq<seq<T>>, k: nat): nat
    requires k <= |pieces|
  {
    |Concat(pieces[..k])|
  }

  lemma {:induction false} ConcatPrefix<T>(pieces: seq<seq<T>>, k: nat)
    requires k <= |pieces|
    ensures |Concat(pieces[..k])| <= |Concat(pieces)|
    ensures Concat(pieces)[..|Concat(pieces[..k])|] == Concat(pieces[..k])
    decreases |pieces| - k
  {
    if k == |pieces| {
      TakeAll(pieces);
    } else {
      ConcatPrefix(pieces, k + 1);
      TakeNext(pieces, k);
    }
  }

  lemma PiecePosition<T>(pieces: seq<seq<T>>, k: nat)
    requires k < |pieces|
    ensures Offset(pieces, k + 1) == Offset(pieces, k) + |pieces[k]| <= |Concat(pieces)|
    ensures forall i :: 0 <= i < |pieces[k]| ==> Concat(pieces)[Offset(pieces, k) + i] == pieces[k][i]
  {
    ConcatPrefix(pieces, k + 1);
    TakeNext(pieces, k);
    var upTo := Concat(pieces[..k + 1]);
    assert upTo == Concat(pieces[..k]) + pieces[k];
    forall i | 0 <= i < |pieces[k]|
      ensures Concat(pieces)[Offset(pieces, k) + i] == pieces[k][i]
    {
      assert Concat(pieces)[..|upTo|][Offset(pieces, k) + i] == upTo[Offset(pieces, k) + i];
    }
  }

  function Remaining(a: Activity): seq<PlanStep> {
    Concat(Pieces(a))
  }

  /** Step `k` has something dead, and no step before it does. */
  ghost predicate FirstAt(a: Activity, all: seq<PlanStep>, k: nat, reason: Reason) {
    && k < |all|
    && JudgeAt(a, all, k) == Some(reason)
    && (forall j :: 0 <= j < k ==> JudgeAt(a, all, j) == None)
  }

  /** The guard's answer: the first step with something provably dead, or none at all. */
  ghost predicate Answers(a: Activity, r: Option<Verdict>) {
    var steps := Remaining(a);
    match r
    case None => forall k :: 0 <= k < |steps| ==> JudgeAt(a, steps, k) == None
    case Some(v) => FirstAt(a, steps, v.at, v.reason)
  }

  /** The first `k` steps have been scanned and nothing was dead. */
  ghost predicate Scanned(a: Activity, all: seq<PlanStep>, k: nat, empty: set<string>, refreshed: set<string>) {
    && k <= |all|
    && empty == EmptyBefore(a.bindings, all[..k])
    && refreshed == RefreshedBefore(all[..k])
    && (forall j :: 0 <= j < k ==> JudgeAt(a, all, j) == None)
  }

  /** `steps` are the steps of `all` from position `base` on. */
  ghost predicate LiesAt(all: seq<PlanStep>, base: nat, steps: seq<PlanStep>) {
    base + |steps| <= |all| && forall i :: 0 <= i < |steps| ==> all[base + i] == steps[i]
  }

  lemma ScanStep(a: Activity, all: seq<PlanStep>, k: nat, step: PlanStep, empty: set<string>,
                 refreshed: set<string>, reason: Option<Reason>)
    requires Scanned(a, all, k, empty, refreshed) && k < |all| && all[k] == step
    requires Judge(step, empty, a.history, refreshed) == reason
    ensures reason.Some? ==> FirstAt(a, all, k, reason.value)
    ensures reason.None? ==> Scanned(a, all, k + 1, EmptyAfter(empty, step), RefreshedAfter(refreshed, step))
  {
    TakeNext(all, k);
    assert JudgeAt(a, all, k) == reason;
  }

  /** What scanning one step without anything dead changes. */
  method Note(step: PlanStep, empty0: set<string>, refreshed0: set<string>)
    returns (empty: set<string>, refreshed: set<string>)
    ensures empty == EmptyAfter(empty0, step) && refreshed == RefreshedAfter(refreshed0, step)
  {
    empty, refreshed := empty0, refreshed0;
    if Output(step).Some? {
      empty := empty - {Output(step).value};
    }
    if Invoked(step).Some? {
      refreshed := refreshed + {Invoked(step).value};
    }
  }

  /** Scan one frame from where the earlier frames left off. */
  method ScanFrame(a: Activity, ghost all: seq<PlanStep>, ghost base: nat, steps: seq<PlanStep>,
                   empty0: set<string>, refreshed0: set<string>)
    returns (reason: Option<Reason>, index: nat, empty: set<string>, refreshed: set<string>)
    requires Scanned(a, all, base, empty0, refreshed0) && LiesAt(all, base, steps)
    ensures reason.None? ==> Scanned(a, all, base + |steps|, empty, refreshed)
    ensures reason.Some? ==> FirstAt(a, all, base + index, reason.value)
  {
    empty, refreshed, index, reason := empty0, refreshed0, 0, None;
    while index < |steps|
      invariant index <= |steps| && reason == None
      invariant Scanned(a, all, base + index, empty, refreshed)
    {
      var step := steps[index];
      reason := Judge(step, empty, a.history, refreshed);
      ScanStep(a, all, base + index, step, empty, refreshed, reason);
      if reason.Some? {
        return;
      }
      empty, refreshed := Note(step, empty, refreshed);
      index := index + 1;
    }
  }

  lemma FrameLies(a: Activity, k: nat)
    requires k < |Pieces(a)|
    ensures Offset(Pieces(a), k + 1) == Offset(Pieces(a), k) + |Pieces(a)[k]|
    ensures LiesAt(Remaining(a), Offset(Pieces(a), k), Pieces(a)[k])
  {
    PiecePosition(Pieces(a), k);
  }

  lemma ScanStarts(a: Activity)
    ensures Offset(Pieces(a), 0) == 0 && Scanned(a, Remaining(a), 0, EmptyNames(a.bindings), {})
  {
    assert Pieces(a)[..0] == [] && Remaining(a)[..0] == [];
  }

  lemma ScanEnds(a: Activity, empty: set<string>, refreshed: set<string>)
    requires Scanned(a, Remaining(a), Offset(Pieces(a), |Pieces(a)|), empty, refreshed)
    ensures Answers(a, None)
  {
    TakeAll(Pieces(a));
  }

  method UnsatisfiableReference(a: Activity) returns (r: Option<Verdict>)
    ensures Answers(a, r)
  {
    var frames := Pieces(a);
    ghost var all := Remaining(a);
    ScanStarts(a);
    var empty, refreshed: set<string> := EmptyNames(a.bindings), {};
    var at: nat := 0;
    for k := 0 to |frames|
      invariant at == Offset(frames, k)
      invariant Scanned(a, all, at, empty, refreshed)
    {
      FrameLies(a, k);
      var reason, index;
      reason, index, empty, refreshed := ScanFrame(a, all, at, frames[k], empty, refreshed);
      if reason.Some? {
        return Some(Verdict(at + index, reason.value));
      }
      at := at + |frames[k]|;
    }
    ScanEnds(a, empty, refreshed);
    return None;
  }

  // ----- executing the rest of the plan ----------------------------------------------------

  /** What one execution of a step may bring about: who answered, with what, and what it bound. */
  datatype Effect = Effect(tool: string, result: Value, output: Value)

  /** An invoke of a named operation is answered and remembered; whatever has a named output binds it. */
  function Execute(w: World, step: PlanStep, e: Effect): World {
    var operation, out := Lookup(step.params, "operation_name"), Lookup(step.params, "out");
    var history :=
      if step.action == "invoke" && operation.Some? && operation.value.Str?
      then w.history + [Completed(e.tool, operation.value.s, e.result)]
      else w.history;
    var bindings := if out.Some? && out.value.Str? then w.bindings[out.value.s := e.output] else w.bindings;
    World(history, bindings, w.properties)
  }

  function ExecuteAll(w: World, steps: seq<PlanStep>, es: seq<Effect>): World
    requires |es| == |steps|
  {
    if steps == [] then w
    else
      Execute(ExecuteAll(w, steps[..|steps| - 1], es[..|es| - 1]), steps[|steps| - 1], es[|es| - 1])
  }

  ghost predicate BoundEmpty(w: World, name: string) {
    name in w.bindings && IsEmpty(w.bindings[name])
  }

  /** A name the scan still counts as empty is empty whatever the steps before return. */
  lemma {:induction false} StaysEmpty(w: World, steps: seq<PlanStep>, es: seq<Effect>)
    requires |es| == |steps|
    ensures forall name :: name in EmptyBefore(w.bindings, steps) ==> BoundEmpty(ExecuteAll(w, steps, es), name)
  {
    if steps != [] {
      StaysEmpty(w, steps[..|steps| - 1], es[..|es| - 1]);
    }
  }

  /** When every step binds something, exactly the names the scan tracks are still empty. */
  lemma OneMoreBinds(w: World, step: PlanStep, e: Effect, empty: set<string>)
    requires !IsEmpty(e.output) && forall name :: BoundEmpty(w, name) ==> name in empty
    ensures forall name :: BoundEmpty(Execute(w, step, e), name) ==> name in EmptyAfter(empty, step)
  {
  }

  lemma {:induction false} OnlyTrackedStayEmpty(w: World, steps: seq<PlanStep>, e: Effect)
    requires !IsEmpty(e.output)
    ensures forall name :: BoundEmpty(ExecuteAll(w, steps, Repeat(e, |steps|)), name) ==>
              name in EmptyBefore(w.bindings, steps)
  {
    if steps != [] {
      var init := steps[..|steps| - 1];
      OnlyTrackedStayEmpty(w, init, e);
      RepeatInit(e, |steps|);
      OneMoreBinds(ExecuteAll(w, init, Repeat(e, |init|)), steps[|steps| - 1], e, EmptyBefore(w.bindings, init));
    }
  }

  /** The scan tracks a binding as empty exactly when no execution of the steps before can fill it. */
  lemma TrackedIffAlwaysEmpty(w: World, steps: seq<PlanStep>, name: string)
    ensures name in EmptyBefore(w.bindings, steps) <==>
              forall es: seq<Effect> :: |es| == |steps| ==> BoundEmpty(ExecuteAll(w, steps, es), name)
  {
    if name in EmptyBefore(w.bindings, steps) {
      forall es: seq<Effect> | |es| == |steps|
        ensures BoundEmpty(ExecuteAll(w, steps, es), name)
      {
        StaysEmpty(w, steps, es);
      }
    } else {
      var e := Effect("", Num(1), Num(1));
      OnlyTrackedStayEmpty(w, steps, e);
      assert |Repeat(e, |steps|)| == |steps|;
    }
  }

  // ----- which operations speak for a name --------------------------------------------------

  /** A completed operation that some spelling of `name` refers to. */
  predicate Answered(c: Completed, name: string) {
    IsBare(c, name) || IsQualified(c, name) || (HasDot(name) && IsBare(c, Tail(name)))
  }

  lemma LatestIgnores(history: seq<Completed>, c: Completed, name: string)
    requires !Answered(c, name)
    ensures LatestResult(history + [c], name) == LatestResult(history, name)
  {
    assert (history + [c])[..|history|] == history;
  }

  lemma {:induction false} TailOfQualified(prefix: string, operation: string)
    requires !HasDot(operation)
    ensures HasDot(prefix + "." + operation) && Tail(prefix + "." + operation) == operation
  {
    var name := prefix + "." + operation;
    if prefix == "" {
      assert name[1..] == operation && name[0] == '.';
    } else {
      assert name[1..] == prefix[1..] + "." + operation;
      TailOfQualified(prefix[1..], operation);
    }
    assert name[|prefix|] == '.';
  }

  /** A dotted operation name that a qualified reference `name` could mean without the guard seeing it. */
  predicate Hidden(operation: string, name: string) {
    && HasDot(operation)
    && |operation| + 1 <= |name|
    && name[|name| - |operation| - 1..] == "." + operation
  }

  /** A step that may change what `name` reads, although the scan does not count it as a refresh. */
  predicate MayHide(step: PlanStep, name: string) {
    Invoked(step).Some? && Hidden(Invoked(step).value, name)
  }

  lemma QualifiedIsHidden(c: Completed, name: string)
    requires IsQualified(c, name) && HasDot(c.operation)
    ensures Hidden(c.operation, name)
  {
    assert name[|c.tool|..] == "." + c.operation;
  }

  lemma UnrefreshedIsSilent(step: PlanStep, c: Completed, name: string)
    requires Invoked(step) == Some(c.operation)
    requires name != c.operation && Tail(name) != c.operation && !MayHide(step, name)
    ensures !Answered(c, name)
  {
    if HasDot(c.operation) {
      assert IsQualified(c, name) ==> Hidden(c.operation, name) by {
        if IsQualified(c, name) {
          QualifiedIsHidden(c, name);
        }
      }
    } else {
      TailOfQualified(c.tool, c.operation);
    }
  }

  lemma {:induction false} RefreshedGrows(steps: seq<PlanStep>)
    requires steps != []
    ensures RefreshedBefore(steps[..|steps| - 1]) <= RefreshedBefore(steps)
  {
  }

  lemma {:induction false} LatestSurvives(w: World, steps: seq<PlanStep>, es: seq<Effect>, name: string)
    requires |es| == |steps|
    requires name !in RefreshedBefore(steps) && Tail(name) !in RefreshedBefore(steps)
    requires forall k :: 0 <= k < |steps| ==> !MayHide(steps[k], name)
    ensures LatestResult(ExecuteAll(w, steps, es).history, name) == LatestResult(w.history, name)
  {
    if steps != [] {
      var init, step, e := steps[..|steps| - 1], steps[|steps| - 1], es[|es| - 1];
      RefreshedGrows(steps);
      assert forall k :: 0 <= k < |init| ==> init[k] == steps[k];
      LatestSurvives(w, init, es[..|es| - 1], name);
      if Invoked(step).Some? {
        var c := Completed(e.tool, Invoked(step).value, e.result);
        UnrefreshedIsSilent(step, c, name);
        LatestIgnores(ExecuteAll(w, init, es[..|es| - 1]).history, c, name);
      }
    }
  }

  // ----- soundness -------------------------------------------------------------------------

  /** Reading the reference produces no value a step could act on. */
  predicate YieldsNothing(o: Outcome) {
    !(o.Resolved? && !IsEmpty(o.value))
  }

  /** The reference reads this binding. */
  predicate ReadsBinding(ref: Value, name: string) {
    !Has(ref, FROM) && Get(ref, BIND) == Some(Str(name))
  }

  lemma EmptyBindingYieldsNothing(w: World, ref: Value, name: string)
    requires ReadsBinding(ref, name) && BoundEmpty(w, name)
    ensures YieldsNothing(ResolveRef(ref, w))
  {
    EmptyHasNoPath(w.bindings[name], Segments(PathText(ref)));
  }

  lemma SpentYieldsNothing(w: World, ref: Value, refreshed: set<string>, before: seq<Completed>)
    requires TextOf(Get(ref, FROM)).Some?
    requires Spent(ref, before, refreshed)
    requires LatestResult(w.history, OperationName(ref)) == LatestResult(before, OperationName(ref))
    ensures YieldsNothing(ResolveRef(ref, w))
  {
    var result := LatestResult(before, OperationName(ref)).value;
    if IsEmpty(result) {
      EmptyHasNoPath(result, Segments(PathText(ref)));
    }
  }

  /** No step ahead of the condemned one names a dotted operation the reference might mean. */
  ghost predicate NothingHidden(steps: seq<PlanStep>, name: string) {
    forall k :: 0 <= k < |steps| ==> !MayHide(steps[k], name)
  }

  /**
   * Condemnation is sound: whatever the steps before the condemned one return and bind, that step is
   * reached with each named binding still empty, so that no reference reading it yields anything at
   * any path, or with the named operation still yielding nothing.
   */
  lemma CondemnationIsSound(a: Activity, v: Verdict, es: seq<Effect>, properties: seq<Property>)
    requires Answers(a, Some(v)) && |es| == v.at
    ensures var steps := Remaining(a);
            var w := ExecuteAll(World(a.history, a.bindings, properties), steps[..v.at], es);
            match v.reason
            case DeadBindings(names) =>
              names != {} && names <= DereferencedBindings(steps[v.at]) &&
              (forall name :: name in names ==> BoundEmpty(w, name)) &&
              (forall ref, name :: name in names && ReadsBinding(ref, name) ==> YieldsNothing(ResolveRef(ref, w)))
            case SpentOperation(ref) =>
              ref in DereferencedOperations(steps[v.at]) &&
              (NothingHidden(steps[..v.at], OperationName(ref)) ==> YieldsNothing(ResolveRef(ref, w)))
  {
    var steps := Remaining(a);
    var start := World(a.history, a.bindings, properties);
    StaysEmpty(start, steps[..v.at], es);
    if v.reason.DeadBindings? {
      var w := ExecuteAll(start, steps[..v.at], es);
      forall ref, name | name in v.reason.names && ReadsBinding(ref, name)
        ensures YieldsNothing(ResolveRef(ref, w))
      {
        assert BoundEmpty(w, name);
        EmptyBindingYieldsNothing(w, ref, name);
      }
    } else {
      var ref := v.reason.ref;
      if NothingHidden(steps[..v.at], OperationName(ref)) {
        LatestSurvives(start, steps[..v.at], es, OperationName(ref));
        SpentYieldsNothing(ExecuteAll(start, steps[..v.at], es), ref, RefreshedBefore(steps[..v.at]), a.history);
      }
    }
  }

  function WorldOf(a: Activity, properties: seq<Property>): World {
    World(a.history, a.bindings, properties)
  }

  // ----- exactly which plans pass -----------------------------------------------------------

  lemma {:induction false} RefreshedHas(steps: seq<PlanStep>, name: string)
    ensures name in RefreshedBefore(steps) <==> exists j :: 0 <= j < |steps| && Invoked(steps[j]) == Some(name)
  {
    if steps != [] {
      var init := steps[..|steps| - 1];
      RefreshedHas(init, name);
      if j :| 0 <= j < |init| && Invoked(init[j]) == Some(name) {
        assert Invoked(steps[j]) == Some(name);
      }
      if j :| 0 <= j < |steps| && Invoked(steps[j]) == Some(name) {
        assert j < |init| ==> Invoked(init[j]) == Some(name);
      }
    }
  }

  /** The operation a reference names already ran, and what it returned is empty, as a whole or at the path. */
  predicate CameBackEmpty(history: seq<Completed>, ref: Value)
    requires Asks(ref)
  {
    var result := LatestResult(history, OperationName(ref));
    result.Some? && (IsEmpty(result.value) ||
                     (WalkPath(result.value, PathText(ref)).Some? &&
                      IsEmpty(WalkPath(result.value, PathText(ref)).value)))
  }

  /** Some step before this one runs the operation again. */
  ghost predicate RunsAgain(steps: seq<PlanStep>, ref: Value)
    requires Asks(ref)
  {
    exists j :: 0 <= j < |steps| &&
      (Invoked(steps[j]) == Some(OperationName(ref)) || Invoked(steps[j]) == Some(Tail(OperationName(ref))))
  }

  /** Some execution of the steps before this one leaves the binding with a value. */
  ghost predicate CanHoldSomething(a: Activity, steps: seq<PlanStep>, name: string) {
    exists es: seq<Effect> :: |es| == |steps| && !BoundEmpty(ExecuteAll(WorldOf(a, []), steps, es), name)
  }

  /** Every read of step `k` may still find something. */
  ghost predicate Alive(a: Activity, steps: seq<PlanStep>, k: nat)
    requires k < |steps|
  {
    && (forall name :: name in DereferencedBindings(steps[k]) ==> CanHoldSomething(a, steps[..k], name))
    && (forall ref :: ref in DereferencedOperations(steps[k]) && CameBackEmpty(a.history, ref) ==>
          RunsAgain(steps[..k], ref))
  }

  lemma SpentIff(steps: seq<PlanStep>, ref: Value, history: seq<Completed>)
    requires Asks(ref)
    ensures Spent(ref, history, RefreshedBefore(steps)) <==> CameBackEmpty(history, ref) && !RunsAgain(steps, ref)
  {
    RefreshedHas(steps, OperationName(ref));
    RefreshedHas(steps, Tail(OperationName(ref)));
  }

  lemma EmptyBeforeIff(a: Activity, steps: seq<PlanStep>, name: string)
    ensures name in EmptyBefore(a.bindings, steps) <==> !CanHoldSomething(a, steps, name)
  {
    TrackedIffAlwaysEmpty(WorldOf(a, []), steps, name);
  }

  lemma DisjointIff(a: set<string>, b: set<string>)
    ensures a * b == {} <==> forall name :: name in a ==> name !in b
  {
    if a * b != {} {
      var name :| name in a * b;
      assert name in a && name in b;
    } else {
      forall name | name in a
        ensures name !in b
      {
        assert name !in a * b;
      }
    }
  }

  lemma AliveIff(a: Activity, steps: seq<PlanStep>, k: nat)
    requires k < |steps|
    ensures JudgeAt(a, steps, k) == None <==> Alive(a, steps, k)
  {
    var before, step := steps[..k], steps[k];
    forall name
      ensures name in EmptyBefore(a.bindings, before) <==> !CanHoldSomething(a, before, name)
    {
      EmptyBeforeIff(a, before, name);
    }
    var empty := EmptyBefore(a.bindings, before);
    DisjointIff(DereferencedBindings(step), empty);
    forall ref | ref in DereferencedOperations(step)
      ensures Spent(ref, a.history, RefreshedBefore(before)) <==>
                CameBackEmpty(a.history, ref) && !RunsAgain(before, ref)
    {
      SpentIff(before, ref, a.history);
    }
    var spent := FirstSpent(DereferencedOperations(step), a.history, RefreshedBefore(before));
  }

  /**
   * The guard passes a plan exactly when every read of every remaining step may still find something, and
   * otherwise names the first step with one that cannot.
   */
  lemma GuardIsExact(a: Activity, r: Option<Verdict>)
    requires Answers(a, r)
    ensures r.None? <==> forall k: nat :: k < |Remaining(a)| ==> Alive(a, Remaining(a), k)
    ensures r.Some? ==> r.value.at < |Remaining(a)| && !Alive(a, Remaining(a), r.value.at)
    ensures r.Some? ==> forall k: nat :: k < r.value.at ==> Alive(a, Remaining(a), k)
  {
    var steps := Remaining(a);
    forall k: nat | k < |steps|
      ensures JudgeAt(a, steps, k) == None <==> Alive(a, steps, k)
    {
      AliveIff(a, steps, k);
    }
  }

  // ----- the frame stack, one step at a time -----------------------------------------------

  predicate Exhausted(f: Frame) { f.index >= |f.steps| }

  /** An exhausted frame is popped: its parent goes on after the step that had pushed it. */
  function Pop(a: Activity): Activity
    requires a.parents != []
  {
    var parent := a.parents[|a.parents| - 1];
    a.(plan := Some(Frame(parent.steps, parent.index + 1)), parents := a.parents[..|a.parents| - 1])
  }

  /** The step the stack runs next, if any is left. */
  function NextStep(a: Activity): Option<PlanStep>
    decreases |a.parents|
  {
    if a.plan.None? then None
    else if !Exhausted(a.plan.value) then Some(a.plan.value.steps[a.plan.value.index])
    else if a.parents == [] then None
    else NextStep(Pop(a))
  }

  /** Run that step to this effect. */
  function Perform(a: Activity, e: Effect): Activity
    decreases |a.parents|
  {
    if a.plan.None? then a
    else if !Exhausted(a.plan.value) then
      var f := a.plan.value;
      var w := Execute(WorldOf(a, []), f.steps[f.index], e);
      Activity(Some(Frame(f.steps, f.index + 1)), a.parents, w.history, w.bindings)
    else if a.parents == [] then a
    else Perform(Pop(a), e)
  }

  function PerformAll(a: Activity, es: seq<Effect>): Activity {
    if es == [] then a else Perform(PerformAll(a, es[..|es| - 1]), es[|es| - 1])
  }

  lemma {:induction false} ConcatsCons<T>(first: seq<T>, rest: seq<seq<T>>)
    ensures Concat([first] + rest) == first + Concat(rest)
  {
    if rest == [] {
      ConcatNil([first]);
      ConcatNil(first);
      assert Concat([first]) == Concat([first][..0]) + first;
    } else {
      ConcatSnoc([first], rest);
      ConcatsCons(first, rest[..|rest| - 1]);
      assert first + Concat(rest) == (first + Concat(rest[..|rest| - 1])) + rest[|rest| - 1];
    }
  }

  lemma RemainingUnfolds(a: Activity)
    requires a.plan.Some?
    ensures Remaining(a) == StepsFrom(a.plan.value, a.plan.value.index) + Concat(ParentPieces(a.parents))
  {
    ConcatsCons(StepsFrom(a.plan.value, a.plan.value.index), ParentPieces(a.parents));
  }

  lemma PopKeepsRemaining(a: Activity)
    requires a.plan.Some? && Exhausted(a.plan.value) && a.parents != []
    ensures Remaining(Pop(a)) == Remaining(a)
  {
    var inner := a.parents[|a.parents| - 1];
    RemainingUnfolds(a);
    RemainingUnfolds(Pop(a));
    ConcatsCons(StepsFrom(inner, inner.index + 1), ParentPieces(a.parents[..|a.parents| - 1]));
    ConcatNil(Concat(ParentPieces(a.parents)));
  }

  /** The stack runs the first of the remaining steps, with that effect, and the others remain. */
  ghost predicate RunsFirst(a: Activity, remaining: seq<PlanStep>, n: Activity, e: Effect) {
    if remaining == [] then
      NextStep(a) == None && n.history == a.history && n.bindings == a.bindings && Remaining(n) == []
    else
      && NextStep(a) == Some(remaining[0]) && Remaining(n) == remaining[1..]
      && forall properties :: WorldOf(n, properties) == Execute(WorldOf(a, properties), remaining[0], e)
  }

  lemma FrameTail(f: Frame)
    requires !Exhausted(f)
    ensures StepsFrom(f, f.index) == [f.steps[f.index]] + StepsFrom(f, f.index + 1)
  {
  }

  lemma FrameEffect(a: Activity, e: Effect)
    requires a.plan.Some? && !Exhausted(a.plan.value)
    ensures forall properties ::
              WorldOf(Perform(a, e), properties)
              == Execute(WorldOf(a, properties), a.plan.value.steps[a.plan.value.index], e)
  {
  }

  lemma FrameRemains(a: Activity, e: Effect)
    requires a.plan.Some? && !Exhausted(a.plan.value)
    ensures Remaining(a) == [a.plan.value.steps[a.plan.value.index]] + Remaining(Perform(a, e))
  {
    var f, rest := a.plan.value, Concat(ParentPieces(a.parents));
    RemainingUnfolds(a);
    RemainingUnfolds(Perform(a, e));
    FrameTail(f);
    ConsAssoc(f.steps[f.index], StepsFrom(f, f.index + 1), rest);
  }

  lemma FrameRuns(a: Activity, e: Effect)
    requires a.plan.Some? && !Exhausted(a.plan.value)
    ensures RunsFirst(a, Remaining(a), Perform(a, e), e)
  {
    FrameRemains(a, e);
    FrameEffect(a, e);
    HeadAndRest(a.plan.value.steps[a.plan.value.index], Remaining(Perform(a, e)));
  }

  lemma StackEnds(a: Activity, e: Effect)
    requires a.plan.None? || (Exhausted(a.plan.value) && a.parents == [])
    ensures RunsFirst(a, Remaining(a), Perform(a, e), e)
  {
    if a.plan.Some? {
      RemainingUnfolds(a);
    }
  }

  /** What the guard scans is exactly what the stack goes on to run, in that order. */
  lemma {:induction false} StackRunsRemaining(a: Activity, e: Effect)
    ensures RunsFirst(a, Remaining(a), Perform(a, e), e)
    decreases |a.parents|
  {
    if a.plan.None? || (Exhausted(a.plan.value) && a.parents == []) {
      StackEnds(a, e);
    } else if !Exhausted(a.plan.value) {
      FrameRuns(a, e);
    } else {
      PopKeepsRemaining(a);
      StackRunsRemaining(Pop(a), e);
    }
  }

  lemma ExecuteSnoc(w: World, steps: seq<PlanStep>, es: seq<Effect>, step: PlanStep, e: Effect)
    requires |es| == |steps|
    ensures ExecuteAll(w, steps + [step], es + [e]) == Execute(ExecuteAll(w, steps, es), step, e)
  {
    Snoc(steps, step);
    Snoc(es, e);
  }

  lemma RunsOne(m: Activity, remaining: seq<PlanStep>, n: Activity, e: Effect, properties: seq<Property>)
    requires RunsFirst(m, remaining, n, e) && remaining != []
    ensures Remaining(n) == remaining[1..]
    ensures WorldOf(n, properties) == Execute(WorldOf(m, properties), remaining[0], e)
  {
  }

  lemma DropOne(steps: seq<PlanStep>, k: nat)
    requires k < |steps|
    ensures steps[k..] != [] && steps[k..][0] == steps[k] && steps[k..][1..] == steps[k + 1..]
  {
  }

  lemma {:induction false} StackRemains(a: Activity, es: seq<Effect>)
    requires |es| <= |Remaining(a)|
    ensures Remaining(PerformAll(a, es)) == Remaining(a)[|es|..]
  {
    if es != [] {
      var init, e := es[..|es| - 1], es[|es| - 1];
      var m := PerformAll(a, init);
      StackRemains(a, init);
      DropOne(Remaining(a), |init|);
      StackRunsRemaining(m, e);
      RunsOne(m, Remaining(m), Perform(m, e), e, []);
    }
  }

  lemma StackStep(m: Activity, e: Effect, start: World, all: seq<PlanStep>, init: seq<Effect>,
                  properties: seq<Property>)
    requires |init| < |all| && Remaining(m) == all[|init|..]
    requires WorldOf(m, properties) == ExecuteAll(start, all[..|init|], init)
    ensures WorldOf(Perform(m, e), properties) == ExecuteAll(start, all[..|init| + 1], init + [e])
  {
    DropOne(all, |init|);
    StackRunsRemaining(m, e);
    RunsOne(m, Remaining(m), Perform(m, e), e, properties);
    TakeNext(all, |init|);
    ExecuteSnoc(start, all[..|init|], init, all[|init|], e);
  }

  lemma {:induction false} StackExecutes(a: Activity, es: seq<Effect>, properties: seq<Property>)
    requires |es| <= |Remaining(a)|
    ensures WorldOf(PerformAll(a, es), properties)
            == ExecuteAll(WorldOf(a, properties), Remaining(a)[..|es|], es)
  {
    if es != [] {
      var init, e := es[..|es| - 1], es[|es| - 1];
      StackExecutes(a, init, properties);
      StackRemains(a, init);
      Unsnoc(es);
      StackStep(PerformAll(a, init), e, WorldOf(a, properties), Remaining(a), init, properties);
    }
  }

  /** The step comes up with this reason still standing: what it names is read, and dead. */
  ghost predicate StandsDead(m: Activity, step: PlanStep, reason: Reason, properties: seq<Property>) {
    match reason
    case DeadBindings(names) =>
      names != {} && names <= DereferencedBindings(step)
      && forall name :: name in names ==> name in m.bindings && IsEmpty(m.bindings[name])
    case SpentOperation(ref) =>
      ref in DereferencedOperations(step) && YieldsNothing(ResolveRef(ref, WorldOf(m, properties)))
  }

  /**
   * The stack itself bears the verdict out: run as many steps as the verdict counts, to whatever effect,
   * and the next step it comes to is the condemned one, its dead reads still dead.
   */
  lemma StackMeetsTheVerdict(a: Activity, v: Verdict, es: seq<Effect>, properties: seq<Property>)
    requires Answers(a, Some(v)) && |es| == v.at
    requires v.reason.SpentOperation? ==>
               TextOf(Get(v.reason.ref, FROM)).Some? && PastRevival(a, Remaining(a)[..v.at], v.reason.ref)
    ensures NextStep(PerformAll(a, es)) == Some(Remaining(a)[v.at])
    ensures StandsDead(PerformAll(a, es), Remaining(a)[v.at], v.reason, properties)
  {
    var m := PerformAll(a, es);
    StackRemains(a, es);
    StackExecutes(a, es, properties);
    StackRunsRemaining(m, Effect("", Null, Null));
    CondemnationIsSound(a, v, es, properties);
    if v.reason.SpentOperation? {
      PastRevivalYieldsNothing(a, WorldOf(a, properties), Remaining(a)[..v.at], es, v.reason.ref);
    }
  }

  // ----- dotted operation names: exactly where the proof stops ------------------------------

  /** A value in which the path leads to `leaf`. */
  function Build(segments: seq<string>, leaf: Value): Value {
    if segments == [] then leaf
    else
      var inner := Build(segments[1..], leaf);
      if IsDigits(segments[0]) then List(Repeat(inner, ToNat(segments[0]) + 1))
      else Dict([Entry(segments[0], inner)])
  }

  lemma {:induction false} BuildHasPath(segments: seq<string>, leaf: Value)
    ensures Walk(Build(segments, leaf), segments) == Some(leaf)
  {
    if segments != [] {
      BuildHasPath(segments[1..], leaf);
    }
  }

  predicate Speaks(step: PlanStep, e: Effect, name: string) {
    Invoked(step).Some? && name == e.tool + "." + Invoked(step).value
  }

  lemma LatestSnoc(history: seq<Completed>, c: Completed, name: string)
    ensures LatestBare(history + [c], name) == if IsBare(c, name) then Some(c.result) else LatestBare(history, name)
    ensures LatestQualified(history + [c], name)
            == if IsQualified(c, name) then Some(c.result) else LatestQualified(history, name)
  {
    assert (history + [c])[..|history|] == history;
  }

  ghost predicate HiddenFrom(w: World, name: string) {
    LatestBare(w.history, name).None?
  }

  ghost predicate Heard(w: World, e: Effect, name: string) {
    LatestQualified(w.history, name) == Some(e.result)
  }

  lemma HiddenStep(w: World, step: PlanStep, e: Effect, name: string)
    requires HiddenFrom(w, name) && (Invoked(step).Some? ==> Invoked(step).value != name)
    ensures HiddenFrom(Execute(w, step, e), name)
    ensures Heard(w, e, name) || Speaks(step, e, name) ==> Heard(Execute(w, step, e), e, name)
  {
    if Invoked(step).Some? {
      LatestSnoc(w.history, Completed(e.tool, Invoked(step).value, e.result), name);
    }
  }

  lemma RepeatInit(e: Effect, n: nat)
    requires n > 0
    ensures Repeat(e, n)[..n - 1] == Repeat(e, n - 1) && Repeat(e, n)[n - 1] == e
  {
  }

  lemma {:induction false} HiddenStays(w: World, steps: seq<PlanStep>, e: Effect, name: string)
    requires name !in RefreshedBefore(steps) && HiddenFrom(w, name)
    ensures HiddenFrom(ExecuteAll(w, steps, Repeat(e, |steps|)), name)
  {
    if steps != [] {
      var init := steps[..|steps| - 1];
      RefreshedGrows(steps);
      HiddenStays(w, init, e, name);
      RepeatInit(e, |steps|);
      HiddenStep(ExecuteAll(w, init, Repeat(e, |init|)), steps[|steps| - 1], e, name);
    }
  }

  /** With one tool answering every step the same way, the hidden operation is the latest match. */
  lemma {:induction false} HiddenIsLatest(w: World, steps: seq<PlanStep>, e: Effect, name: string, k: nat)
    requires name !in RefreshedBefore(steps) && HiddenFrom(w, name)
    requires k < |steps| && Speaks(steps[k], e, name)
    ensures Heard(ExecuteAll(w, steps, Repeat(e, |steps|)), e, name)
  {
    var init := steps[..|steps| - 1];
    RefreshedGrows(steps);
    HiddenStays(w, init, e, name);
    if k < |init| {
      HiddenIsLatest(w, init, e, name, k);
    }
    RepeatInit(e, |steps|);
    HiddenStep(ExecuteAll(w, init, Repeat(e, |init|)), steps[|steps| - 1], e, name);
  }

  /**
   * The premise on dotted names is needed. If an earlier step invokes a dotted operation the condemned
   * reference may mean, some execution answers it with a value the condemned step can read.
   */
  lemma HiddenOperationRevives(a: Activity, v: Verdict, properties: seq<Property>) returns (es: seq<Effect>)
    requires Answers(a, Some(v)) && v.reason.SpentOperation?
    requires var ref := v.reason.ref;
             TextOf(Get(ref, FROM)).Some? && (Has(ref, PATH) ==> Get(ref, PATH).value.Str?)
             && LatestBare(a.history, OperationName(ref)).None?
             && !NothingHidden(Remaining(a)[..v.at], OperationName(ref))
    ensures |es| == v.at
    ensures var w := ExecuteAll(World(a.history, a.bindings, properties), Remaining(a)[..v.at], es);
            ResolveRef(v.reason.ref, w) == Resolved(Num(1))
  {
    var ref, steps := v.reason.ref, Remaining(a)[..v.at];
    var name := OperationName(ref);
    var k :| 0 <= k < |steps| && MayHide(steps[k], name);
    var tool := HiddenPrefix(Invoked(steps[k]).value, name);
    var e := Effect(tool, Build(Segments(PathText(ref)), Num(1)), Num(1));
    assert Speaks(steps[k], e, name);
    es := Repeat(e, |steps|);
    var start := World(a.history, a.bindings, properties);
    HiddenStays(start, steps, e, name);
    HiddenIsLatest(start, steps, e, name, k);
    QualifiedResolves(ExecuteAll(start, steps, es), ref, Num(1));
  }

  lemma {:induction false} BareSurvives(w: World, steps: seq<PlanStep>, es: seq<Effect>, name: string)
    requires |es| == |steps| && name !in RefreshedBefore(steps)
    ensures LatestBare(ExecuteAll(w, steps, es).history, name) == LatestBare(w.history, name)
  {
    if steps != [] {
      var init, step, e := steps[..|steps| - 1], steps[|steps| - 1], es[|es| - 1];
      RefreshedGrows(steps);
      BareSurvives(w, init, es[..|es| - 1], name);
      if Invoked(step).Some? {
        LatestSnoc(ExecuteAll(w, init, es[..|es| - 1]).history, Completed(e.tool, Invoked(step).value, e.result), name);
      }
    }
  }

  /**
   * Nothing before the condemned step can bring its reference back: no hidden operation is invoked, or
   * the history already answers to the exact name, or the path cannot be read whatever it leads to.
   */
  ghost predicate PastRevival(a: Activity, steps: seq<PlanStep>, ref: Value)
    requires TextOf(Get(ref, FROM)).Some?
  {
    || NothingHidden(steps, OperationName(ref))
    || LatestBare(a.history, OperationName(ref)).Some?
    || (Has(ref, PATH) && !Get(ref, PATH).value.Str?)
  }

  lemma PastRevivalYieldsNothing(a: Activity, w: World, steps: seq<PlanStep>, es: seq<Effect>, ref: Value)
    requires TextOf(Get(ref, FROM)).Some? && w.history == a.history && |es| == |steps|
    requires Spent(ref, a.history, RefreshedBefore(steps)) && PastRevival(a, steps, ref)
    ensures YieldsNothing(ResolveRef(ref, ExecuteAll(w, steps, es)))
  {
    var name, after := OperationName(ref), ExecuteAll(w, steps, es);
    if Has(ref, PATH) && !Get(ref, PATH).value.Str? {
    } else {
      if NothingHidden(steps, name) {
        LatestSurvives(w, steps, es, name);
      } else {
        BareSurvives(w, steps, es, name);
      }
      SpentYieldsNothing(after, ref, RefreshedBefore(steps), a.history);
    }
  }

  /** The reference yields nothing however the steps before it turn out. */
  ghost predicate NeverYields(a: Activity, steps: seq<PlanStep>, ref: Value, properties: seq<Property>) {
    forall es: seq<Effect> :: |es| == |steps| ==>
      YieldsNothing(ResolveRef(ref, ExecuteAll(World(a.history, a.bindings, properties), steps, es)))
  }

  lemma PastRevivalNeverYields(a: Activity, steps: seq<PlanStep>, ref: Value, properties: seq<Property>)
    requires TextOf(Get(ref, FROM)).Some?
    requires Spent(ref, a.history, RefreshedBefore(steps)) && PastRevival(a, steps, ref)
    ensures NeverYields(a, steps, ref, properties)
  {
    var w := World(a.history, a.bindings, properties);
    forall es: seq<Effect> | |es| == |steps|
      ensures YieldsNothing(ResolveRef(ref, ExecuteAll(w, steps, es)))
    {
      PastRevivalYieldsNothing(a, w, steps, es, ref);
    }
  }

  /** A condemned operation read is dead in every execution if and only if it is past revival. */
  lemma CondemnationIsExact(a: Activity, v: Verdict, properties: seq<Property>)
    requires Answers(a, Some(v)) && v.reason.SpentOperation? && TextOf(Get(v.reason.ref, FROM)).Some?
    ensures var steps := Remaining(a)[..v.at];
            NeverYields(a, steps, v.reason.ref, properties) <==> PastRevival(a, steps, v.reason.ref)
  {
    var steps, ref := Remaining(a)[..v.at], v.reason.ref;
    if PastRevival(a, steps, ref) {
      PastRevivalNeverYields(a, steps, ref, properties);
    } else {
      var es := HiddenOperationRevives(a, v, properties);
      var revived := ResolveRef(ref, ExecuteAll(World(a.history, a.bindings, properties), steps, es));
      assert !YieldsNothing(revived);
    }
  }

  lemma HiddenPrefix(operation: string, name: string) returns (tool: string)
    requires Hidden(operation, name)
    ensures name == tool + "." + operation
  {
    tool := name[..|name| - |operation| - 1];
    assert name == tool + name[|name| - |operation| - 1..];
  }

  lemma QualifiedResolves(w: World, ref: Value, leaf: Value)
    requires TextOf(Get(ref, FROM)).Some? && (Has(ref, PATH) ==> Get(ref, PATH).value.Str?)
    requires LatestBare(w.history, OperationName(ref)).None?
    requires LatestQualified(w.history, OperationName(ref)) == Some(Build(Segments(PathText(ref)), leaf))
    ensures ResolveRef(ref, w) == Resolved(leaf)
  {
    BuildHasPath(Segments(PathText(ref)), leaf);
  }
}
