/**
 * The mechanical predicate evaluator. It answers true, false or undecidable: an ordered comparison
 * of present values of incompatible types has no answer, and the composition may or may not need it.
 */
module Predicates {
  import opened Options
  import opened Sequences
  import opened Values

  // ----- comparing values ------------------------------------------------------------------

  datatype Cmp = Lt | Le | Gt | Ge

  datatype Ordering = Less | Equal | Greater | Incomparable

  function AsNumber(v: Value): Option<int> {
    match v
    case Num(n) => Some(n)
    case Bool(b) => Some(if b then 1 else 0)
    case _ => None
  }

  /** Equality of the source language: booleans are numbers, mappings compare whatever their order. */
  predicate Same(a: Value, b: Value)
    decreases a
  {
    if AsNumber(a).Some? || AsNumber(b).Some? then AsNumber(a) == AsNumber(b)
    else
      match a
      case List(items) =>
        && b.List? && |b.items| == |items|
        && forall i :: 0 <= i < |items| ==> Same(items[i], b.items[i])
      case Dict(entries) =>
        && b.Dict?
        && (forall i :: 0 <= i < |b.entries| ==> Lookup(entries, b.entries[i].key).Some?)
        && (forall i :: 0 <= i < |entries| ==>
              var mine, theirs := Lookup(entries, entries[i].key), Lookup(b.entries, entries[i].key);
              mine.Some? && theirs.Some? && Same(mine.value, theirs.value))
      case _ => a == b
  }

  function CompareInts(a: int, b: int): Ordering {
    if a < b then Less else if a == b then Equal else Greater
  }

  function CompareText(a: string, b: string): Ordering {
    if a == "" || b == "" then CompareInts(|a|, |b|)
    else if a[0] != b[0] then CompareInts(a[0] as int, b[0] as int)
    else CompareText(a[1..], b[1..])
  }

  /** Lists compare at the first place they differ; that place may itself be incomparable. */
  function Compare(a: Value, b: Value): Ordering
    decreases a, 1
  {
    if AsNumber(a).Some? && AsNumber(b).Some? then CompareInts(AsNumber(a).value, AsNumber(b).value)
    else if a.Str? && b.Str? then CompareText(a.s, b.s)
    else if a.List? && b.List? then CompareItems(a.items, b.items)
    else Incomparable
  }

  function CompareItems(a: seq<Value>, b: seq<Value>): Ordering
    decreases a, 0
  {
    if a == [] || b == [] then CompareInts(|a|, |b|)
    else if Same(a[0], b[0]) then CompareItems(a[1..], b[1..])
    else Compare(a[0], b[0])
  }

  /** A missing bound is a non-match; incompatible present values have no answer. */
  function Ordered(left: Value, right: Value, op: Cmp): Option<bool> {
    if left.Null? || right.Null? then Some(false)
    else
      match Compare(left, right)
      case Incomparable => None
      case o =>
        match op
        case Lt => Some(o == Less)
        case Le => Some(o != Greater)
        case Gt => Some(o == Greater)
        case Ge => Some(o != Less)
  }

  // ----- three-valued composition ----------------------------------------------------------

  function Combine(results: seq<Option<bool>>, disjunction: bool): Option<bool> {
    if Some(disjunction) in results then Some(disjunction)
    else if None in results then None
    else Some(!disjunction)
  }

  predicate Falsy(v: Value) {
    IsEmpty(v) || v == Num(0) || v == Bool(false)
  }

  /** The value at a key path of an element; absent and unreadable are both null. */
  function Pluck(element: Value, path: Option<Value>): Value {
    if path.None? || Falsy(path.value) then element
    else if path.value.Str? then
      var r := WalkPath(element, path.value.s);
      if r.Some? then r.value else Null
    else Null
  }

  /** Without a path, or with one that is null, empty, zero or false, the field read is the element itself. */
  lemma PluckMeans(element: Value, path: Option<Value>)
    ensures path.None? || path.value in {Null, Str(""), List([]), Dict([]), Num(0), Bool(false)} ==>
              Pluck(element, path) == element
    ensures path.Some? && path.value.Str? && path.value.s != "" ==>
              var walked := WalkPath(element, path.value.s);
              Pluck(element, path) == if walked.Some? then walked.value else Null
    ensures path.Some? && path.value !in {Null, Str(""), List([]), Dict([]), Num(0), Bool(false)}
            && !path.value.Str? ==>
              Pluck(element, path) == Null
  {
  }

  predicate ContainsSame(items: seq<Value>, v: Value) {
    exists i :: 0 <= i < |items| && Same(items[i], v)
  }

  datatype OpKind = Eq | Ne | In | NotIn | Between | Compares(cmp: Cmp) | Overlaps | Unknown

  function Kind(op: Value): OpKind {
    if !op.Str? then Unknown
    else if op.s == "eq" then Eq
    else if op.s == "ne" then Ne
    else if op.s == "in" then In
    else if op.s == "not_in" then NotIn
    else if op.s == "between" then Between
    else if op.s == "lt" then Compares(Lt)
    else if op.s == "le" then Compares(Le)
    else if op.s == "gt" then Compares(Gt)
    else if op.s == "ge" then Compares(Ge)
    else if op.s == "overlaps" then Overlaps
    else Unknown
  }

  /** One comparison of an element's field with a literal operand. */
  function Leaf(op: OpKind, actual: Value, value: Value): Option<bool> {
    match op
    case Eq => Some(Same(actual, value))
    case Ne => Some(!Same(actual, value))
    case In => Some(value.List? && ContainsSame(value.items, actual))
    case NotIn => Some(!(value.List? && ContainsSame(value.items, actual)))
    case Between =>
      if value.List? && |value.items| == 2
      then Combine([Ordered(value.items[0], actual, Le), Ordered(actual, value.items[1], Le)], false)
      else Some(false)
    case Compares(cmp) => Ordered(actual, value, cmp)
    case _ => Some(false)
  }

  predicate ProperPair(v: Value) {
    v.List? && |v.items| == 2 && !v.items[0].Null? && !v.items[1].Null?
  }

  /** Whether [start, end] overlaps one given interval. */
  function OverlapOne(start: Value, end: Value, pair: Value, inclusive: bool): Option<bool>
    requires ProperPair(pair)
  {
    Combine([Ordered(start, pair.items[1], if inclusive then Le else Lt),
             Ordered(end, pair.items[0], if inclusive then Ge else Gt)], false)
  }

  /** Malformed intervals are skipped; the others are a disjunction. */
  function OverlapResults(start: Value, end: Value, intervals: seq<Value>, inclusive: bool): seq<Option<bool>> {
    if intervals == [] then []
    else
      (if ProperPair(intervals[0]) then [OverlapOne(start, end, intervals[0], inclusive)] else [])
      + OverlapResults(start, end, intervals[1..], inclusive)
  }

  function Overlap(start: Value, end: Value, against: Option<Value>, inclusive: bool): Option<bool> {
    if start.Null? || end.Null? || against.None? || !against.value.List? then Some(false)
    else Combine(OverlapResults(start, end, against.value.items, inclusive), true)
  }

  function OpOf(where: Value): OpKind {
    var op := Get(where, "op");
    if op.Some? then Kind(op.value) else Eq
  }

  function ValueOf(where: Value): Value {
    var v := Get(where, "value");
    if v.Some? then v.value else Null
  }

  predicate Inclusive(where: Value) {
    Get(where, "boundaries") == Some(Str("inclusive"))
  }

  function OverlapClause(element: Value, where: Value, against: Option<Value>): Option<bool> {
    Overlap(Pluck(element, Get(where, "start_path")), Pluck(element, Get(where, "end_path")), against, Inclusive(where))
  }

  /** The clause list of a composed predicate: `all` is looked for before `any`. */
  function Composition(where: Value): Option<(bool, Value)> {
    if Get(where, "all").Some? then Some((false, Get(where, "all").value))
    else if Get(where, "any").Some? then Some((true, Get(where, "any").value))
    else None
  }

  lemma ClausesSmaller(where: Value)
    requires Composition(where).Some?
    ensures Composition(where).value.1 < where
  {
  }

  function PredicateResult(element: Value, where: Value): Option<bool>
    decreases where, 1
  {
    if !where.Dict? then Some(false)
    else if Composition(where).Some? then
      var (disjunction, clauses) := Composition(where).value;
      ClausesSmaller(where);
      if !clauses.List? || clauses.items == [] then Some(false)
      else Combine(ClauseResults(element, clauses.items), disjunction)
    else if OpOf(where) == Overlaps then OverlapClause(element, where, Get(where, "against"))
    else Leaf(OpOf(where), Pluck(element, Get(where, "path")), ValueOf(where))
  }

  function ClauseResults(element: Value, clauses: seq<Value>): (r: seq<Option<bool>>)
    ensures |r| == |clauses|
    decreases clauses, 0
  {
    if clauses == [] then []
    else ClauseResults(element, clauses[..|clauses| - 1]) + [PredicateResult(element, clauses[|clauses| - 1])]
  }

  lemma {:induction false} ClauseResultAt(element: Value, clauses: seq<Value>, i: nat)
    requires i < |clauses|
    ensures ClauseResults(element, clauses)[i] == PredicateResult(element, clauses[i])
    decreases |clauses|
  {
    if i < |clauses| - 1 {
      ClauseResultAt(element, clauses[..|clauses| - 1], i);
    }
  }

  // ----- settling what is incomparable ------------------------------------------------------

  /** One way of deciding every comparison that has no answer of its own. */
  type Settlement = (Cmp, Value, Value) -> bool

  // ----- what a predicate says, apart from how it is evaluated -------------------------------

  predicate Numeric(v: Value) { v.Num? || v.Bool? }

  function Figure(v: Value): int
    requires Numeric(v)
  {
    if v.Num? then v.n else if v.b then 1 else 0
  }

  /** How many leading items two lists have in common. */
  function Common(a: seq<Value>, b: seq<Value>): (k: nat)
    ensures k <= |a| && k <= |b| && forall i :: 0 <= i < k ==> Same(a[i], b[i])
    ensures k < |a| && k < |b| ==> !Same(a[k], b[k])
  {
    if a == [] || b == [] || !Same(a[0], b[0]) then 0 else 1 + Common(a[1..], b[1..])
  }

  function CommonText(a: string, b: string): (k: nat)
    ensures k <= |a| && k <= |b| && a[..k] == b[..k]
    ensures k < |a| && k < |b| ==> a[k] != b[k]
  {
    if a == "" || b == "" || a[0] != b[0] then 0
    else
      var k := CommonText(a[1..], b[1..]);
      assert a[..k + 1] == [a[0]] + a[1..][..k] && b[..k + 1] == [b[0]] + b[1..][..k];
      k + 1
  }

  /** Both numbers, both texts, or two lists that are the one or the other where they first differ. */
  predicate Ranked(a: Value, b: Value)
    decreases a
  {
    || (Numeric(a) && Numeric(b))
    || (a.Str? && b.Str?)
    || (a.List? && b.List? &&
        var k := Common(a.items, b.items);
        k == |a.items| || k == |b.items| || Ranked(a.items[k], b.items[k]))
  }

  /** `a` comes before `b`: by figure, or by the first place at which they differ, a shorter text or list first. */
  predicate Before(a: Value, b: Value)
    decreases a
  {
    if Numeric(a) && Numeric(b) then Figure(a) < Figure(b)
    else if a.Str? && b.Str? then
      var k := CommonText(a.s, b.s);
      k < |b.s| && (k == |a.s| || a.s[k] < b.s[k])
    else if a.List? && b.List? then
      var k := Common(a.items, b.items);
      k < |b.items| && (k == |a.items| || Before(a.items[k], b.items[k]))
    else false
  }

  predicate Means(op: Cmp, left: Value, right: Value) {
    match op
    case Lt => Before(left, right)
    case Le => Before(left, right) || Same(left, right)
    case Gt => Before(right, left)
    case Ge => Before(right, left) || Same(right, left)
  }

  /** A comparison with a missing side is false; one of values that have no order is settled by `f`. */
  predicate OrderedWith(left: Value, right: Value, op: Cmp, f: Settlement) {
    && !left.Null? && !right.Null?
    && if Ranked(left, right) then Means(op, left, right) else f(op, left, right)
  }

  /** What each operator says; `OperatorNames` gives them their names. */
  predicate LeafSays(op: OpKind, actual: Value, value: Value, f: Settlement) {
    match op
    case Eq => Same(actual, value)
    case Ne => !Same(actual, value)
    case In => value.List? && exists i :: 0 <= i < |value.items| && Same(value.items[i], actual)
    case NotIn => !value.List? || forall i :: 0 <= i < |value.items| ==> !Same(value.items[i], actual)
    case Between =>
      && value.List? && |value.items| == 2
      && OrderedWith(value.items[0], actual, Le, f) && OrderedWith(actual, value.items[1], Le, f)
    case Compares(cmp) => OrderedWith(actual, value, cmp, f)
    case _ => false
  }

  /** [start, end] meets a well-formed interval: half-open, or with the boundaries if they are inclusive. */
  predicate Meets(start: Value, end: Value, interval: Value, inclusive: bool, f: Settlement) {
    && interval.List? && |interval.items| == 2 && !interval.items[0].Null? && !interval.items[1].Null?
    && (if inclusive then
          OrderedWith(start, interval.items[1], Le, f) && OrderedWith(end, interval.items[0], Ge, f)
        else
          OrderedWith(start, interval.items[1], Lt, f) && OrderedWith(end, interval.items[0], Gt, f))
  }

  predicate OverlapSays(element: Value, where: Value, f: Settlement) {
    var start, end := Pluck(element, Get(where, "start_path")), Pluck(element, Get(where, "end_path"));
    var against := Get(where, "against");
    && !start.Null? && !end.Null? && against.Some? && against.value.List?
    && exists i :: 0 <= i < |against.value.items|
         && Meets(start, end, against.value.items[i], Get(where, "boundaries") == Some(Str("inclusive")), f)
  }

  /** The operator as written; a clause without one asks for equality. */
  function Operator(where: Value): Value {
    if Has(where, "op") then Get(where, "op").value else Str("eq")
  }

  /** Ordinary two-valued evaluation once everything is decided: `all` before `any` before an operator. */
  predicate Holds(element: Value, where: Value, f: Settlement)
    decreases where
  {
    if !where.Dict? then false
    else if Has(where, "all") then
      var clauses := Get(where, "all").value;
      clauses.List? && clauses.items != []
      && forall i :: 0 <= i < |clauses.items| ==> Holds(element, clauses.items[i], f)
    else if Has(where, "any") then
      var clauses := Get(where, "any").value;
      clauses.List? && exists i :: 0 <= i < |clauses.items| && Holds(element, clauses.items[i], f)
    else if Operator(where) == Str("overlaps") then OverlapSays(element, where, f)
    else LeafSays(Kind(Operator(where)), Pluck(element, Get(where, "path")), ValueOf(where), f)
  }

  function Always(b: bool): Settlement {
    (_: Cmp, _: Value, _: Value) => b
  }

  /** Each operator has exactly one name; anything else is not an operator. */
  lemma OperatorNames(op: Value)
    ensures Kind(op) == Eq <==> op == Str("eq")
    ensures Kind(op) == Ne <==> op == Str("ne")
    ensures Kind(op) == In <==> op == Str("in")
    ensures Kind(op) == NotIn <==> op == Str("not_in")
    ensures Kind(op) == Between <==> op == Str("between")
    ensures Kind(op) == Compares(Lt) <==> op == Str("lt")
    ensures Kind(op) == Compares(Le) <==> op == Str("le")
    ensures Kind(op) == Compares(Gt) <==> op == Str("gt")
    ensures Kind(op) == Compares(Ge) <==> op == Str("ge")
    ensures Kind(op) == Overlaps <==> op == Str("overlaps")
  {
  }

  lemma OperatorIsKind(where: Value)
    ensures OpOf(where) == Kind(Operator(where))
    ensures OpOf(where) == Overlaps <==> Operator(where) == Str("overlaps")
  {
    OperatorNames(Operator(where));
  }

  // ----- equality is an equivalence, and comparison an order by first difference --------------

  lemma {:induction false} SameReflexive(a: Value)
    ensures Same(a, a)
    decreases a
  {
    match a
    case List(items) =>
      forall i | 0 <= i < |items|
        ensures Same(items[i], items[i])
      {
        SameReflexive(items[i]);
      }
    case Dict(entries) =>
      forall i | 0 <= i < |entries|
        ensures Lookup(entries, entries[i].key).Some?
        ensures Same(Lookup(entries, entries[i].key).value, Lookup(entries, entries[i].key).value)
      {
        var j :| 0 <= j < |entries| && entries[j].key == entries[i].key
                 && entries[j].value == Lookup(entries, entries[i].key).value;
        SameReflexive(entries[j].value);
      }
    case _ =>
  }

  lemma {:induction false} SameSymmetric(a: Value, b: Value)
    requires Same(a, b)
    ensures Same(b, a)
    decreases a
  {
    match a
    case List(items) =>
      if b.List? {
        forall i | 0 <= i < |items|
          ensures Same(b.items[i], items[i])
        {
          SameSymmetric(items[i], b.items[i]);
        }
      }
    case Dict(entries) =>
      if b.Dict? {
        forall i | 0 <= i < |b.entries|
          ensures var key := b.entries[i].key;
                  Lookup(b.entries, key).Some? && Lookup(entries, key).Some?
                  && Same(Lookup(b.entries, key).value, Lookup(entries, key).value)
        {
          var key := b.entries[i].key;
          var j :| 0 <= j < |entries| && entries[j].key == key && entries[j].value == Lookup(entries, key).value;
          SameSymmetric(entries[j].value, Lookup(b.entries, key).value);
        }
      }
    case _ =>
  }

  lemma {:induction false} SameTransitive(a: Value, b: Value, c: Value)
    requires Same(a, b) && Same(b, c)
    ensures Same(a, c)
    decreases a
  {
    match a
    case List(items) =>
      if b.List? && c.List? {
        forall i | 0 <= i < |items|
          ensures Same(items[i], c.items[i])
        {
          SameTransitive(items[i], b.items[i], c.items[i]);
        }
      }
    case Dict(entries) =>
      if b.Dict? && c.Dict? {
        forall i | 0 <= i < |entries|
          ensures var key := entries[i].key;
                  Lookup(entries, key).Some? && Lookup(c.entries, key).Some?
                  && Same(Lookup(entries, key).value, Lookup(c.entries, key).value)
        {
          var key := entries[i].key;
          var mine, theirs := Lookup(entries, key).value, Lookup(b.entries, key).value;
          var j :| 0 <= j < |entries| && entries[j].key == key && entries[j].value == mine;
          var k :| 0 <= k < |b.entries| && b.entries[k].key == key && b.entries[k].value == theirs;
          SameTransitive(entries[j].value, theirs, Lookup(c.entries, key).value);
        }
        forall i | 0 <= i < |c.entries|
          ensures Lookup(entries, c.entries[i].key).Some?
        {
          var key := c.entries[i].key;
          var k :| 0 <= k < |b.entries| && b.entries[k].key == key;
        }
      }
    case _ =>
  }

  /** Figures are the same by value, a truth value standing for one or zero; other scalars are as they are. */
  lemma SameScalars(a: Value, b: Value)
    requires !a.List? && !a.Dict?
    ensures Same(a, b) <==> if Numeric(a) then Numeric(b) && Figure(a) == Figure(b) else a == b
  {
  }

  lemma {:induction false} CommonSymmetric(a: seq<Value>, b: seq<Value>)
    ensures Common(a, b) == Common(b, a)
    decreases |a|
  {
    if a != [] && b != [] {
      if Same(a[0], b[0]) {
        SameSymmetric(a[0], b[0]);
        CommonSymmetric(a[1..], b[1..]);
      } else if Same(b[0], a[0]) {
        SameSymmetric(b[0], a[0]);
      }
    }
  }

  lemma {:induction false} CommonTextSymmetric(a: string, b: string)
    ensures CommonText(a, b) == CommonText(b, a)
  {
    if a != "" && b != "" && a[0] == b[0] {
      CommonTextSymmetric(a[1..], b[1..]);
    }
  }

  lemma {:induction false} CompareTextMeans(a: string, b: string)
    ensures var k := CommonText(a, b);
            CompareText(a, b)
            == if k == |a| || k == |b| then CompareInts(|a|, |b|) else CompareInts(a[k] as int, b[k] as int)
  {
    if a != "" && b != "" && a[0] == b[0] {
      CompareTextMeans(a[1..], b[1..]);
    }
  }

  lemma {:induction false} CompareItemsMeans(a: seq<Value>, b: seq<Value>)
    ensures var k := Common(a, b);
            CompareItems(a, b) == if k == |a| || k == |b| then CompareInts(|a|, |b|) else Compare(a[k], b[k])
    decreases |a|
  {
    if a != [] && b != [] && Same(a[0], b[0]) {
      CompareItemsMeans(a[1..], b[1..]);
    }
  }

  lemma SameLists(a: seq<Value>, b: seq<Value>)
    ensures Same(List(a), List(b)) <==> |a| == |b| == Common(a, b)
  {
    var k := Common(a, b);
    assert Same(List(a), List(b)) <==> |a| == |b| && forall i :: 0 <= i < |a| ==> Same(a[i], b[i]);
  }

  lemma SameTexts(a: string, b: string)
    ensures a == b <==> |a| == |b| == CommonText(a, b)
  {
    TakeAll(a);
    TakeAll(b);
  }

  /** The evaluator's comparison is the order by first difference, and fails exactly where there is none. */
  ghost predicate Ranks(o: Ordering, a: Value, b: Value) {
    && (o == Incomparable <==> !Ranked(a, b))
    && (o == Less <==> Ranked(a, b) && Before(a, b))
    && (o == Equal <==> Ranked(a, b) && Same(a, b))
    && (o == Greater <==> Ranked(a, b) && Before(b, a))
  }

  lemma {:induction false} CompareMeans(a: Value, b: Value)
    ensures Ranks(Compare(a, b), a, b)
    decreases a
  {
    if a.Str? && b.Str? {
      TextRanks(a.s, b.s);
    } else if a.List? && b.List? {
      var k := Common(a.items, b.items);
      if k < |a.items| && k < |b.items| {
        CompareMeans(a.items[k], b.items[k]);
      }
      ListRanks(a.items, b.items);
    }
  }

  lemma TextRanks(a: string, b: string)
    ensures Ranks(CompareText(a, b), Str(a), Str(b))
  {
    CompareTextMeans(a, b);
    CommonTextSymmetric(a, b);
    SameTexts(a, b);
  }

  lemma ListRanks(a: seq<Value>, b: seq<Value>)
    requires var k := Common(a, b); k < |a| && k < |b| ==> Ranks(Compare(a[k], b[k]), a[k], b[k])
    ensures Ranks(CompareItems(a, b), List(a), List(b))
  {
    CompareItemsMeans(a, b);
    CommonSymmetric(a, b);
    SameLists(a, b);
  }

  /** No answer exactly for present values without an order; otherwise what the operator means. */
  lemma OrderedMeans(left: Value, right: Value, op: Cmp)
    ensures Ordered(left, right, op) == None <==> !left.Null? && !right.Null? && !Ranked(left, right)
    ensures Ordered(left, right, op).Some? ==>
              Ordered(left, right, op).value == (!left.Null? && !right.Null? && Means(op, left, right))
  {
    CompareMeans(left, right);
    if Same(left, right) {
      SameSymmetric(left, right);
    } else if Same(right, left) {
      SameSymmetric(right, left);
    }
  }

  /** Greater is less with the sides exchanged, and `at least` is `at most` so. */
  lemma SidesExchange(left: Value, right: Value)
    ensures Ordered(left, right, Gt) == Ordered(right, left, Lt)
    ensures Ordered(left, right, Ge) == Ordered(right, left, Le)
  {
    OrderedMeans(left, right, Gt);
    OrderedMeans(right, left, Lt);
    OrderedMeans(left, right, Ge);
    OrderedMeans(right, left, Le);
    if Ranked(left, right) {
      RankedSymmetric(left, right);
    } else if Ranked(right, left) {
      RankedSymmetric(right, left);
    }
  }

  lemma {:induction false} RankedSymmetric(a: Value, b: Value)
    requires Ranked(a, b)
    ensures Ranked(b, a)
    decreases a
  {
    if a.List? && b.List? {
      CommonSymmetric(a.items, b.items);
      var k := Common(a.items, b.items);
      if k < |a.items| && k < |b.items| {
        RankedSymmetric(a.items[k], b.items[k]);
      }
    }
  }

  predicate Fold(bs: seq<bool>, disjunction: bool) {
    if disjunction then exists i :: 0 <= i < |bs| && bs[i] else forall i :: 0 <= i < |bs| ==> bs[i]
  }

  /** How each well-formed interval comes out. */
  function OverlapEach(start: Value, end: Value, intervals: seq<Value>, inclusive: bool, f: Settlement): seq<bool> {
    if intervals == [] then []
    else
      (if ProperPair(intervals[0]) then [Meets(start, end, intervals[0], inclusive, f)] else [])
      + OverlapEach(start, end, intervals[1..], inclusive, f)
  }

  lemma {:induction false} SomeMeets(start: Value, end: Value, intervals: seq<Value>, inclusive: bool, f: Settlement)
    ensures Fold(OverlapEach(start, end, intervals, inclusive, f), true) <==>
              exists i :: 0 <= i < |intervals| && Meets(start, end, intervals[i], inclusive, f)
  {
    if intervals != [] {
      var first, rest := intervals[0], intervals[1..];
      SomeMeets(start, end, rest, inclusive, f);
      var later := OverlapEach(start, end, rest, inclusive, f);
      if i :| 0 <= i < |intervals| && Meets(start, end, intervals[i], inclusive, f) {
        assert i > 0 ==> Meets(start, end, rest[i - 1], inclusive, f);
      }
      if i :| 0 <= i < |rest| && Meets(start, end, rest[i], inclusive, f) {
        assert Meets(start, end, intervals[i + 1], inclusive, f);
      }
      if ProperPair(first) {
        FoldCons(Meets(start, end, first, inclusive, f), later);
      } else {
        ConcatNil(later);
      }
    }
  }

  lemma FoldCons(b: bool, bs: seq<bool>)
    ensures Fold([b] + bs, true) <==> b || Fold(bs, true)
  {
    if i :| 0 <= i < |bs| && bs[i] {
      assert ([b] + bs)[i + 1];
    }
    if b {
      assert ([b] + bs)[0];
    }
  }

  // ----- exactness -------------------------------------------------------------------------

  /** `r` sums up how a truth value comes out: `b` under some settlement, `hi` and `lo` under the extremes. */
  predicate SumsUp(r: Option<bool>, b: bool, hi: bool, lo: bool) {
    if r.Some? then b == hi == lo == r.value else hi && !lo
  }

  lemma CombineSumsUp(results: seq<Option<bool>>, disjunction: bool, bs: seq<bool>, his: seq<bool>, los: seq<bool>)
    requires |results| == |bs| == |his| == |los|
    requires forall i :: 0 <= i < |results| ==> SumsUp(results[i], bs[i], his[i], los[i])
    ensures SumsUp(Combine(results, disjunction), Fold(bs, disjunction), Fold(his, disjunction), Fold(los, disjunction))
  {
    assert forall i :: 0 <= i < |results| ==> results[i] in results;
    if Some(disjunction) in results {
      var i :| 0 <= i < |results| && results[i] == Some(disjunction);
      assert bs[i] == his[i] == los[i] == disjunction;
    } else if None in results {
      var i :| 0 <= i < |results| && results[i] == None;
      assert his[i] && !los[i];
    } else {
      assert forall i :: 0 <= i < |results| ==> bs[i] == his[i] == los[i] == !disjunction;
    }
  }

  /** How an ordered comparison's answer sums up one settlement and the two extreme ones. */
  lemma OrderedExact(left: Value, right: Value, op: Cmp, f: Settlement)
    ensures SumsUp(Ordered(left, right, op), OrderedWith(left, right, op, f),
                   OrderedWith(left, right, op, Always(true)), OrderedWith(left, right, op, Always(false)))
  {
    OrderedMeans(left, right, op);
  }

  lemma LeafExact(op: OpKind, actual: Value, value: Value, f: Settlement)
    ensures SumsUp(Leaf(op, actual, value), LeafSays(op, actual, value, f),
                   LeafSays(op, actual, value, Always(true)), LeafSays(op, actual, value, Always(false)))
  {
    match op
    case Between =>
      if value.List? && |value.items| == 2 {
        OrderedExact(value.items[0], actual, Le, f);
        OrderedExact(actual, value.items[1], Le, f);
      }
    case Compares(cmp) => OrderedExact(actual, value, cmp, f);
    case _ =>
  }

  lemma OverlapOneExact(start: Value, end: Value, pair: Value, inclusive: bool, f: Settlement)
    requires ProperPair(pair)
    ensures SumsUp(OverlapOne(start, end, pair, inclusive), Meets(start, end, pair, inclusive, f),
                   Meets(start, end, pair, inclusive, Always(true)),
                   Meets(start, end, pair, inclusive, Always(false)))
  {
    OrderedExact(start, pair.items[1], if inclusive then Le else Lt, f);
    OrderedExact(end, pair.items[0], if inclusive then Ge else Gt, f);
  }

  ghost predicate EachSumsUp(results: seq<Option<bool>>, bs: seq<bool>, his: seq<bool>, los: seq<bool>) {
    && |results| == |bs| == |his| == |los|
    && forall i :: 0 <= i < |results| ==> SumsUp(results[i], bs[i], his[i], los[i])
  }

  lemma EachCons(r: Option<bool>, b: bool, hi: bool, lo: bool,
                 results: seq<Option<bool>>, bs: seq<bool>, his: seq<bool>, los: seq<bool>)
    requires SumsUp(r, b, hi, lo) && EachSumsUp(results, bs, his, los)
    ensures EachSumsUp([r] + results, [b] + bs, [hi] + his, [lo] + los)
  {
  }

  lemma {:induction false} OverlapEachExact(start: Value, end: Value, intervals: seq<Value>, inclusive: bool,
                                            f: Settlement)
    ensures EachSumsUp(OverlapResults(start, end, intervals, inclusive),
                       OverlapEach(start, end, intervals, inclusive, f),
                       OverlapEach(start, end, intervals, inclusive, Always(true)),
                       OverlapEach(start, end, intervals, inclusive, Always(false)))
  {
    if intervals != [] {
      var rest := intervals[1..];
      OverlapEachExact(start, end, rest, inclusive, f);
      if ProperPair(intervals[0]) {
        var pair := intervals[0];
        OverlapOneExact(start, end, pair, inclusive, f);
        EachCons(OverlapOne(start, end, pair, inclusive), Meets(start, end, pair, inclusive, f),
                 Meets(start, end, pair, inclusive, Always(true)),
                 Meets(start, end, pair, inclusive, Always(false)),
                 OverlapResults(start, end, rest, inclusive), OverlapEach(start, end, rest, inclusive, f),
                 OverlapEach(start, end, rest, inclusive, Always(true)),
                 OverlapEach(start, end, rest, inclusive, Always(false)));
      }
    }
  }

  lemma OverlapExact(element: Value, where: Value, f: Settlement)
    ensures SumsUp(OverlapClause(element, where, Get(where, "against")), OverlapSays(element, where, f),
                   OverlapSays(element, where, Always(true)), OverlapSays(element, where, Always(false)))
  {
    var start, end := Pluck(element, Get(where, "start_path")), Pluck(element, Get(where, "end_path"));
    var against, inclusive := Get(where, "against"), Inclusive(where);
    if !start.Null? && !end.Null? && against.Some? && against.value.List? {
      var intervals := against.value.items;
      OverlapEachExact(start, end, intervals, inclusive, f);
      CombineSumsUp(OverlapResults(start, end, intervals, inclusive), true,
                    OverlapEach(start, end, intervals, inclusive, f),
                    OverlapEach(start, end, intervals, inclusive, Always(true)),
                    OverlapEach(start, end, intervals, inclusive, Always(false)));
      SomeMeets(start, end, intervals, inclusive, f);
      SomeMeets(start, end, intervals, inclusive, Always(true));
      SomeMeets(start, end, intervals, inclusive, Always(false));
    }
  }

  /** How the evaluator's answer sums up one settlement and the two extreme ones. */
  ghost predicate AnswersFor(element: Value, where: Value, f: Settlement) {
    SumsUp(PredicateResult(element, where), Holds(element, where, f),
           Holds(element, where, Always(true)), Holds(element, where, Always(false)))
  }

  lemma LeafIsSafe(element: Value, where: Value, f: Settlement)
    requires where.Dict? && Composition(where).None? && OpOf(where) != Overlaps
    ensures AnswersFor(element, where, f)
  {
    OperatorIsKind(where);
    LeafExact(OpOf(where), Pluck(element, Get(where, "path")), ValueOf(where), f);
  }

  lemma OverlapIsSafe(element: Value, where: Value, f: Settlement)
    requires where.Dict? && Composition(where).None? && OpOf(where) == Overlaps
    ensures AnswersFor(element, where, f)
  {
    OperatorIsKind(where);
    OverlapExact(element, where, f);
  }

  lemma {:induction false} AnswerIsSafe(element: Value, where: Value, f: Settlement)
    ensures AnswersFor(element, where, f)
    decreases where
  {
    if where.Dict? {
      if Composition(where).Some? {
        var (disjunction, clauses) := Composition(where).value;
        ClausesSmaller(where);
        if clauses.List? && clauses.items != [] {
          CompositionIsSafe(element, clauses.items, disjunction, f);
          ComposedIsSafe(element, where, f);
        }
      } else if OpOf(where) == Overlaps {
        OverlapIsSafe(element, where, f);
      } else {
        LeafIsSafe(element, where, f);
      }
    }
  }

  /** How a composition's answer sums up its clauses under one settlement and the two extreme ones. */
  ghost predicate ClausesAnswerFor(element: Value, clauses: seq<Value>, disjunction: bool, f: Settlement) {
    SumsUp(Combine(ClauseResults(element, clauses), disjunction),
           Fold(HoldsEach(element, clauses, f), disjunction),
           Fold(HoldsEach(element, clauses, Always(true)), disjunction),
           Fold(HoldsEach(element, clauses, Always(false)), disjunction))
  }

  lemma ComposedIsSafe(element: Value, where: Value, f: Settlement)
    requires where.Dict? && Composition(where).Some?
    requires var (disjunction, clauses) := Composition(where).value;
             clauses.List? && clauses.items != [] && ClausesAnswerFor(element, clauses.items, disjunction, f)
    ensures AnswersFor(element, where, f)
  {
    ComposedHolds(element, where, f);
    ComposedHolds(element, where, Always(true));
    ComposedHolds(element, where, Always(false));
  }

  function HoldsEach(element: Value, clauses: seq<Value>, f: Settlement): (r: seq<bool>)
    ensures |r| == |clauses|
    ensures forall i :: 0 <= i < |clauses| ==> r[i] == Holds(element, clauses[i], f)
  {
    if clauses == [] then []
    else HoldsEach(element, clauses[..|clauses| - 1], f) + [Holds(element, clauses[|clauses| - 1], f)]
  }

  lemma {:induction false} CompositionIsSafe(element: Value, clauses: seq<Value>, disjunction: bool, f: Settlement)
    requires clauses != []
    ensures ClausesAnswerFor(element, clauses, disjunction, f)
    decreases clauses
  {
    var results := ClauseResults(element, clauses);
    var bs := HoldsEach(element, clauses, f);
    var his, los := HoldsEach(element, clauses, Always(true)), HoldsEach(element, clauses, Always(false));
    forall i | 0 <= i < |clauses|
      ensures SumsUp(results[i], bs[i], his[i], los[i])
    {
      ClauseResultAt(element, clauses, i);
      AnswerIsSafe(element, clauses[i], f);
    }
    CombineSumsUp(results, disjunction, bs, his, los);
  }

  lemma ComposedHolds(element: Value, where: Value, f: Settlement)
    requires Composition(where).Some? && Composition(where).value.1.List? && Composition(where).value.1.items != []
    requires where.Dict?
    ensures var (disjunction, clauses) := Composition(where).value;
            Holds(element, where, f) <==> Fold(HoldsEach(element, clauses.items, f), disjunction)
  {
    var (disjunction, clauses) := Composition(where).value;
    var bs := HoldsEach(element, clauses.items, f);
    if disjunction && Holds(element, where, f) {
      var i :| 0 <= i < |clauses.items| && Holds(element, clauses.items[i], f);
      assert bs[i];
    }
  }

  /**
   * The three-valued evaluator is exact: it says true or false precisely when every settlement of
   * the incomparable comparisons gives that answer, and undecidable precisely when two disagree.
   */
  lemma ThreeValuedIsExact(element: Value, where: Value)
    ensures PredicateResult(element, where) == Some(true) <==> forall f: Settlement :: Holds(element, where, f)
    ensures PredicateResult(element, where) == Some(false) <==> forall f: Settlement :: !Holds(element, where, f)
    ensures PredicateResult(element, where) == None <==>
              exists f: Settlement, g: Settlement :: Holds(element, where, f) != Holds(element, where, g)
  {
    var answer := PredicateResult(element, where);
    if answer.Some? {
      forall f: Settlement
        ensures Holds(element, where, f) == answer.value
      {
        AnswerIsSafe(element, where, f);
      }
      assert Holds(element, where, Always(true)) == answer.value;
    } else {
      UndecidedDisagrees(element, where);
    }
  }

  lemma UndecidedDisagrees(element: Value, where: Value)
    requires PredicateResult(element, where).None?
    ensures exists f: Settlement, g: Settlement :: Holds(element, where, f) != Holds(element, where, g)
  {
    var f, g := Always(true), Always(false);
    AnswerIsSafe(element, where, f);
    assert Holds(element, where, f) != Holds(element, where, g);
  }

  // ----- filtering -------------------------------------------------------------------------

  predicate Matches(element: Value, where: Value) {
    PredicateResult(element, where) == Some(true)
  }

  predicate Undecided(element: Value, where: Value) {
    PredicateResult(element, where).None?
  }

  /** The position of the first element the predicate cannot decide. */
  method OrderedPredicateDefect(collection: seq<Value>, where: Value) returns (defect: Option<nat>)
    ensures defect.Some? ==>
              && defect.value < |collection|
              && Undecided(collection[defect.value], where)
              && forall i :: 0 <= i < defect.value ==> !Undecided(collection[i], where)
    ensures defect.None? <==> forall element :: element in collection ==> !Undecided(element, where)
  {
    for index := 0 to |collection|
      invariant forall i :: 0 <= i < index ==> !Undecided(collection[i], where)
    {
      var element := collection[index];
      if Undecided(element, where) {
        return Some(index);
      }
    }
    return None;
  }

  /** A collection that passes is split into certain matches and certain non-matches. */
  lemma PassingMeansCertain(collection: seq<Value>, where: Value, f: Settlement)
    requires forall element :: element in collection ==> !Undecided(element, where)
    ensures forall element :: element in collection ==> (Matches(element, where) <==> Holds(element, where, f))
  {
    forall element | element in collection
      ensures Matches(element, where) <==> Holds(element, where, f)
    {
      AnswerIsSafe(element, where, f);
    }
  }
}
