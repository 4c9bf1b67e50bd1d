/**
 * Resolving a predicate: references in operand position become literals before the evaluator runs,
 * so that evaluation stays a comparison of literals. Every defect is reported, never swallowed.
 */
module PredicateResolution {
  import opened Options
  import opened Sequences
  import opened Values
  import opened References
  import opened Predicates

  // ----- what counts as a collection -------------------------------------------------------

  const PAGE_META: set<string> :=
    {"count", "cursor", "has_more", "limit", "next_cursor", "next_offset", "offset", "page", "page_size",
     "per_page", "range", "total", "total_count", "view_limit"}

  const PAGE_META_ENVELOPE: set<string> := {"meta", "metadata", "page_info", "pagination"}

  predicate IsMetaBlock(e: Entry) {
    && e.key in PAGE_META_ENVELOPE && e.value.Dict? && e.value.entries != []
    && forall i :: 0 <= i < |e.value.entries| ==> e.value.entries[i].key in PAGE_META
  }

  /** A field a paginated envelope may carry beside its payload. */
  predicate IsPageField(e: Entry) {
    if e.value.Dict? then IsMetaBlock(e) else e.key in PAGE_META
  }

  /** The one list of a paginated envelope, if this is one. */
  function Paginated(entries: seq<Entry>, payload: Option<seq<Value>>): Option<seq<Value>> {
    if entries == [] then payload
    else if entries[0].value.List? then
      if payload.Some? then None else Paginated(entries[1..], Some(entries[0].value.items))
    else if !IsPageField(entries[0]) then None
    else Paginated(entries[1..], payload)
  }

  function EntryValues(entries: seq<Entry>): seq<Value> {
    if entries == [] then [] else [entries[0].value] + EntryValues(entries[1..])
  }

  predicate AllRecords(entries: seq<Entry>) {
    forall i :: 0 <= i < |entries| ==> entries[i].value.Dict?
  }

  function AsCollection(v: Value): Option<seq<Value>> {
    match v
    case List(items) => Some(items)
    case Dict(entries) =>
      if entries == [] then Some([])
      else if |entries| == 1 && AsCollection(entries[0].value).Some? then AsCollection(entries[0].value)
      else if Paginated(entries, None).Some? then Paginated(entries, None)
      else if AllRecords(entries) then Some(EntryValues(entries))
      else None
    case _ => None
  }

  /** A field that may stand beside the payload of a page: vocabulary, alone or gathered under a known name. */
  ghost predicate Beside(e: Entry) {
    && !e.value.List?
    && (!e.value.Dict? ==> e.key in PAGE_META)
    && (e.value.Dict? ==>
          && e.key in PAGE_META_ENVELOPE && e.value.entries != []
          && forall inner :: inner in e.value.entries ==> inner.key in PAGE_META)
  }

  /** Entry `i` is the payload of a page: the one list, with nothing but such fields beside it. */
  ghost predicate PayloadAt(entries: seq<Entry>, i: nat) {
    && i < |entries| && entries[i].value.List?
    && forall j :: 0 <= j < |entries| && j != i ==> Beside(entries[j])
  }

  lemma BesideIsPageField(e: Entry)
    requires !e.value.List?
    ensures IsPageField(e) <==> Beside(e)
  {
  }

  lemma {:induction false} PaginatedRest(entries: seq<Entry>, payload: seq<Value>)
    ensures Paginated(entries, Some(payload)) ==
              if forall j :: 0 <= j < |entries| ==> Beside(entries[j]) then Some(payload) else None
  {
    if entries != [] {
      PaginatedRest(entries[1..], payload);
      if !entries[0].value.List? {
        BesideIsPageField(entries[0]);
      }
      assert (forall j :: 0 <= j < |entries| ==> Beside(entries[j])) <==>
               Beside(entries[0]) && forall j :: 0 <= j < |entries[1..]| ==> Beside(entries[1..][j]) by {
        assert forall j :: 0 < j < |entries| ==> entries[j] == entries[1..][j - 1];
      }
    }
  }

  /** A page is a mapping with exactly one list, beside nothing but the vocabulary of pages. */
  lemma {:induction false} PaginatedMeans(entries: seq<Entry>)
    ensures forall i: nat :: PayloadAt(entries, i) ==> Paginated(entries, None) == Some(entries[i].value.items)
    ensures Paginated(entries, None).Some? ==> exists i: nat :: PayloadAt(entries, i)
  {
    if entries != [] {
      var rest := entries[1..];
      assert forall j :: 0 < j < |entries| ==> entries[j] == rest[j - 1];
      assert forall j :: 0 <= j < |rest| ==> rest[j] == entries[j + 1];
      if entries[0].value.List? {
        PaginatedRest(rest, entries[0].value.items);
        assert PayloadAt(entries, 0) <==> forall j :: 0 <= j < |rest| ==> Beside(rest[j]);
      } else {
        PaginatedMeans(rest);
        BesideIsPageField(entries[0]);
        forall i: nat | PayloadAt(entries, i)
          ensures PayloadAt(rest, i - 1) && Beside(entries[0])
        {
        }
        if Paginated(entries, None).Some? {
          var i: nat :| PayloadAt(rest, i);
          assert PayloadAt(entries, i + 1);
        }
      }
    }
  }

  lemma {:induction false} EntryValuesAt(entries: seq<Entry>)
    ensures |EntryValues(entries)| == |entries|
    ensures forall i :: 0 <= i < |entries| ==> EntryValues(entries)[i] == entries[i].value
  {
    if entries != [] {
      EntryValuesAt(entries[1..]);
    }
  }

  /** `members` are the values of the entries, in order. */
  predicate ValuesOf(members: seq<Value>, entries: seq<Entry>) {
    |members| == |entries| && forall i :: 0 <= i < |entries| ==> members[i] == entries[i].value
  }

  /**
   * What counts as a collection: a list; a mapping around one; the payload of a page; the records of a
   * mapping of records; an empty mapping. A single record or a mapping of scalars does not.
   */
  lemma CollectionMeans(v: Value, entries: seq<Entry>)
    requires v.Dict? ==> v.entries == entries
    ensures v.List? ==> AsCollection(v) == Some(v.items)
    ensures !v.List? && !v.Dict? ==> AsCollection(v) == None
    ensures v.Dict? && |entries| == 1 && AsCollection(entries[0].value).Some? ==>
              AsCollection(v) == AsCollection(entries[0].value)
    ensures v.Dict? && !(|entries| == 1 && AsCollection(entries[0].value).Some?) ==>
              forall i: nat :: PayloadAt(entries, i) ==> AsCollection(v) == Some(entries[i].value.items)
    ensures v.Dict? && !(|entries| == 1 && AsCollection(entries[0].value).Some?)
            && !(exists i: nat :: PayloadAt(entries, i)) ==>
              if forall i :: 0 <= i < |entries| ==> entries[i].value.Dict?
              then AsCollection(v).Some? && ValuesOf(AsCollection(v).value, entries)
              else AsCollection(v) == None
  {
    PaginatedMeans(entries);
    EntryValuesAt(entries);
  }

  // ----- defects ---------------------------------------------------------------------------

  datatype Defect =
    | NotAClause | SoftClause | ClausesNotAList | NoClauses | SoftOperand | UnknownSource | UnreadablePath
    | NotAPair | MissingBound | Uncomparable | NotACollection | NoIntervals | Escapes

  datatype Result<T> = Ok(value: T) | Bad(defect: Defect)

  function FromOutcome(o: Outcome): Result<Value> {
    match o
    case Resolved(value) => Ok(value)
    case Missing => Bad(UnknownSource)
    case BadPath => Bad(UnreadablePath)
    case Raises => Bad(Escapes)
  }

  predicate HoldsReference(items: seq<Value>) {
    exists i :: 0 <= i < |items| && IsReference(items[i])
  }

  /** The collection a hard reference stands for. */
  function ResolveCollection(ref: Value, w: World): Result<seq<Value>>
    requires IsReference(ref) && !Has(ref, DECIDE)
  {
    var r := FromOutcome(ResolveRef(ref, w));
    if r.Bad? then Bad(r.defect)
    else if AsCollection(r.value).None? then Bad(NotACollection)
    else Ok(AsCollection(r.value).value)
  }

  // ----- operands --------------------------------------------------------------------------

  function ResolveItem(item: Value, w: World): Result<Value> {
    if !IsReference(item) then Ok(item)
    else if Has(item, DECIDE) then Bad(SoftOperand)
    else FromOutcome(ResolveRef(item, w))
  }

  function ResolveOperandItems(items: seq<Value>, w: World): Result<seq<Value>> {
    if items == [] then Ok([])
    else
      var first := ResolveItem(items[0], w);
      if first.Bad? then Bad(first.defect)
      else
        var rest := ResolveOperandItems(items[1..], w);
        if rest.Bad? then Bad(rest.defect) else Ok([first.value] + rest.value)
  }

  /** Why an operand that was read cleanly still cannot be compared against. */
  function OperandDefect(op: OpKind, operand: Value): Option<Defect> {
    match op
    case Between =>
      if !(operand.List? && |operand.items| == 2) then Some(NotAPair)
      else if operand.items[0].Null? || operand.items[1].Null? then Some(MissingBound)
      else None
    case Compares(_) => if operand.Null? || operand.Dict? || operand.List? then Some(Uncomparable) else None
    case _ => None
  }

  function Set(entries: seq<Entry>, key: string, v: Value): (r: seq<Entry>) {
    if entries == [] then [Entry(key, v)]
    else if entries[0].key == key then [Entry(key, v)] + entries[1..]
    else [entries[0]] + Set(entries[1..], key, v)
  }

  function Without(entries: seq<Entry>, key: string): (r: seq<Entry>) {
    if entries == [] then []
    else if entries[0].key == key then Without(entries[1..], key)
    else [entries[0]] + Without(entries[1..], key)
  }

  lemma {:induction false} SetLookup(entries: seq<Entry>, key: string, v: Value, other: string)
    ensures Lookup(Set(entries, key, v), other) == if other == key then Some(v) else Lookup(entries, other)
  {
    if entries != [] && entries[0].key != key {
      SetLookup(entries[1..], key, v, other);
    }
  }

  lemma {:induction false} WithoutLookup(entries: seq<Entry>, key: string, other: string)
    ensures Lookup(Without(entries, key), other) == if other == key then None else Lookup(entries, other)
  {
    if entries != [] {
      WithoutLookup(entries[1..], key, other);
    }
  }

  function Project(members: seq<Value>, path: Option<Value>): seq<Value> {
    if members == [] then [] else [Pluck(members[0], path)] + Project(members[1..], path)
  }

  function Pairs(members: seq<Value>, startPath: Option<Value>, endPath: Option<Value>): seq<Value> {
    if members == [] then []
    else [List([Pluck(members[0], startPath), Pluck(members[0], endPath)])] + Pairs(members[1..], startPath, endPath)
  }

  predicate IsMembership(op: OpKind) { op == In || op == NotIn }

  /** A membership operator only counts as one when it is written out: the default is equality. */
  function Operand(where: Value, w: World): Result<Value> {
    var written := ValueOf(where);
    if written.List? && HoldsReference(written.items) then
      var items := ResolveOperandItems(written.items, w);
      if items.Bad? then Bad(items.defect) else Checked(where, List(items.value))
    else if !IsReference(written) then Checked(where, written)
    else if Has(written, DECIDE) then Bad(SoftOperand)
    else if !IsMembership(OpOf(where)) then
      var r := FromOutcome(ResolveRef(written, w));
      if r.Bad? then r else Checked(where, r.value)
    else
      var members := ResolveCollection(written, w);
      if members.Bad? then Bad(members.defect) else Ok(List(Project(members.value, Get(where, "value_path"))))
  }

  function Checked(where: Value, operand: Value): Result<Value> {
    var defect := OperandDefect(OpOf(where), operand);
    if defect.Some? then Bad(defect.value) else Ok(operand)
  }

  /** Whether resolving an operand also consumes `value_path`. */
  predicate Projects(where: Value) {
    var written := ValueOf(where);
    IsReference(written) && IsMembership(OpOf(where))
  }

  function Intervals(where: Value, w: World): Result<Value> {
    var against := Get(where, "against");
    if against.None? then Bad(NoIntervals)
    else
      var ref := against.value;
      if IsReference(ref) && Has(ref, DECIDE) then Bad(SoftOperand)
      else
        var members :=
          if IsReference(ref) then ResolveCollection(ref, w)
          else if ref.List? then Ok(ref.items) else Bad(NoIntervals);
        if members.Bad? then Bad(members.defect)
        else Ok(List(Pairs(members.value, Get(where, "against_start_path"), Get(where, "against_end_path"))))
  }

  /** The clause with its intervals filled in and the paths they were read by consumed. */
  function WithIntervals(where: Value, intervals: Value): Value
    requires where.Dict?
  {
    Dict(Set(Without(Without(where.entries, "against_start_path"), "against_end_path"), "against", intervals))
  }

  function Filled(where: Value, operand: Value): Value
    requires where.Dict?
  {
    Dict(Set(if Projects(where) then Without(where.entries, "value_path") else where.entries, "value", operand))
  }

  // ----- the resolver ----------------------------------------------------------------------

  function CompositionKey(where: Value): string {
    if Get(where, "all").Some? then "all" else "any"
  }

  function ResolveClause(where: Value, w: World, top: bool): Result<Value>
    decreases where, 1
  {
    if !where.Dict? then Bad(NotAClause)
    else if Has(where, DECIDE) then (if top then Ok(where) else Bad(SoftClause))
    else if Composition(where).Some? then
      var clauses := Composition(where).value.1;
      ClausesSmaller(where);
      if !clauses.List? then Bad(ClausesNotAList)
      else if clauses.items == [] then Bad(NoClauses)
      else
        var resolved := ResolveClauses(clauses.items, w);
        if resolved.Bad? then Bad(resolved.defect)
        else Ok(Dict(Set(where.entries, CompositionKey(where), List(resolved.value))))
    else if OpOf(where) == Overlaps then
      var intervals := Intervals(where, w);
      if intervals.Bad? then Bad(intervals.defect)
      else Ok(WithIntervals(where, intervals.value))
    else
      var operand := Operand(where, w);
      if operand.Bad? then Bad(operand.defect)
      else if Get(where, "value").None? && !Projects(where) then Ok(where)
      else Ok(Filled(where, operand.value))
  }

  function ResolveClauses(clauses: seq<Value>, w: World): (r: Result<seq<Value>>)
    ensures r.Ok? ==> |r.value| == |clauses|
    decreases clauses, 0
  {
    if clauses == [] then Ok([])
    else
      var first := ResolveClause(clauses[0], w, false);
      if first.Bad? then Bad(first.defect)
      else
        var rest := ResolveClauses(clauses[1..], w);
        if rest.Bad? then Bad(rest.defect) else Ok([first.value] + rest.value)
  }

  // ----- evaluating in place ---------------------------------------------------------------

  /** A value as it reads in the world: a reference stands for what it names. */
  function Seen(v: Value, w: World): Value {
    if !IsReference(v) then v
    else
      match ResolveRef(v, w)
      case Resolved(got) => got
      case _ => Null
  }

  function SeenItems(items: seq<Value>, w: World): (r: seq<Value>)
    ensures |r| == |items| && forall i :: 0 <= i < |items| ==> r[i] == Seen(items[i], w)
  {
    if items == [] then [] else [Seen(items[0], w)] + SeenItems(items[1..], w)
  }

  function SeenOperand(v: Value, w: World): Value {
    if v.List? then List(SeenItems(v.items, w)) else Seen(v, w)
  }

  /** The members of the collection a reference names, or of a list written out. */
  function Members(v: Value, w: World): seq<Value> {
    if v.List? then v.items
    else if AsCollection(Seen(v, w)).Some? then AsCollection(Seen(v, w)).value
    else []
  }

  /** Some member shows this value at the given path. */
  predicate SomeShows(members: seq<Value>, path: Option<Value>, actual: Value) {
    exists i :: 0 <= i < |members| && Same(Pluck(members[i], path), actual)
  }

  /** How [start, end] overlaps one member whose interval lies at two paths; one without ends is skipped. */
  function OverlapMember(start: Value, end: Value, member: Value, where: Value): seq<Option<bool>> {
    var lo, hi := Pluck(member, Get(where, "against_start_path")), Pluck(member, Get(where, "against_end_path"));
    if lo.Null? || hi.Null? then []
    else [Combine([Ordered(start, hi, if Inclusive(where) then Le else Lt),
                   Ordered(end, lo, if Inclusive(where) then Ge else Gt)], false)]
  }

  function OverlapMembers(start: Value, end: Value, members: seq<Value>, where: Value): seq<Option<bool>> {
    if members == [] then []
    else OverlapMember(start, end, members[0], where) + OverlapMembers(start, end, members[1..], where)
  }

  function InPlaceOverlap(element: Value, where: Value, w: World): Option<bool> {
    var start, end := Pluck(element, Get(where, "start_path")), Pluck(element, Get(where, "end_path"));
    var against := Get(where, "against");
    if start.Null? || end.Null? || against.None? then Some(false)
    else Combine(OverlapMembers(start, end, Members(against.value, w), where), true)
  }

  function InPlaceLeaf(element: Value, where: Value, w: World): Option<bool> {
    var actual, written := Pluck(element, Get(where, "path")), ValueOf(where);
    if IsReference(written) && (OpOf(where) == In || OpOf(where) == NotIn) then
      Some(SomeShows(Members(written, w), Get(where, "value_path"), actual) <==> OpOf(where) == In)
    else Leaf(OpOf(where), actual, SeenOperand(written, w))
  }

  /**
   * The reference meaning: each clause looks at the world as it is evaluated, member by member, with
   * no operand put together beforehand.
   */
  function InPlace(element: Value, where: Value, w: World): Option<bool>
    decreases where, 1
  {
    if !where.Dict? then Some(false)
    else if Composition(where).Some? then
      var (disjunction, clauses) := Composition(where).value;
      ClausesSmaller(where);
      if !clauses.List? || clauses.items == [] then Some(false)
      else Combine(InPlaceEach(element, clauses.items, w), disjunction)
    else if OpOf(where) == Overlaps then InPlaceOverlap(element, where, w)
    else InPlaceLeaf(element, where, w)
  }

  function InPlaceEach(element: Value, clauses: seq<Value>, w: World): (r: seq<Option<bool>>)
    ensures |r| == |clauses|
    decreases clauses, 0
  {
    if clauses == [] then [] else [InPlace(element, clauses[0], w)] + InPlaceEach(element, clauses[1..], w)
  }

  // ----- meaning is preserved --------------------------------------------------------------

  /** Resolving changes no field but the operand it fills in and the paths it consumes. */
  lemma OverlapFieldKept(where: Value, intervals: Value, key: string)
    requires where.Dict?
    requires key != "against" && key != "against_start_path" && key != "against_end_path"
    ensures Get(WithIntervals(where, intervals), key) == Get(where, key)
  {
    var once := Without(where.entries, "against_start_path");
    SetLookup(Without(once, "against_end_path"), "against", intervals, key);
    WithoutLookup(once, "against_end_path", key);
    WithoutLookup(where.entries, "against_start_path", key);
  }

  lemma OverlapFields(where: Value, intervals: Value)
    requires where.Dict?
    ensures var r := WithIntervals(where, intervals);
            && Get(r, "op") == Get(where, "op") && Get(r, "boundaries") == Get(where, "boundaries")
            && Get(r, "start_path") == Get(where, "start_path") && Get(r, "end_path") == Get(where, "end_path")
            && Get(r, "all") == Get(where, "all") && Get(r, "any") == Get(where, "any")
            && Get(r, "against") == Some(intervals)
  {
    OverlapFieldKept(where, intervals, "op");
    OverlapFieldKept(where, intervals, "boundaries");
    OverlapFieldKept(where, intervals, "start_path");
    OverlapFieldKept(where, intervals, "end_path");
    OverlapFieldKept(where, intervals, "all");
    OverlapFieldKept(where, intervals, "any");
    var rest := Without(Without(where.entries, "against_start_path"), "against_end_path");
    SetLookup(rest, "against", intervals, "against");
  }

  lemma LeafFieldKept(where: Value, operand: Value, key: string)
    requires where.Dict? && key != "value" && key != "value_path"
    ensures Get(Filled(where, operand), key) == Get(where, key)
  {
    SetLookup(if Projects(where) then Without(where.entries, "value_path") else where.entries, "value", operand, key);
    WithoutLookup(where.entries, "value_path", key);
  }

  lemma LeafFields(where: Value, w: World)
    requires where.Dict? && !Has(where, DECIDE) && Composition(where).None? && OpOf(where) != Overlaps
    requires ResolveClause(where, w, false).Ok?
    ensures var r := ResolveClause(where, w, false).value;
            && r.Dict?
            && Get(r, "op") == Get(where, "op") && Get(r, "path") == Get(where, "path")
            && Get(r, "all") == Get(where, "all") && Get(r, "any") == Get(where, "any")
            && ValueOf(r) == Operand(where, w).value
  {
    var operand := Operand(where, w).value;
    if Get(where, "value").Some? || Projects(where) {
      LeafFieldKept(where, operand, "op");
      LeafFieldKept(where, operand, "path");
      LeafFieldKept(where, operand, "all");
      LeafFieldKept(where, operand, "any");
      var rest := if Projects(where) then Without(where.entries, "value_path") else where.entries;
      SetLookup(rest, "value", operand, "value");
    }
  }

  lemma {:induction false} ProjectAt(members: seq<Value>, path: Option<Value>)
    ensures |Project(members, path)| == |members|
    ensures forall i :: 0 <= i < |members| ==> Project(members, path)[i] == Pluck(members[i], path)
  {
    if members != [] {
      ProjectAt(members[1..], path);
    }
  }

  lemma ShownIsProjected(members: seq<Value>, path: Option<Value>, actual: Value)
    ensures ContainsSame(Project(members, path), actual) <==> SomeShows(members, path, actual)
  {
    ProjectAt(members, path);
    if SomeShows(members, path, actual) {
      var i :| 0 <= i < |members| && Same(Pluck(members[i], path), actual);
      assert Same(Project(members, path)[i], actual);
    }
  }

  lemma {:induction false} ItemsAsSeen(items: seq<Value>, w: World)
    requires ResolveOperandItems(items, w).Ok?
    ensures ResolveOperandItems(items, w).value == SeenItems(items, w)
  {
    if items != [] {
      ItemsAsSeen(items[1..], w);
    }
  }

  lemma LiteralsAsSeen(items: seq<Value>, w: World)
    requires forall i :: 0 <= i < |items| ==> !IsReference(items[i])
    ensures SeenItems(items, w) == items
  {
  }

  lemma ListAsSeen(where: Value, w: World)
    requires Operand(where, w).Ok? && ValueOf(where).List?
    ensures Operand(where, w).value == List(SeenItems(ValueOf(where).items, w))
  {
    var items := ValueOf(where).items;
    if HoldsReference(items) {
      ItemsAsSeen(items, w);
    } else {
      LiteralsAsSeen(items, w);
    }
  }

  /** Outside membership the operand put together beforehand is the value as it reads in the world. */
  lemma OperandAsSeen(where: Value, w: World)
    requires Operand(where, w).Ok? && !Projects(where)
    ensures Operand(where, w).value == SeenOperand(ValueOf(where), w)
  {
    if ValueOf(where).List? {
      ListAsSeen(where, w);
    }
  }

  lemma OperandAsMembers(where: Value, w: World)
    requires Operand(where, w).Ok? && Projects(where)
    ensures Operand(where, w).value == List(Project(Members(ValueOf(where), w), Get(where, "value_path")))
  {
  }

  lemma LeafClausePreserved(element: Value, where: Value, w: World)
    requires where.Dict? && !Has(where, DECIDE) && Composition(where).None? && OpOf(where) != Overlaps
    requires ResolveClause(where, w, false).Ok?
    ensures PredicateResult(element, ResolveClause(where, w, false).value) == InPlace(element, where, w)
  {
    LeafFields(where, w);
    if Projects(where) {
      OperandAsMembers(where, w);
      ShownIsProjected(Members(ValueOf(where), w), Get(where, "value_path"), Pluck(element, Get(where, "path")));
    } else {
      OperandAsSeen(where, w);
    }
  }

  lemma {:induction false} PairsOverlap(start: Value, end: Value, members: seq<Value>, where: Value)
    ensures OverlapResults(start, end, Pairs(members, Get(where, "against_start_path"), Get(where, "against_end_path")),
                           Inclusive(where))
            == OverlapMembers(start, end, members, where)
  {
    if members != [] {
      PairsOverlap(start, end, members[1..], where);
    }
  }

  lemma IntervalsAsMembers(where: Value, w: World)
    requires Intervals(where, w).Ok?
    ensures Get(where, "against").Some?
    ensures Intervals(where, w).value == List(Pairs(Members(Get(where, "against").value, w),
                                                    Get(where, "against_start_path"), Get(where, "against_end_path")))
  {
  }

  lemma OverlapClausePreserved(element: Value, where: Value, w: World)
    requires where.Dict? && !Has(where, DECIDE) && Composition(where).None? && OpOf(where) == Overlaps
    requires ResolveClause(where, w, false).Ok?
    ensures PredicateResult(element, ResolveClause(where, w, false).value) == InPlace(element, where, w)
  {
    OverlapFields(where, Intervals(where, w).value);
    IntervalsAsMembers(where, w);
    PairsOverlap(Pluck(element, Get(where, "start_path")), Pluck(element, Get(where, "end_path")),
                 Members(Get(where, "against").value, w), where);
  }

  /**
   * Resolving a predicate of any depth and then evaluating the literals gives the same three-valued
   * answer as evaluating it with each operand looked up in place.
   */
  lemma {:induction false} ResolutionPreservesMeaning(element: Value, where: Value, w: World)
    requires ResolveClause(where, w, false).Ok?
    ensures PredicateResult(element, ResolveClause(where, w, false).value) == InPlace(element, where, w)
    decreases where, 1
  {
    if Composition(where).Some? {
      var (disjunction, clauses) := Composition(where).value;
      ClausesSmaller(where);
      ClausesPreserved(element, clauses.items, w);
      var resolved := ResolveClauses(clauses.items, w).value;
      var r := ResolveClause(where, w, false).value;
      SetLookup(where.entries, CompositionKey(where), List(resolved), "all");
      SetLookup(where.entries, CompositionKey(where), List(resolved), "any");
      assert Composition(r) == Some((disjunction, List(resolved)));
    } else if OpOf(where) == Overlaps {
      OverlapClausePreserved(element, where, w);
    } else {
      LeafClausePreserved(element, where, w);
    }
  }

  lemma {:induction false} ClauseResultsCons(element: Value, first: Value, rest: seq<Value>)
    ensures ClauseResults(element, [first] + rest) == [PredicateResult(element, first)] + ClauseResults(element, rest)
    decreases |rest|
  {
    if rest == [] {
      ConcatNil([first]);
      ClauseResultsSnoc(element, rest, first);
      assert rest + [first] == [first] + rest;
    } else {
      var init, last := rest[..|rest| - 1], rest[|rest| - 1];
      Unsnoc(rest);
      ConsSnoc(first, init, last);
      ClauseResultsCons(element, first, init);
      ClauseResultsSnoc(element, init, last);
      ClauseResultsSnoc(element, [first] + init, last);
      ConsSnoc(PredicateResult(element, first), ClauseResults(element, init), PredicateResult(element, last));
    }
  }

  lemma ClauseResultsSnoc(element: Value, init: seq<Value>, last: Value)
    ensures ClauseResults(element, init + [last]) == ClauseResults(element, init) + [PredicateResult(element, last)]
  {
    Snoc(init, last);
  }

  lemma {:induction false} ClausesPreserved(element: Value, clauses: seq<Value>, w: World)
    requires ResolveClauses(clauses, w).Ok?
    ensures ClauseResults(element, ResolveClauses(clauses, w).value) == InPlaceEach(element, clauses, w)
    decreases clauses, 0
  {
    if clauses != [] {
      ResolutionPreservesMeaning(element, clauses[0], w);
      ClausesPreserved(element, clauses[1..], w);
      ClauseResultsCons(element, ResolveClause(clauses[0], w, false).value, ResolveClauses(clauses[1..], w).value);
    }
  }

  // ----- defects reach the top -------------------------------------------------------------

  /** A composed predicate resolves exactly when every one of its clauses does. */
  lemma {:induction false} ClausesOkIff(clauses: seq<Value>, w: World)
    ensures ResolveClauses(clauses, w).Ok? <==>
              forall i :: 0 <= i < |clauses| ==> ResolveClause(clauses[i], w, false).Ok?
    decreases clauses
  {
    if clauses != [] {
      ClausesOkIff(clauses[1..], w);
      assert forall i :: 0 <= i < |clauses[1..]| ==> clauses[1..][i] == clauses[i + 1];
      assert forall i :: 0 < i < |clauses| ==> clauses[i] == clauses[1..][i - 1];
    }
  }

  /** `clause` occurs in `where` by following compositions only. */
  predicate Contains(where: Value, clause: Value)
    decreases where
  {
    where == clause ||
    (where.Dict? && !Has(where, DECIDE) && Composition(where).Some? &&
     var clauses := Composition(where).value.1;
     ClausesSmaller(where);
     clauses.List? && exists i :: 0 <= i < |clauses.items| && Contains(clauses.items[i], clause))
  }

  /** A defect in any clause, however deep, is a defect of the whole predicate. */
  lemma {:induction false} DefectsReachTheTop(where: Value, clause: Value, w: World)
    requires Contains(where, clause) && ResolveClause(clause, w, false).Bad?
    ensures ResolveClause(where, w, false).Bad?
    decreases where
  {
    if where != clause {
      var clauses := Composition(where).value.1;
      ClausesSmaller(where);
      var i :| 0 <= i < |clauses.items| && Contains(clauses.items[i], clause);
      DefectsReachTheTop(clauses.items[i], clause, w);
      ClausesOkIff(clauses.items, w);
    }
  }

  // ----- what the evaluator is handed ------------------------------------------------------

  /** A value the operator can compare against: one ordered value, or for `between` a pair of bounds. */
  predicate Shaped(op: OpKind, v: Value) {
    match op
    case Compares(_) => !v.Null? && !v.List? && !v.Dict?
    case Between => v.List? && |v.items| == 2 && !v.items[0].Null? && !v.items[1].Null?
    case _ => true
  }

  /** Every ordered comparison anywhere in the predicate has a value of that shape to compare with. */
  predicate Comparable(where: Value)
    decreases where
  {
    where.Dict? &&
    if Composition(where).Some? then
      var clauses := Composition(where).value.1;
      ClausesSmaller(where);
      clauses.List? && clauses.items != [] && forall i :: 0 <= i < |clauses.items| ==> Comparable(clauses.items[i])
    else OpOf(where) != Overlaps ==> Shaped(OpOf(where), ValueOf(where))
  }

  lemma ComposedComparable(where: Value, w: World)
    requires where.Dict? && !Has(where, DECIDE) && Composition(where).Some?
    requires ResolveClause(where, w, false).Ok?
    requires var r := ResolveClauses(Composition(where).value.1.items, w);
             r.Ok? && forall i :: 0 <= i < |r.value| ==> Comparable(r.value[i])
    ensures Comparable(ResolveClause(where, w, false).value)
  {
    var (disjunction, clauses) := Composition(where).value;
    var resolved := ResolveClauses(clauses.items, w).value;
    var r := ResolveClause(where, w, false).value;
    SetLookup(where.entries, CompositionKey(where), List(resolved), "all");
    SetLookup(where.entries, CompositionKey(where), List(resolved), "any");
    assert Composition(r) == Some((disjunction, List(resolved)));
  }

  lemma OperandIsChecked(where: Value, w: World)
    requires Operand(where, w).Ok?
    ensures Projects(where) || Checked(where, Operand(where, w).value).Ok?
    ensures Shaped(OpOf(where), Operand(where, w).value)
  {
    if !Projects(where) {
      CheckedIff(where, Operand(where, w).value);
    }
  }

  lemma LeafComparable(where: Value, w: World)
    requires where.Dict? && !Has(where, DECIDE) && Composition(where).None? && OpOf(where) != Overlaps
    requires ResolveClause(where, w, false).Ok?
    ensures Comparable(ResolveClause(where, w, false).value)
  {
    LeafFields(where, w);
    OperandIsChecked(where, w);
  }

  lemma OverlapComparable(where: Value, w: World)
    requires where.Dict? && !Has(where, DECIDE) && Composition(where).None? && OpOf(where) == Overlaps
    requires ResolveClause(where, w, false).Ok?
    ensures Comparable(ResolveClause(where, w, false).value)
  {
    OverlapFields(where, Intervals(where, w).value);
  }

  /** Without a defect no ordered operand is a reference, null or a container, at any depth. */
  lemma {:induction false} ResolvedIsComparable(where: Value, w: World)
    requires ResolveClause(where, w, false).Ok?
    ensures Comparable(ResolveClause(where, w, false).value)
    decreases where, 1
  {
    if Composition(where).Some? {
      var (disjunction, clauses) := Composition(where).value;
      ClausesSmaller(where);
      EachComparable(clauses.items, w);
      ComposedComparable(where, w);
    } else if OpOf(where) == Overlaps {
      OverlapComparable(where, w);
    } else {
      LeafComparable(where, w);
    }
  }

  lemma {:induction false} EachComparable(clauses: seq<Value>, w: World)
    requires ResolveClauses(clauses, w).Ok?
    ensures forall i :: 0 <= i < |clauses| ==> Comparable(ResolveClauses(clauses, w).value[i])
    decreases clauses, 0
  {
    if clauses != [] {
      ResolvedIsComparable(clauses[0], w);
      EachComparable(clauses[1..], w);
    }
  }

  // ----- exactly which predicates resolve ----------------------------------------------------

  /** The reference can be read: it is not soft, and its source and path lead to a value. */
  predicate Legible(v: Value, w: World) {
    IsReference(v) ==> !Has(v, DECIDE) && ResolveRef(v, w).Resolved?
  }

  predicate LegibleItems(items: seq<Value>, w: World) {
    forall i :: 0 <= i < |items| ==> Legible(items[i], w)
  }

  predicate LegibleCollection(v: Value, w: World) {
    IsReference(v) && Legible(v, w) && AsCollection(Seen(v, w)).Some?
  }

  /** A comparison whose operand can be read and has the shape its operator compares against. */
  predicate LeafMakesSense(where: Value, w: World) {
    var written := ValueOf(where);
    if IsReference(written) && (OpOf(where) == In || OpOf(where) == NotIn) then LegibleCollection(written, w)
    else (if written.List? then LegibleItems(written.items, w) else Legible(written, w))
         && Shaped(OpOf(where), SeenOperand(written, w))
  }

  predicate OverlapMakesSense(where: Value, w: World) {
    var against := Get(where, "against");
    against.Some? && (against.value.List? || LegibleCollection(against.value, w))
  }

  /** Nothing in the predicate, at any depth, is soft, unreadable or misshapen. */
  predicate MakesSense(where: Value, w: World)
    decreases where
  {
    && where.Dict? && !Has(where, DECIDE)
    && if Composition(where).Some? then
         var clauses := Composition(where).value.1;
         ClausesSmaller(where);
         clauses.List? && clauses.items != []
         && forall i :: 0 <= i < |clauses.items| ==> MakesSense(clauses.items[i], w)
       else if OpOf(where) == Overlaps then OverlapMakesSense(where, w)
       else LeafMakesSense(where, w)
  }

  lemma {:induction false} ItemsOkIff(items: seq<Value>, w: World)
    ensures ResolveOperandItems(items, w).Ok? <==> LegibleItems(items, w)
  {
    if items != [] {
      ItemsOkIff(items[1..], w);
      assert LegibleItems(items, w) <==> Legible(items[0], w) && LegibleItems(items[1..], w) by {
        assert forall i :: 0 < i < |items| ==> items[i] == items[1..][i - 1];
      }
    }
  }

  lemma CheckedIff(where: Value, operand: Value)
    ensures Checked(where, operand).Ok? <==> Shaped(OpOf(where), operand)
  {
  }

  lemma LeafResolvesIff(where: Value, w: World)
    requires where.Dict? && !Has(where, DECIDE) && Composition(where).None? && OpOf(where) != Overlaps
    ensures ResolveClause(where, w, false).Ok? <==> Operand(where, w).Ok?
  {
  }

  lemma ListIsNoReference(v: Value)
    requires v.List?
    ensures !IsReference(v)
  {
  }

  lemma MixedOperand(where: Value, w: World, items: seq<Value>, resolved: Result<seq<Value>>)
    requires ValueOf(where) == List(items) && HoldsReference(items) && resolved == ResolveOperandItems(items, w)
    ensures Operand(where, w) == if resolved.Bad? then Bad(resolved.defect) else Checked(where, List(resolved.value))
  {
  }

  lemma MixedOkIff(where: Value, w: World)
    requires ValueOf(where).List? && HoldsReference(ValueOf(where).items)
    ensures Operand(where, w).Ok? <==> LeafMakesSense(where, w)
  {
    var items := ValueOf(where).items;
    MixedOperand(where, w, items, ResolveOperandItems(items, w));
    ListIsNoReference(ValueOf(where));
    ItemsOkIff(items, w);
    if LegibleItems(items, w) {
      ItemsAsSeen(items, w);
      CheckedIff(where, List(SeenItems(items, w)));
    }
  }

  lemma ListOkIff(where: Value, w: World)
    requires ValueOf(where).List? && !HoldsReference(ValueOf(where).items)
    ensures Operand(where, w).Ok? <==> LeafMakesSense(where, w)
  {
    LiteralsAsSeen(ValueOf(where).items, w);
    CheckedIff(where, ValueOf(where));
  }

  lemma ProjectedOkIff(where: Value, w: World)
    requires Projects(where)
    ensures Operand(where, w).Ok? <==> LeafMakesSense(where, w)
  {
  }

  lemma SingleOkIff(where: Value, w: World)
    requires !ValueOf(where).List? && !Projects(where)
    ensures Operand(where, w).Ok? <==> LeafMakesSense(where, w)
  {
    CheckedIff(where, Seen(ValueOf(where), w));
  }

  lemma LeafOkIff(where: Value, w: World)
    requires where.Dict? && !Has(where, DECIDE) && Composition(where).None? && OpOf(where) != Overlaps
    ensures ResolveClause(where, w, false).Ok? <==> LeafMakesSense(where, w)
  {
    LeafResolvesIff(where, w);
    if ValueOf(where).List? {
      if HoldsReference(ValueOf(where).items) {
        MixedOkIff(where, w);
      } else {
        ListOkIff(where, w);
      }
    } else if Projects(where) {
      ProjectedOkIff(where, w);
    } else {
      SingleOkIff(where, w);
    }
  }

  /** A literal comparison resolves exactly when its value has the shape its operator compares against. */
  lemma LiteralLeafOkIff(where: Value, w: World)
    requires where.Dict? && !Has(where, DECIDE) && Composition(where).None? && OpOf(where) != Overlaps
    requires Literal(ValueOf(where))
    ensures ResolveClause(where, w, false).Ok? <==> Shaped(OpOf(where), ValueOf(where))
  {
    LeafOkIff(where, w);
    if ValueOf(where).List? {
      LiteralsAsSeen(ValueOf(where).items, w);
    }
  }

  lemma OverlapOkIff(where: Value, w: World)
    requires where.Dict? && !Has(where, DECIDE) && Composition(where).None? && OpOf(where) == Overlaps
    ensures ResolveClause(where, w, false).Ok? <==> OverlapMakesSense(where, w)
  {
  }

  /** A predicate of any depth resolves exactly when everything in it can be read and compared. */
  lemma {:induction false} ResolvesIff(where: Value, w: World)
    ensures ResolveClause(where, w, false).Ok? <==> MakesSense(where, w)
    decreases where
  {
    if where.Dict? && !Has(where, DECIDE) {
      if Composition(where).Some? {
        var clauses := Composition(where).value.1;
        ClausesSmaller(where);
        if clauses.List? {
          ClausesOkIff(clauses.items, w);
          forall i | 0 <= i < |clauses.items|
            ensures ResolveClause(clauses.items[i], w, false).Ok? <==> MakesSense(clauses.items[i], w)
          {
            ResolvesIff(clauses.items[i], w);
          }
        }
      } else if OpOf(where) == Overlaps {
        OverlapOkIff(where, w);
      } else {
        LeafOkIff(where, w);
      }
    }
  }

  // ----- resolving a second time -----------------------------------------------------------

  lemma {:induction false} SetSame(entries: seq<Entry>, key: string, v: Value)
    requires Lookup(entries, key) == Some(v)
    ensures Set(entries, key, v) == entries
  {
    if entries[0].key != key {
      SetSame(entries[1..], key, v);
    } else {
      assert entries[0] == Entry(key, v);
    }
  }

  lemma {:induction false} WithoutAbsent(entries: seq<Entry>, key: string)
    requires Lookup(entries, key).None?
    ensures Without(entries, key) == entries
  {
    if entries != [] {
      WithoutAbsent(entries[1..], key);
    }
  }

  /** No reference in operand position: neither the value itself nor, in a list, any item. */
  predicate Literal(v: Value) {
    !IsReference(v) && (v.List? ==> forall i :: 0 <= i < |v.items| ==> !IsReference(v.items[i]))
  }

  lemma UnmentionedIsLiteral(v: Value)
    requires !Mentions(v)
    ensures Literal(v)
  {
    if v.List? {
      assert forall i :: 0 <= i < |v.items| ==> !Mentions(v.items[i]);
    }
  }

  ghost predicate NoneMentions(items: seq<Value>) {
    forall i :: 0 <= i < |items| ==> !Mentions(items[i])
  }

  ghost predicate NoEntryMentions(entries: seq<Entry>) {
    forall i :: 0 <= i < |entries| ==> !Mentions(entries[i].value)
  }

  lemma {:induction false} PaginatedPlain(entries: seq<Entry>, payload: Option<seq<Value>>)
    requires NoEntryMentions(entries) && (payload.Some? ==> NoneMentions(payload.value))
    ensures Paginated(entries, payload).Some? ==> NoneMentions(Paginated(entries, payload).value)
  {
    if entries != [] {
      var first := entries[0].value;
      assert NoEntryMentions(entries[1..]);
      if first.List? && payload.None? {
        assert NoneMentions(first.items);
        PaginatedPlain(entries[1..], Some(first.items));
      } else if !first.List? {
        PaginatedPlain(entries[1..], payload);
      }
    }
  }

  lemma {:induction false} EntryValuesPlain(entries: seq<Entry>)
    requires NoEntryMentions(entries)
    ensures NoneMentions(EntryValues(entries))
  {
    if entries != [] {
      EntryValuesPlain(entries[1..]);
    }
  }

  /** The members of a collection without references hold none. */
  lemma {:induction false} CollectionPlain(v: Value)
    requires !Mentions(v) && AsCollection(v).Some?
    ensures NoneMentions(AsCollection(v).value)
    decreases v
  {
    if v.Dict? {
      var entries := v.entries;
      assert NoEntryMentions(entries);
      if |entries| == 1 && AsCollection(entries[0].value).Some? {
        CollectionPlain(entries[0].value);
      } else if entries != [] && Paginated(entries, None).Some? {
        PaginatedPlain(entries, None);
      } else {
        EntryValuesPlain(entries);
      }
    }
  }

  lemma PluckPlain(v: Value, path: Option<Value>)
    requires !Mentions(v)
    ensures !Mentions(Pluck(v, path))
  {
    if path.Some? && path.value.Str? && WalkPath(v, path.value.s).Some? {
      WalkKeepsPlain(v, Segments(path.value.s));
    }
  }

  lemma ProjectLiteral(members: seq<Value>, path: Option<Value>)
    requires NoneMentions(members)
    ensures Literal(List(Project(members, path)))
  {
    ProjectAt(members, path);
    forall i | 0 <= i < |members|
      ensures !IsReference(Project(members, path)[i])
    {
      PluckPlain(members[i], path);
    }
  }

  lemma SeenLiteral(v: Value, w: World)
    requires Plain(w)
    ensures !IsReference(Seen(v, w)) && (IsReference(v) ==> Literal(Seen(v, w)))
  {
    if IsReference(v) && ResolveRef(v, w).Resolved? {
      ResolvedIsPlain(v, w);
      UnmentionedIsLiteral(Seen(v, w));
    }
  }

  /** Over plain sources an operand comes out literal. */
  lemma OperandLiteral(where: Value, w: World)
    requires Plain(w) && Operand(where, w).Ok?
    ensures Literal(Operand(where, w).value)
  {
    var written := ValueOf(where);
    if Projects(where) {
      OperandAsMembers(where, w);
      ResolvedIsPlain(written, w);
      CollectionPlain(ResolveRef(written, w).value);
      ProjectLiteral(Members(written, w), Get(where, "value_path"));
    } else {
      OperandAsSeen(where, w);
      if written.List? {
        forall i | 0 <= i < |written.items|
          ensures !IsReference(SeenItems(written.items, w)[i])
        {
          SeenLiteral(written.items[i], w);
        }
      } else {
        SeenLiteral(written, w);
      }
    }
  }

  lemma LiteralOperand(where: Value, w: World)
    requires Literal(ValueOf(where)) && Shaped(OpOf(where), ValueOf(where))
    ensures Operand(where, w) == Ok(ValueOf(where)) && !Projects(where)
  {
  }

  /** A clause resolved to literals resolves to itself. */
  lemma LeafSettled(where: Value, w: World)
    requires Plain(w) && where.Dict? && !Has(where, DECIDE) && Composition(where).None? && OpOf(where) != Overlaps
    requires ResolveClause(where, w, false).Ok?
    ensures var r := ResolveClause(where, w, false).value;
            ResolveClause(r, w, false) == Ok(r)
  {
    var r := ResolveClause(where, w, false).value;
    LeafFields(where, w);
    OperandIsChecked(where, w);
    OperandLiteral(where, w);
    LiteralOperand(r, w);
    if Get(where, "value").Some? || Projects(where) {
      LeafFieldKept(where, Operand(where, w).value, DECIDE);
    }
    if Get(r, "value").Some? {
      SetSame(r.entries, "value", ValueOf(r));
    }
  }

  /** Pairing members with themselves never gives the members back: a value is not its own item. */
  lemma PairsMoveOn(members: seq<Value>)
    ensures Pairs(members, None, None) == members <==> members == []
  {
    if members != [] {
      var first := members[0];
      var pair := List([first, first]);
      assert pair.items[0] == first && first < pair;
      assert Pairs(members, None, None)[0] == pair;
    }
  }

  lemma OverlapPathsGone(where: Value, intervals: Value)
    requires where.Dict?
    ensures var r := WithIntervals(where, intervals);
            Get(r, "against_start_path").None? && Get(r, "against_end_path").None?
  {
    var once := Without(where.entries, "against_start_path");
    SetLookup(Without(once, "against_end_path"), "against", intervals, "against_start_path");
    SetLookup(Without(once, "against_end_path"), "against", intervals, "against_end_path");
    WithoutLookup(once, "against_end_path", "against_start_path");
    WithoutLookup(once, "against_end_path", "against_end_path");
    WithoutLookup(where.entries, "against_start_path", "against_start_path");
  }

  /** An overlaps clause over a literal list without paths pairs every member with itself. */
  lemma OverlapAgain(r: Value, members: seq<Value>, w: World)
    requires r.Dict? && !Has(r, DECIDE) && Composition(r).None? && OpOf(r) == Overlaps
    requires Get(r, "against") == Some(List(members))
    requires Get(r, "against_start_path").None? && Get(r, "against_end_path").None?
    ensures ResolveClause(r, w, false) == Ok(Dict(Set(r.entries, "against", List(Pairs(members, None, None)))))
  {
    WithoutAbsent(r.entries, "against_start_path");
    WithoutAbsent(r.entries, "against_end_path");
  }

  /** The clause projects its intervals every time, so only one without any is settled. */
  lemma OverlapSettledIff(where: Value, w: World)
    requires where.Dict? && !Has(where, DECIDE) && Composition(where).None? && OpOf(where) == Overlaps
    requires ResolveClause(where, w, false).Ok?
    ensures var r := ResolveClause(where, w, false).value;
            ResolveClause(r, w, false) == Ok(r) <==> Intervals(where, w) == Ok(List([]))
  {
    var r := ResolveClause(where, w, false).value;
    var members := Intervals(where, w).value.items;
    OverlapFields(where, List(members));
    OverlapFieldKept(where, List(members), DECIDE);
    OverlapPathsGone(where, List(members));
    OverlapAgain(r, members, w);
    PairsMoveOn(members);
    SettledByLookup(r, members, Pairs(members, None, None));
  }

  lemma SettledByLookup(r: Value, members: seq<Value>, again: seq<Value>)
    requires r.Dict? && Get(r, "against") == Some(List(members))
    ensures Dict(Set(r.entries, "against", List(again))) == r <==> again == members
  {
    SetLookup(r.entries, "against", List(again), "against");
    SetSame(r.entries, "against", List(members));
  }

  /** No overlaps clause, at any depth, has an interval to compare with. */
  predicate NoIntervalAnywhere(where: Value, w: World)
    decreases where
  {
    where.Dict? ==>
      if Composition(where).Some? then
        var clauses := Composition(where).value.1;
        ClausesSmaller(where);
        clauses.List? ==> forall i :: 0 <= i < |clauses.items| ==> NoIntervalAnywhere(clauses.items[i], w)
      else OpOf(where) == Overlaps ==> Intervals(where, w) == Ok(List([]))
  }

  lemma ComposedSettledIff(where: Value, w: World, clauses: seq<Value>, resolved: seq<Value>)
    requires where.Dict? && !Has(where, DECIDE) && Composition(where).Some? && clauses != []
    requires Composition(where).value.1 == List(clauses) && ResolveClauses(clauses, w) == Ok(resolved)
    ensures var r := Dict(Set(where.entries, CompositionKey(where), List(resolved)));
            ResolveClause(r, w, false) == Ok(r) <==> ResolveClauses(resolved, w) == Ok(resolved)
  {
    var key := CompositionKey(where);
    var r := Dict(Set(where.entries, key, List(resolved)));
    SetLookup(where.entries, key, List(resolved), "all");
    SetLookup(where.entries, key, List(resolved), "any");
    SetLookup(where.entries, key, List(resolved), DECIDE);
    assert CompositionKey(r) == key && Composition(r) == Some((Composition(where).value.0, List(resolved)));
    var again := ResolveClauses(resolved, w);
    if again.Ok? {
      assert ResolveClause(r, w, false) == Ok(Dict(Set(r.entries, key, List(again.value))));
      SetLookup(r.entries, key, List(again.value), key);
      if again.value == resolved {
        SetSame(r.entries, key, List(resolved));
      }
    }
  }

  /**
   * Over plain sources, resolving a resolved predicate again changes nothing if and only if no overlaps
   * clause in it, at any depth, had an interval to compare with.
   */
  lemma {:induction false} ResolvingTwiceIff(where: Value, w: World)
    requires Plain(w) && ResolveClause(where, w, false).Ok?
    ensures var r := ResolveClause(where, w, false).value;
            ResolveClause(r, w, false) == Ok(r) <==> NoIntervalAnywhere(where, w)
    decreases where, 1
  {
    if Composition(where).Some? {
      var clauses := Composition(where).value.1;
      ClausesSmaller(where);
      ClausesTwiceIff(clauses.items, w);
      ComposedSettledIff(where, w, clauses.items, ResolveClauses(clauses.items, w).value);
    } else if OpOf(where) == Overlaps {
      OverlapSettledIff(where, w);
    } else {
      LeafSettled(where, w);
    }
  }

  lemma {:induction false} ClausesTwiceIff(clauses: seq<Value>, w: World)
    requires Plain(w) && ResolveClauses(clauses, w).Ok?
    ensures var r := ResolveClauses(clauses, w).value;
            ResolveClauses(r, w) == Ok(r) <==> forall i :: 0 <= i < |clauses| ==> NoIntervalAnywhere(clauses[i], w)
    decreases clauses, 0
  {
    if clauses != [] {
      ResolvingTwiceIff(clauses[0], w);
      ClausesTwiceIff(clauses[1..], w);
      var first, rest := ResolveClause(clauses[0], w, false).value, ResolveClauses(clauses[1..], w).value;
      assert ([first] + rest)[1..] == rest;
      assert forall i :: 0 < i < |clauses| ==> clauses[i] == clauses[1..][i - 1];
      assert forall i :: 0 <= i < |clauses[1..]| ==> clauses[1..][i] == clauses[i + 1];
    }
  }

  /** The smallest such predicate: one interval, written out. */
  lemma OverlapsResolvesTwiceDifferently()
    ensures var where := Dict([Entry("op", Str("overlaps")), Entry("against", List([List([Num(1), Num(2)])]))]);
            var once := ResolveClause(where, World([], map[], []), false);
            once.Ok? && ResolveClause(once.value, World([], map[], []), false) != once
  {
    var w, members := World([], map[], []), [List([Num(1), Num(2)])];
    var where := Dict([Entry("op", Str("overlaps")), Entry("against", List(members))]);
    assert |"op"| == 2 && |"all"| == 3 && |"against"| == 7 && |"against_end_path"| == 16;
    assert where.entries[1..] == [Entry("against", List(members))];
    assert Get(where, "op") == Some(Str("overlaps")) && OpOf(where) == Overlaps;
    assert Get(where, "against") == Lookup(where.entries[1..], "against") == Some(List(members));
    assert Composition(where).None? && !Has(where, DECIDE);
    assert |Pairs(members, Get(where, "against_start_path"), Get(where, "against_end_path"))| == 1;
    OverlapSettledIff(where, w);
  }
}
