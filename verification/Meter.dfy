/**
 * The run-wide meter of model calls: it reads one log record at a time, keeps run totals, keeps one row
 * per inference that it relabels as better labels arrive, and moves what an inference cost into the
 * wasted buckets when its result is discarded.
 */
module Meter {
  import opened Options
  import opened Sequences

  datatype Event =
    | Done(seconds: nat, sections: Option<nat>, dynamicSections: Option<nat>)
    | Usage(input: nat, cached: Option<nat>, cacheWrite: Option<nat>, output: nat, answerChars: nat,
            reasoning: Option<nat>)
    | Discarded
    | Outcome(outcome: Option<string>, error: Option<string>)
    | Malformed(dropped: nat, repaired: nat)
    | TerminalParseFailure
    | Unrelated

  datatype Record = Record(
    callId: Option<string>, inferenceId: Option<string>, semantic: Option<string>, version: Option<string>,
    event: Event)

  datatype Counts = Counts(
    calls: nat, seconds: nat, usages: nat, input: nat, cached: nat, observed: nat, unknown: nat, cacheWrite: nat,
    output: nat, thinking: nat, sections: nat, dynamicSections: nat, dropped: nat, repaired: nat, failures: nat)

  const Zero := Counts(0, 0, 0, 0, 0, 0, 0, 0, 0, 0, 0, 0, 0, 0, 0)

  function Plus(a: Counts, b: Counts): Counts {
    Counts(a.calls + b.calls, a.seconds + b.seconds, a.usages + b.usages, a.input + b.input, a.cached + b.cached,
           a.observed + b.observed, a.unknown + b.unknown, a.cacheWrite + b.cacheWrite, a.output + b.output,
           a.thinking + b.thinking, a.sections + b.sections, a.dynamicSections + b.dynamicSections,
           a.dropped + b.dropped, a.repaired + b.repaired, a.failures + b.failures)
  }

  /** One of the figures, so that sums can be stated once for all of them. */
  datatype Metric =
    | Calls | Seconds | Usages | Input | Cached | Observed | Unknown | CacheWrite
    | Output | ThinkingTokens | Sections | DynamicSections | Dropped | Repaired | Failures

  function Get(c: Counts, m: Metric): nat {
    match m
    case Calls => c.calls
    case Seconds => c.seconds
    case Usages => c.usages
    case Input => c.input
    case Cached => c.cached
    case Observed => c.observed
    case Unknown => c.unknown
    case CacheWrite => c.cacheWrite
    case Output => c.output
    case ThinkingTokens => c.thinking
    case Sections => c.sections
    case DynamicSections => c.dynamicSections
    case Dropped => c.dropped
    case Repaired => c.repaired
    case Failures => c.failures
  }

  lemma GetPlus(a: Counts, b: Counts, m: Metric)
    ensures Get(Plus(a, b), m) == Get(a, m) + Get(b, m)
  {
  }

  lemma GetZero(m: Metric)
    ensures Get(Zero, m) == 0
  {
  }

  // ----- what one record says --------------------------------------------------------------

  function OrZero(o: Option<nat>): nat { if o.Some? then o.value else 0 }

  /** Python's `a or b` on optional text: the empty string counts as absent. */
  function Or(a: Option<string>, b: Option<string>): Option<string> {
    if a.Some? && a.value != "" then a else b
  }

  /** Four characters to a token, halves to even. */
  function AnswerTokens(chars: nat): nat {
    var q, r := chars / 4, chars % 4;
    if r < 2 || (r == 2 && q % 2 == 0) then q else q + 1
  }

  /** The provider's own figure when it gives one, else the output its answer does not explain. */
  function Thinking(u: Event): nat
    requires u.Usage?
  {
    if u.reasoning.Some? then u.reasoning.value
    else if AnswerTokens(u.answerChars) <= u.output then u.output - AnswerTokens(u.answerChars)
    else 0
  }

  function Delta(e: Event): Counts {
    match e
    case Done(seconds, sections, dynamicSections) =>
      Zero.(calls := 1, seconds := seconds, sections := OrZero(sections),
            dynamicSections := if sections.Some? then OrZero(dynamicSections) else 0)
    case Usage(input, cached, cacheWrite, output, _, _) =>
      Zero.(usages := 1, input := input, cached := OrZero(cached),
            observed := if cached.Some? then input else 0, unknown := if cached.Some? then 0 else input,
            cacheWrite := OrZero(cacheWrite), output := output, thinking := Thinking(e))
    case Malformed(dropped, repaired) => Zero.(dropped := dropped, repaired := repaired)
    case TerminalParseFailure => Zero.(failures := 1)
    case _ => Zero
  }

  predicate ValidOutcome(o: Option<string>) {
    o in {Some("success"), Some("unresolvable"), Some("error")}
  }

  /** Whose row a record concerns: a known identity, or the unlabelled calls of one prompt. */
  datatype Owner = Known(identity: string) | Anonymous(semantic: Option<string>, version: Option<string>)

  function Identity(r: Record): Option<string> { Or(r.callId, r.inferenceId) }

  function OwnerOf(identity: Option<string>, semantic: Option<string>, version: Option<string>): Owner {
    if identity.Some? then Known(identity.value) else Anonymous(semantic, version)
  }

  function Owns(r: Record): Owner { OwnerOf(Identity(r), r.semantic, r.version) }

  /** Whether a record reaches a row at all. */
  predicate Touches(r: Record) {
    match r.event
    case Done(_, _, _) => true
    case Usage(_, _, _, _, _, _) => true
    case Discarded => r.inferenceId.Some?
    case Outcome(outcome, _) => r.inferenceId.Some? && ValidOutcome(outcome)
    case Malformed(_, _) => r.callId.Some? || r.inferenceId.Some?
    case TerminalParseFailure => r.callId.Some? || r.inferenceId.Some?
    case Unrelated => false
  }

  predicate Reaches(r: Record, o: Owner) { Touches(r) && Owns(r) == o }

  /** A record with a call id belongs to that call, whatever inference it names; one without to its inference. */
  lemma OwnsMeans(r: Record)
    ensures r.callId.Some? && r.callId.value != "" ==> Owns(r) == Known(r.callId.value)
    ensures (r.callId.None? || r.callId.value == "") && r.inferenceId.Some? ==> Owns(r) == Known(r.inferenceId.value)
    ensures r.callId.None? && r.inferenceId.None? ==> Owns(r) == Anonymous(r.semantic, r.version)
  {
  }

  /** The answer's tokens are a quarter of its characters, rounded to the nearest, a tie to the even side. */
  lemma AnswerTokensRound(chars: nat)
    ensures -2 <= chars - 4 * AnswerTokens(chars) <= 2
    ensures chars - 4 * AnswerTokens(chars) in {-2, 2} ==> AnswerTokens(chars) % 2 == 0
  {
  }

  /** The provider's figure counts whenever it gives one; otherwise thinking and answer make up the output. */
  lemma ThinkingMeans(u: Event)
    requires u.Usage?
    ensures u.reasoning.Some? ==> Thinking(u) == u.reasoning.value
    ensures u.reasoning.None? && AnswerTokens(u.answerChars) <= u.output ==>
              Thinking(u) + AnswerTokens(u.answerChars) == u.output
    ensures u.reasoning.None? && AnswerTokens(u.answerChars) > u.output ==> Thinking(u) == 0
  {
  }

  // ----- what a whole stream says ----------------------------------------------------------

  function Amount(r: Record, m: Metric): nat { Get(Delta(r.event), m) }

  function Total(trace: seq<Record>, m: Metric): nat {
    if trace == [] then 0 else Total(trace[..|trace| - 1], m) + Amount(trace[|trace| - 1], m)
  }

  /** What the records of one owner add up to. */
  function Share(trace: seq<Record>, o: Owner, m: Metric): nat {
    if trace == [] then 0
    else
      var last := trace[|trace| - 1];
      Share(trace[..|trace| - 1], o, m) + if Reaches(last, o) then Amount(last, m) else 0
  }

  /** What no row can own: parser repairs outside any call scope. */
  function Unattributed(trace: seq<Record>, m: Metric): nat {
    if trace == [] then 0
    else
      var last := trace[|trace| - 1];
      Unattributed(trace[..|trace| - 1], m) + if Touches(last) then 0 else Amount(last, m)
  }

  predicate Seen(trace: seq<Record>, o: Owner) {
    trace != [] && (Seen(trace[..|trace| - 1], o) || Reaches(trace[|trace| - 1], o))
  }

  predicate EverDiscarded(trace: seq<Record>, o: Owner) {
    trace != []
    && (EverDiscarded(trace[..|trace| - 1], o)
        || (Reaches(trace[|trace| - 1], o) && trace[|trace| - 1].event.Discarded?))
  }

  /** The first valid outcome reported for an owner, with its error: later cues are stale. */
  function FirstOutcome(trace: seq<Record>, o: Owner): Option<Event> {
    if trace == [] then None
    else
      var before, last := FirstOutcome(trace[..|trace| - 1], o), trace[|trace| - 1];
      if before.Some? then before
      else if Reaches(last, o) && last.event.Outcome? then Some(last.event)
      else None
  }

  // ----- rows ------------------------------------------------------------------------------

  datatype Row = Row(
    identity: Option<string>, callId: Option<string>, inferenceId: Option<string>, semantic: Option<string>,
    version: Option<string>, counts: Counts, discarded: bool, outcome: Option<Event>)

  function RowOwner(row: Row): Owner { OwnerOf(row.identity, row.semantic, row.version) }

  datatype Key = Key(identity: Option<string>, inferenceId: Option<string>, semantic: Option<string>,
                     version: Option<string>)

  function KeyOf(row: Row): Key { Key(row.identity, row.inferenceId, row.semantic, row.version) }

  /** The row says what the records of its owner say. */
  ghost predicate Right(row: Row, trace: seq<Record>) {
    var o := RowOwner(row);
    && (forall m :: Get(row.counts, m) == Share(trace, o, m))
    && row.discarded == EverDiscarded(trace, o)
    && row.outcome == FirstOutcome(trace, o)
  }

  /** Exactly one row for every owner seen, and no other. */
  ghost predicate Tally(rows: seq<Row>, trace: seq<Record>) {
    && OneRowEach(rows)
    && (forall row :: row in rows ==> Right(row, trace) && Seen(trace, RowOwner(row)))
    && (forall o :: Seen(trace, o) ==> exists row :: row in rows && RowOwner(row) == o)
  }

  function SumRows(rows: seq<Row>, m: Metric): nat {
    if rows == [] then 0 else SumRows(rows[..|rows| - 1], m) + Get(rows[|rows| - 1].counts, m)
  }

  function IndexOf(rows: seq<Row>, o: Owner): (i: nat)
    ensures i <= |rows|
    ensures i < |rows| ==> RowOwner(rows[i]) == o
    ensures i == |rows| ==> forall row :: row in rows ==> RowOwner(row) != o
  {
    if rows == [] then 0
    else
      var i := IndexOf(rows[..|rows| - 1], o);
      if i < |rows| - 1 then i
      else
        Unsnoc(rows);
        if RowOwner(rows[|rows| - 1]) == o then |rows| - 1 else |rows|
  }

  function NewRow(r: Record): Row {
    Row(Identity(r), r.callId, r.inferenceId, r.semantic, r.version, Zero, false, None)
  }

  function Relabel(row: Row, r: Record): Row {
    row.(callId := Or(r.callId, row.callId), inferenceId := Or(r.inferenceId, row.inferenceId),
         semantic := Or(r.semantic, row.semantic), version := Or(r.version, row.version))
  }

  /**
   * Find the row of a record. A known identity is looked up by itself, and when the record knows a
   * better label the row moves to the end under its new key; otherwise nothing moves.
   */
  function Touch(rows: seq<Row>, r: Record): seq<Row> {
    var o := Owns(r);
    var i := IndexOf(rows, o);
    if i == |rows| then rows + [NewRow(r)]
    else if o.Anonymous? || KeyOf(Relabel(rows[i], r)) == KeyOf(rows[i]) then rows
    else Drop(rows, i) + [Relabel(rows[i], r)]
  }

  function Drop(rows: seq<Row>, i: nat): seq<Row>
    requires i < |rows|
  {
    rows[..i] + rows[i + 1..]
  }

  /** Touching changes who is where and under which labels, never whose row it is or what it holds. */
  predicate Same(a: Row, b: Row) {
    RowOwner(a) == RowOwner(b) && a.counts == b.counts && a.discarded == b.discarded && a.outcome == b.outcome
  }

  ghost predicate OneRowEach(rows: seq<Row>) {
    forall i, j :: 0 <= i < j < |rows| ==> RowOwner(rows[i]) != RowOwner(rows[j])
  }

  lemma DropKeepsOneEach(rows: seq<Row>, i: nat)
    requires OneRowEach(rows) && i < |rows|
    ensures OneRowEach(Drop(rows, i))
    ensures forall row :: row in Drop(rows, i) <==> row in rows && RowOwner(row) != RowOwner(rows[i])
  {
    var d := Drop(rows, i);
    assert forall k :: 0 <= k < |d| ==> d[k] == rows[if k < i then k else k + 1];
    forall row
      ensures row in d <==> row in rows && RowOwner(row) != RowOwner(rows[i])
    {
      if row in rows && RowOwner(row) != RowOwner(rows[i]) {
        var k :| 0 <= k < |rows| && rows[k] == row;
        assert d[if k < i then k else k - 1] == row;
      }
    }
  }

  lemma AppendKeepsOneEach(rows: seq<Row>, row: Row)
    requires OneRowEach(rows) && forall x :: x in rows ==> RowOwner(x) != RowOwner(row)
    ensures OneRowEach(rows + [row])
    ensures forall x :: x in rows + [row] <==> x in rows || x == row
  {
  }

  /** After touching, the owner has exactly one row, and every other row is as it was. */
  lemma TouchRows(rows: seq<Row>, r: Record)
    requires OneRowEach(rows)
    ensures OneRowEach(Touch(rows, r))
    ensures IndexOf(Touch(rows, r), Owns(r)) < |Touch(rows, r)|
    ensures forall row :: RowOwner(row) != Owns(r) ==> (row in Touch(rows, r) <==> row in rows)
    ensures var i := IndexOf(rows, Owns(r));
            Same(Touch(rows, r)[IndexOf(Touch(rows, r), Owns(r))], if i < |rows| then rows[i] else NewRow(r))
  {
    var o := Owns(r);
    var i := IndexOf(rows, o);
    if i == |rows| {
      AppendKeepsOneEach(rows, NewRow(r));
      FoundIs(Touch(rows, r), o, NewRow(r));
    } else if o.Anonymous? || KeyOf(Relabel(rows[i], r)) == KeyOf(rows[i]) {
    } else {
      DropKeepsOneEach(rows, i);
      AppendKeepsOneEach(Drop(rows, i), Relabel(rows[i], r));
      FoundIs(Touch(rows, r), o, Relabel(rows[i], r));
    }
  }

  lemma FoundIs(rows: seq<Row>, o: Owner, row: Row)
    requires OneRowEach(rows) && row in rows && RowOwner(row) == o
    ensures IndexOf(rows, o) < |rows| && rows[IndexOf(rows, o)] == row
  {
    var k :| 0 <= k < |rows| && rows[k] == row;
    var i := IndexOf(rows, o);
    assert i < k || k < i || i == k;
  }

  lemma RelabelSettles(row: Row, r: Record)
    ensures KeyOf(Relabel(Relabel(row, r), r)) == KeyOf(Relabel(row, r))
    ensures KeyOf(Relabel(NewRow(r), r)) == KeyOf(NewRow(r))
  {
  }

  /** The row a touch leaves behind has nothing more to learn from the same record. */
  lemma TouchedIsSettled(rows: seq<Row>, r: Record)
    requires OneRowEach(rows) && IndexOf(Touch(rows, r), Owns(r)) < |Touch(rows, r)|
    ensures var row := Touch(rows, r)[IndexOf(Touch(rows, r), Owns(r))];
            Owns(r).Anonymous? || KeyOf(Relabel(row, r)) == KeyOf(row)
  {
    var i := IndexOf(rows, Owns(r));
    if i == |rows| {
      AppendKeepsOneEach(rows, NewRow(r));
      FoundIs(rows + [NewRow(r)], Owns(r), NewRow(r));
      RelabelSettles(NewRow(r), r);
    } else if Owns(r).Known? && KeyOf(Relabel(rows[i], r)) != KeyOf(rows[i]) {
      DropKeepsOneEach(rows, i);
      AppendKeepsOneEach(Drop(rows, i), Relabel(rows[i], r));
      FoundIs(Drop(rows, i) + [Relabel(rows[i], r)], Owns(r), Relabel(rows[i], r));
      RelabelSettles(rows[i], r);
    }
  }

  /** A second lookup of the same record finds the row where the first one left it. */
  lemma TouchTwice(rows: seq<Row>, r: Record)
    requires OneRowEach(rows)
    ensures Touch(Touch(rows, r), r) == Touch(rows, r)
  {
    TouchRows(rows, r);
    TouchedIsSettled(rows, r);
  }

  // ----- entering a record -------------------------------------------------------------------

  /** The row once the record is in: its counts grow, a discard sticks, the first outcome stays. */
  function Charged(row: Row, r: Record): Row {
    row.(counts := Plus(row.counts, Delta(r.event)), discarded := row.discarded || r.event.Discarded?,
         outcome := if row.outcome.None? && r.event.Outcome? then Some(r.event) else row.outcome)
  }

  function Entered(rows: seq<Row>, r: Record): seq<Row> {
    var touched := Touch(rows, r);
    var i := IndexOf(touched, Owns(r));
    if !Touches(r) then rows
    else if i == |touched| then touched
    else touched[i := Charged(touched[i], r)]
  }

  /** All records of one call, whatever inferences they name, are in its one row, with what they add up to. */
  lemma OneRowPerCall(trace: seq<Record>, call: string, i: nat)
    requires call != "" && i < |trace| && trace[i].callId == Some(call) && Concerns(trace[i], Known(call))
    ensures exists row :: row in Replay(trace) && RowOwner(row) == Known(call)
                          && (forall m :: Get(row.counts, m) == Share(trace, Known(call), m))
    ensures forall a, b :: a in Replay(trace) && b in Replay(trace) && RowOwner(a) == RowOwner(b) == Known(call) ==>
              a == b
  {
    RowsTally(trace);
    OwnsMeans(trace[i]);
    SeenOnce(trace, Known(call), i);
    var rows := Replay(trace);
    forall a, b | a in rows && b in rows && RowOwner(a) == RowOwner(b) == Known(call)
      ensures a == b
    {
      FoundIs(rows, Known(call), a);
      FoundIs(rows, Known(call), b);
    }
  }

  lemma {:induction false} SeenOnce(trace: seq<Record>, o: Owner, i: nat)
    requires i < |trace| && Reaches(trace[i], o)
    ensures Seen(trace, o)
  {
    if i < |trace| - 1 {
      SeenOnce(trace[..|trace| - 1], o, i);
    }
  }

  lemma UpdateKeepsOneEach(rows: seq<Row>, i: nat, row: Row)
    requires OneRowEach(rows) && i < |rows| && RowOwner(row) == RowOwner(rows[i])
    ensures OneRowEach(rows[i := row])
    ensures forall x :: x in rows[i := row] <==> x == row || (x in rows && RowOwner(x) != RowOwner(row))
  {
    var n := rows[i := row];
    forall x
      ensures x in n <==> x == row || (x in rows && RowOwner(x) != RowOwner(row))
    {
      if x == row {
        assert n[i] == row;
      } else if x in rows && RowOwner(x) != RowOwner(row) {
        var k :| 0 <= k < |rows| && rows[k] == x;
        assert n[k] == x;
      }
    }
  }

  lemma {:induction false} UnseenIsEmpty(trace: seq<Record>, o: Owner)
    requires !Seen(trace, o)
    ensures (forall m :: Share(trace, o, m) == 0) && !EverDiscarded(trace, o) && FirstOutcome(trace, o) == None
  {
    if trace != [] {
      UnseenIsEmpty(trace[..|trace| - 1], o);
    }
  }

  lemma OtherOwner(trace: seq<Record>, r: Record, row: Row)
    requires !Reaches(r, RowOwner(row))
    ensures Right(row, trace + [r]) <==> Right(row, trace)
    ensures Seen(trace + [r], RowOwner(row)) <==> Seen(trace, RowOwner(row))
  {
    Snoc(trace, r);
  }

  lemma OwnRow(trace: seq<Record>, r: Record, row: Row)
    requires Reaches(r, RowOwner(row)) && Right(row, trace)
    ensures Right(Charged(row, r), trace + [r]) && Seen(trace + [r], RowOwner(row))
  {
    Snoc(trace, r);
    forall m
      ensures Get(Charged(row, r).counts, m) == Share(trace + [r], RowOwner(row), m)
    {
      GetPlus(row.counts, Delta(r.event), m);
    }
  }

  /** The row a record finds, or the fresh one it gets, says what its owner's earlier records say. */
  lemma TouchedIsRight(rows: seq<Row>, trace: seq<Record>, r: Record, row: Row)
    requires Tally(rows, trace) && row in Touch(rows, r) && RowOwner(row) == Owns(r)
    ensures Right(row, trace)
  {
    TouchRows(rows, r);
    var o := Owns(r);
    FoundIs(Touch(rows, r), o, row);
    var i := IndexOf(rows, o);
    if i == |rows| {
      assert !Seen(trace, o);
      UnseenIsEmpty(trace, o);
    } else {
      assert rows[i] in rows;
    }
  }

  lemma EnteredKeeps(rows: seq<Row>, trace: seq<Record>, r: Record)
    requires Tally(rows, trace)
    ensures Tally(Entered(rows, r), trace + [r])
  {
    var n, o := Entered(rows, r), Owns(r);
    if Touches(r) {
      TouchRows(rows, r);
      var touched := Touch(rows, r);
      var i := IndexOf(touched, o);
      UpdateKeepsOneEach(touched, i, Charged(touched[i], r));
      TouchedIsRight(rows, trace, r, touched[i]);
      OwnRow(trace, r, touched[i]);
      assert n[i] in n;
    }
    forall row | row in n
      ensures Right(row, trace + [r]) && Seen(trace + [r], RowOwner(row))
    {
      if !Reaches(r, RowOwner(row)) {
        OtherOwner(trace, r, row);
      }
    }
    forall p | Seen(trace + [r], p)
      ensures exists row :: row in n && RowOwner(row) == p
    {
      Snoc(trace, r);
      if !Reaches(r, p) {
        assert Seen(trace, p);
        var row :| row in rows && RowOwner(row) == p;
        assert row in n;
      }
    }
  }

  lemma {:induction false} SumConcat(a: seq<Row>, b: seq<Row>, m: Metric)
    ensures SumRows(a + b, m) == SumRows(a, m) + SumRows(b, m)
  {
    if b == [] {
      ConcatNil(a);
    } else {
      SumConcat(a, b[..|b| - 1], m);
      ConcatSnoc(a, b);
    }
  }

  lemma SumSnoc(rows: seq<Row>, row: Row, m: Metric)
    ensures SumRows(rows + [row], m) == SumRows(rows, m) + Get(row.counts, m)
  {
    Snoc(rows, row);
  }

  lemma SumSplit(rows: seq<Row>, i: nat, m: Metric)
    requires i < |rows|
    ensures SumRows(rows, m) == SumRows(rows[..i], m) + Get(rows[i].counts, m) + SumRows(rows[i + 1..], m)
  {
    Split(rows, i + 1);
    SumConcat(rows[..i + 1], rows[i + 1..], m);
    TakeNext(rows, i);
  }

  lemma TouchSum(rows: seq<Row>, r: Record, m: Metric)
    requires OneRowEach(rows)
    ensures SumRows(Touch(rows, r), m) == SumRows(rows, m)
  {
    var i := IndexOf(rows, Owns(r));
    if i == |rows| {
      SumSnoc(rows, NewRow(r), m);
      GetZero(m);
    } else if Owns(r).Known? && KeyOf(Relabel(rows[i], r)) != KeyOf(rows[i]) {
      SumSplit(rows, i, m);
      SumConcat(rows[..i], rows[i + 1..], m);
      SumSnoc(Drop(rows, i), Relabel(rows[i], r), m);
    }
  }

  /** Relabelling moves rows about, and nothing is lost or counted twice on the way. */
  lemma EnteredSum(rows: seq<Row>, r: Record, m: Metric)
    requires OneRowEach(rows)
    ensures SumRows(Entered(rows, r), m) == SumRows(rows, m) + if Touches(r) then Amount(r, m) else 0
  {
    if Touches(r) {
      TouchRows(rows, r);
      TouchSum(rows, r, m);
      var touched := Touch(rows, r);
      var i := IndexOf(touched, Owns(r));
      var n := touched[i := Charged(touched[i], r)];
      SumSplit(touched, i, m);
      SumSplit(n, i, m);
      assert n[..i] == touched[..i] && n[i + 1..] == touched[i + 1..];
      GetPlus(touched[i].counts, Delta(r.event), m);
    }
  }

  /** The rows after a whole stream. */
  function Replay(trace: seq<Record>): seq<Row> {
    if trace == [] then [] else Entered(Replay(trace[..|trace| - 1]), trace[|trace| - 1])
  }

  /** Every owner the stream mentioned has exactly one row, and that row adds up its own records. */
  lemma {:induction false} RowsTally(trace: seq<Record>)
    ensures Tally(Replay(trace), trace)
  {
    if trace != [] {
      RowsTally(trace[..|trace| - 1]);
      EnteredKeeps(Replay(trace[..|trace| - 1]), trace[..|trace| - 1], trace[|trace| - 1]);
      Unsnoc(trace);
    }
  }

  /** The record of something a row shows: a call's work, a late cue about a named inference, a scoped repair. */
  predicate Concerns(r: Record, o: Owner) {
    && Owns(r) == o
    && (r.event.Done? || r.event.Usage? || Abandons(r, o) || Reports(r, o)
        || ((r.event.Malformed? || r.event.TerminalParseFailure?) && (r.callId.Some? || r.inferenceId.Some?)))
  }

  predicate Abandons(r: Record, o: Owner) { r.event.Discarded? && r.inferenceId.Some? && Owns(r) == o }

  /** The record reports how an inference of this owner ended, in one of the three words that count. */
  predicate Reports(r: Record, o: Owner) {
    && r.event.Outcome? && r.inferenceId.Some? && Owns(r) == o
    && r.event.outcome in {Some("success"), Some("unresolvable"), Some("error")}
  }

  predicate FirstReport(trace: seq<Record>, o: Owner, i: nat) {
    i < |trace| && Reports(trace[i], o) && forall j :: 0 <= j < i ==> !Reports(trace[j], o)
  }

  lemma {:induction false} SeenIff(trace: seq<Record>, o: Owner)
    ensures Seen(trace, o) <==> exists i :: 0 <= i < |trace| && Concerns(trace[i], o)
  {
    if trace != [] {
      var init := trace[..|trace| - 1];
      SeenIff(init, o);
      ExistsSnoc(trace, init, (r: Record) => Concerns(r, o));
    }
  }

  lemma {:induction false} DiscardedIff(trace: seq<Record>, o: Owner)
    ensures EverDiscarded(trace, o) <==> exists i :: 0 <= i < |trace| && Abandons(trace[i], o)
  {
    if trace != [] {
      var init := trace[..|trace| - 1];
      DiscardedIff(init, o);
      ExistsSnoc(trace, init, (r: Record) => Abandons(r, o));
    }
  }

  lemma {:induction false} FirstReportIs(trace: seq<Record>, o: Owner, i: nat)
    requires FirstReport(trace, o, i)
    ensures FirstOutcome(trace, o) == Some(trace[i].event)
  {
    var init := trace[..|trace| - 1];
    if i < |init| {
      assert init[i] == trace[i] && forall j :: 0 <= j < i ==> init[j] == trace[j];
      FirstReportIs(init, o, i);
    } else {
      NoReport(init, o);
    }
  }

  lemma {:induction false} NoReport(trace: seq<Record>, o: Owner)
    requires forall r :: r in trace ==> !Reports(r, o)
    ensures FirstOutcome(trace, o) == None
  {
    if trace != [] {
      assert trace[|trace| - 1] in trace;
      NoReport(trace[..|trace| - 1], o);
    }
  }

  /** There is a row for an owner exactly when some record gave it something to show. */
  lemma RowsAreWarranted(trace: seq<Record>, o: Owner)
    ensures (exists row :: row in Replay(trace) && RowOwner(row) == o)
            <==> (exists i :: 0 <= i < |trace| && Concerns(trace[i], o))
  {
    RowsTally(trace);
    SeenIff(trace, o);
  }

  /** A row's outcome is the first one reported for its owner, and stays; it is discarded once any record says so. */
  lemma RowsRemember(trace: seq<Record>, row: Row)
    requires row in Replay(trace)
    ensures forall i: nat :: FirstReport(trace, RowOwner(row), i) ==> row.outcome == Some(trace[i].event)
    ensures (forall r :: r in trace ==> !Reports(r, RowOwner(row))) ==> row.outcome == None
    ensures row.discarded <==> exists i :: 0 <= i < |trace| && Abandons(trace[i], RowOwner(row))
  {
    var o := RowOwner(row);
    RowsTally(trace);
    DiscardedIff(trace, o);
    forall i: nat | FirstReport(trace, o, i)
      ensures row.outcome == Some(trace[i].event)
    {
      FirstReportIs(trace, o, i);
    }
    if forall r :: r in trace ==> !Reports(r, o) {
      NoReport(trace, o);
    }
  }

  /** Run totals are the rows' totals plus what no row can own, whatever was relabelled and when. */
  lemma {:induction false} TotalsAreConserved(trace: seq<Record>, m: Metric)
    ensures Total(trace, m) == SumRows(Replay(trace), m) + Unattributed(trace, m)
  {
    if trace != [] {
      var init, r := trace[..|trace| - 1], trace[|trace| - 1];
      TotalsAreConserved(init, m);
      RowsTally(init);
      EnteredSum(Replay(init), r, m);
    }
  }

  /** Only parser repairs can be unattributed: calls, time and tokens always have a row. */
  lemma {:induction false} OnlyRepairsAreUnattributed(trace: seq<Record>, m: Metric)
    requires !(m.Dropped? || m.Repaired? || m.Failures?)
    ensures Unattributed(trace, m) == 0
  {
    if trace != [] {
      OnlyRepairsAreUnattributed(trace[..|trace| - 1], m);
    }
  }

  /** Every input token is either cache-observed or cache-unknown, in total and for every owner. */
  lemma {:induction false} InputIsCovered(trace: seq<Record>, o: Owner)
    ensures Total(trace, Input) == Total(trace, Observed) + Total(trace, Unknown)
    ensures Share(trace, o, Input) == Share(trace, o, Observed) + Share(trace, o, Unknown)
  {
    if trace != [] {
      InputIsCovered(trace[..|trace| - 1], o);
    }
  }

  // ----- waste -----------------------------------------------------------------------------

  predicate Discards(r: Record, id: string) { r.event.Discarded? && r.inferenceId == Some(id) }

  /** Whether a later cue discards the inference of record `i`. */
  ghost predicate DiscardedLater(trace: seq<Record>, i: nat)
    requires i < |trace|
  {
    trace[i].inferenceId.Some? && exists j :: i < j < |trace| && Discards(trace[j], trace[i].inferenceId.value)
  }

  /** What the first `n` records cost that did no useful work. */
  ghost function WastedUpTo(trace: seq<Record>, n: nat, m: Metric): nat
    requires n <= |trace|
  {
    if n == 0 then 0
    else WastedUpTo(trace, n - 1, m) + if DiscardedLater(trace, n - 1) then Amount(trace[n - 1], m) else 0
  }

  /** What the first `n` records of one inference cost and nothing has discarded so far. */
  ghost function OpenUpTo(trace: seq<Record>, n: nat, id: string, m: Metric): nat
    requires n <= |trace|
  {
    if n == 0 then 0
    else
      OpenUpTo(trace, n - 1, id, m)
      + if trace[n - 1].inferenceId == Some(id) && !DiscardedLater(trace, n - 1) then Amount(trace[n - 1], m) else 0
  }

  ghost function Wasted(trace: seq<Record>, m: Metric): nat { WastedUpTo(trace, |trace|, m) }

  ghost function Open(trace: seq<Record>, id: string, m: Metric): nat { OpenUpTo(trace, |trace|, id, m) }

  lemma LaterSnoc(trace: seq<Record>, r: Record, i: nat)
    requires i < |trace|
    ensures DiscardedLater(trace + [r], i) <==>
              DiscardedLater(trace, i) || (trace[i].inferenceId.Some? && Discards(r, trace[i].inferenceId.value))
  {
    var n := trace + [r];
    if DiscardedLater(trace, i) {
      var j :| i < j < |trace| && Discards(trace[j], trace[i].inferenceId.value);
      assert Discards(n[j], n[i].inferenceId.value);
    } else if trace[i].inferenceId.Some? && Discards(r, trace[i].inferenceId.value) {
      assert Discards(n[|trace|], n[i].inferenceId.value);
    }
  }

  lemma {:induction false} WastedSnoc(trace: seq<Record>, r: Record, n: nat, m: Metric)
    requires n <= |trace|
    ensures WastedUpTo(trace + [r], n, m)
            == WastedUpTo(trace, n, m)
               + if r.event.Discarded? && r.inferenceId.Some? then OpenUpTo(trace, n, r.inferenceId.value, m) else 0
  {
    if n > 0 {
      WastedSnoc(trace, r, n - 1, m);
      LaterSnoc(trace, r, n - 1);
    }
  }

  lemma {:induction false} OpenSnoc(trace: seq<Record>, r: Record, n: nat, id: string, m: Metric)
    requires n <= |trace|
    ensures OpenUpTo(trace + [r], n, id, m) == if Discards(r, id) then 0 else OpenUpTo(trace, n, id, m)
  {
    if n > 0 {
      OpenSnoc(trace, r, n - 1, id, m);
      LaterSnoc(trace, r, n - 1);
    }
  }

  /** A discard moves all that is open for its inference into the buckets; nothing else touches them. */
  lemma WastedAfter(trace: seq<Record>, r: Record, m: Metric)
    ensures Wasted(trace + [r], m)
            == Wasted(trace, m)
               + if r.event.Discarded? && r.inferenceId.Some? then Open(trace, r.inferenceId.value, m) else 0
  {
    WastedSnoc(trace, r, |trace|, m);
    assert !DiscardedLater(trace + [r], |trace|);
  }

  /** What is open for an inference grows by its own records and is emptied by a discard. */
  lemma OpenAfterFor(trace: seq<Record>, r: Record, id: string, m: Metric)
    ensures Open(trace + [r], id, m)
            == if Discards(r, id) then 0 else Open(trace, id, m) + if r.inferenceId == Some(id) then Amount(r, m) else 0
  {
    OpenSnoc(trace, r, |trace|, id, m);
    DiscardCostsNothing(r, m);
    assert !DiscardedLater(trace + [r], |trace|);
    assert (trace + [r])[|trace|] == r;
  }

  lemma DiscardCostsNothing(r: Record, m: Metric)
    ensures r.event.Discarded? ==> Amount(r, m) == 0
  {
    if r.event.Discarded? {
      GetZero(m);
      assert Delta(r.event) == Zero;
    }
  }

  lemma OpenAfter(trace: seq<Record>, r: Record, m: Metric)
    ensures forall id :: Open(trace + [r], id, m)
                         == if Discards(r, id) then 0
                            else Open(trace, id, m) + if r.inferenceId == Some(id) then Amount(r, m) else 0
  {
    forall id
      ensures Open(trace + [r], id, m)
              == if Discards(r, id) then 0
                 else Open(trace, id, m) + if r.inferenceId == Some(id) then Amount(r, m) else 0
    {
      OpenAfterFor(trace, r, id, m);
    }
  }

  ghost function KeptUpTo(trace: seq<Record>, n: nat, m: Metric): nat
    requires n <= |trace|
  {
    if n == 0 then 0
    else KeptUpTo(trace, n - 1, m) + if DiscardedLater(trace, n - 1) then 0 else Amount(trace[n - 1], m)
  }

  lemma {:induction false} WastedAndKept(trace: seq<Record>, n: nat, m: Metric)
    requires n <= |trace|
    ensures WastedUpTo(trace, n, m) + KeptUpTo(trace, n, m) == Total(trace[..n], m)
  {
    if n > 0 {
      WastedAndKept(trace, n - 1, m);
      TakeNext(trace, n - 1);
    }
  }

  /** Used and wasted split the totals: no record is in both, so waste never exceeds what was spent. */
  lemma WasteIsPartOfTotal(trace: seq<Record>, m: Metric)
    ensures Wasted(trace, m) + KeptUpTo(trace, |trace|, m) == Total(trace, m)
  {
    WastedAndKept(trace, |trace|, m);
    TakeAll(trace);
  }

  // ----- the meter -------------------------------------------------------------------------

  predicate AnySections(trace: seq<Record>) {
    trace != []
    && (AnySections(trace[..|trace| - 1])
        || (trace[|trace| - 1].event.Done? && trace[|trace| - 1].event.sections.Some?))
  }

  predicate AnyUnknownWrite(trace: seq<Record>) {
    trace != []
    && (AnyUnknownWrite(trace[..|trace| - 1])
        || (trace[|trace| - 1].event.Usage? && trace[|trace| - 1].event.cacheWrite.None?))
  }

  function Lookup(m: map<string, nat>, id: string): nat { if id in m then m[id] else 0 }

  function Tokens(m: map<string, (nat, nat)>, id: string): (nat, nat) { if id in m then m[id] else (0, 0) }

  /** The run totals; an absent figure has never been reported, an unknown one can no longer be. */
  datatype Figures = Figures(
    calls: nat, seconds: nat, sections: Option<nat>, dynamicSections: Option<nat>,
    usageCalls: nat, input: nat, cached: nat, observed: nat, unknown: nat,
    cacheWrite: Option<nat>, cacheWriteUnknown: bool, output: nat, thinking: nat,
    dropped: nat, repaired: nat, failures: nat)

  predicate CallTotals(f: Figures, t: seq<Record>) {
    && f.calls == Total(t, Calls) && f.seconds == Total(t, Seconds)
    && f.sections == (if AnySections(t) then Some(Total(t, Sections)) else None)
    && f.dynamicSections == (if AnySections(t) then Some(Total(t, DynamicSections)) else None)
  }

  predicate TokenTotals(f: Figures, t: seq<Record>) {
    && f.usageCalls == Total(t, Usages) && f.input == Total(t, Input) && f.cached == Total(t, Cached)
    && f.observed == Total(t, Observed) && f.unknown == Total(t, Unknown)
    && f.output == Total(t, Output) && f.thinking == Total(t, ThinkingTokens)
  }

  /** One call whose provider did not report its cache writes leaves the whole figure unknown. */
  predicate CacheWriteTotal(f: Figures, t: seq<Record>) {
    && (f.cacheWriteUnknown <==> AnyUnknownWrite(t))
    && f.cacheWrite == (if AnyUnknownWrite(t) || Total(t, Usages) == 0 then None else Some(Total(t, CacheWrite)))
  }

  predicate ParserTotals(f: Figures, t: seq<Record>) {
    f.dropped == Total(t, Dropped) && f.repaired == Total(t, Repaired) && f.failures == Total(t, Failures)
  }

  /** The run totals are the sums over the stream. */
  predicate TotalsAre(f: Figures, t: seq<Record>) {
    CallTotals(f, t) && TokenTotals(f, t) && CacheWriteTotal(f, t) && ParserTotals(f, t)
  }

  datatype Buckets = Buckets(calls: nat, seconds: nat, input: nat, output: nat)

  /** What each inference has cost and may still turn out wasted. */
  datatype Partials = Partials(seconds: map<string, nat>, calls: map<string, nat>, tokens: map<string, (nat, nat)>)

  ghost predicate CallWaste(b: Buckets, p: Partials, t: seq<Record>) {
    && b.calls == Wasted(t, Calls) && b.seconds == Wasted(t, Seconds)
    && (forall id :: Lookup(p.seconds, id) == Open(t, id, Seconds))
    && (forall id :: Lookup(p.calls, id) == Open(t, id, Calls))
    && (forall id :: id in p.seconds <==> id in p.calls)
  }

  ghost predicate TokenWaste(b: Buckets, p: Partials, t: seq<Record>) {
    && b.input == Wasted(t, Input) && b.output == Wasted(t, Output)
    && (forall id :: Tokens(p.tokens, id) == (Open(t, id, Input), Open(t, id, Output)))
  }

  /** The wasted buckets hold exactly what was discarded, the partials exactly what still might be. */
  ghost predicate WasteIs(b: Buckets, p: Partials, t: seq<Record>) {
    CallWaste(b, p, t) && TokenWaste(b, p, t)
  }

  lemma OthersKeepCalls(f: Figures, t: seq<Record>, r: Record)
    requires CallTotals(f, t) && !r.event.Done?
    ensures CallTotals(f, t + [r])
  {
    Snoc(t, r);
  }

  lemma OthersKeepParser(f: Figures, t: seq<Record>, r: Record)
    requires ParserTotals(f, t) && !r.event.Malformed? && !r.event.TerminalParseFailure?
    ensures ParserTotals(f, t + [r])
  {
    Snoc(t, r);
  }

  lemma OthersKeepTokens(f: Figures, t: seq<Record>, r: Record)
    requires TokenTotals(f, t) && CacheWriteTotal(f, t) && !r.event.Usage?
    ensures TokenTotals(f, t + [r]) && CacheWriteTotal(f, t + [r])
  {
    Snoc(t, r);
  }

  lemma OthersKeepCallWaste(b: Buckets, p: Partials, t: seq<Record>, r: Record)
    requires CallWaste(b, p, t) && (r.inferenceId.None? || !(r.event.Done? || r.event.Discarded?))
    ensures CallWaste(b, p, t + [r])
  {
    WastedAfter(t, r, Calls);
    WastedAfter(t, r, Seconds);
    OpenAfter(t, r, Calls);
    OpenAfter(t, r, Seconds);
  }

  lemma OthersKeepTokenWaste(b: Buckets, p: Partials, t: seq<Record>, r: Record)
    requires TokenWaste(b, p, t) && (r.inferenceId.None? || !(r.event.Usage? || r.event.Discarded?))
    ensures TokenWaste(b, p, t + [r])
  {
    WastedAfter(t, r, Input);
    WastedAfter(t, r, Output);
    OpenAfter(t, r, Input);
    OpenAfter(t, r, Output);
  }

  class LLMMeter {
    var totals: Figures
    var wasted: Buckets
    var partials: Partials
    var rows: seq<Row>

    /** The state of a meter that has read exactly the stream `t`. */
    ghost predicate HasRead(t: seq<Record>)
      reads this
    {
      TotalsAre(totals, t) && WasteIs(wasted, partials, t) && rows == Replay(t)
    }

    /** A new meter has read nothing. */
    constructor (ghost t: seq<Record>)
      requires t == []
      ensures HasRead(t)
    {
      totals := Figures(0, 0, None, None, 0, 0, 0, 0, 0, None, false, 0, 0, 0, 0, 0);
      wasted, partials, rows := Buckets(0, 0, 0, 0), Partials(map[], map[], map[]), [];
      new;
      NothingCounted(totals, t);
      NothingWasted(wasted, partials, t);
    }

    method AddCall(r: Record, ghost t: seq<Record>)
      requires r.event.Done? && TotalsAre(totals, t)
      modifies `totals
      ensures TotalsAre(totals, t + [r])
    {
      var was := totals;
      totals := totals.(calls := totals.calls + 1, seconds := totals.seconds + r.event.seconds);
      if r.event.sections.Some? {
        totals := totals.(sections := Some(OrZero(totals.sections) + r.event.sections.value),
                          dynamicSections := Some(OrZero(totals.dynamicSections) + OrZero(r.event.dynamicSections)));
      }
      CallAdds(was, totals, t, r);
      OthersKeepTokens(was, t, r);
      OthersKeepParser(was, t, r);
    }

    method AddUsage(r: Record, ghost t: seq<Record>)
      requires r.event.Usage? && TotalsAre(totals, t)
      modifies `totals
      ensures TotalsAre(totals, t + [r])
    {
      var was := totals;
      totals := totals.(usageCalls := totals.usageCalls + 1, input := totals.input + r.event.input);
      if r.event.cached.None? {
        totals := totals.(unknown := totals.unknown + r.event.input);
      } else {
        totals := totals.(cached := totals.cached + r.event.cached.value, observed := totals.observed + r.event.input);
      }
      if r.event.cacheWrite.None? {
        totals := totals.(cacheWriteUnknown := true, cacheWrite := None);
      } else if !totals.cacheWriteUnknown {
        totals := totals.(cacheWrite := Some(OrZero(totals.cacheWrite) + r.event.cacheWrite.value));
      }
      totals := totals.(output := totals.output + r.event.output, thinking := totals.thinking + Thinking(r.event));
      UsageAdds(was, totals, t, r);
      OthersKeepCalls(was, t, r);
      OthersKeepParser(was, t, r);
    }

    method AddRepairs(r: Record, ghost t: seq<Record>)
      requires (r.event.Malformed? || r.event.TerminalParseFailure?) && TotalsAre(totals, t)
      modifies `totals
      ensures TotalsAre(totals, t + [r])
    {
      var was := totals;
      if r.event.Malformed? {
        totals := totals.(dropped := totals.dropped + r.event.dropped, repaired := totals.repaired + r.event.repaired);
      } else {
        totals := totals.(failures := totals.failures + 1);
      }
      RepairsAdd(was, totals, t, r);
      OthersKeepCalls(was, t, r);
      OthersKeepTokens(was, t, r);
    }

    method InferenceFor(r: Record) returns (i: nat)
      requires OneRowEach(rows)
      modifies `rows
      ensures rows == Touch(old(rows), r) && i < |rows| && i == IndexOf(rows, Owns(r))
    {
      TouchRows(rows, r);
      ghost var before, o := rows, Owns(r);
      i := 0;
      while i < |rows| && RowOwner(rows[i]) != Owns(r)
        invariant i <= |rows| && forall j :: 0 <= j < i ==> RowOwner(rows[j]) != Owns(r)
      {
        i := i + 1;
      }
      FirstIndex(rows, o, i);
      if i == |rows| {
        rows := rows + [NewRow(r)];
        return |rows| - 1;
      }
      var relabelled := Relabel(rows[i], r);
      if Owns(r).Known? && KeyOf(relabelled) != KeyOf(rows[i]) {
        rows := Drop(rows, i) + [relabelled];
        i := |rows| - 1;
      }
      FirstIndex(rows, o, i);
    }

    /** Look the row up, look it up again to replace it, as each kind of record does. */
    method EnterRow(r: Record, ghost t: seq<Record>)
      requires rows == Replay(t)
      modifies `rows
      ensures rows == Replay(t + [r])
    {
      Snoc(t, r);
      if Touches(r) {
        RowsTally(t);
        TouchRows(rows, r);
        TouchTwice(rows, r);
        var i := InferenceFor(r);
        var charged := Charged(rows[i], r);
        var j := InferenceFor(r);
        rows := rows[j := charged];
      }
    }

    method AddPartials(r: Record, ghost t: seq<Record>)
      requires WasteIs(wasted, partials, t) && r.inferenceId.Some? && (r.event.Done? || r.event.Usage?)
      modifies `partials
      ensures WasteIs(wasted, partials, t + [r])
    {
      var id, was := r.inferenceId.value, partials;
      if r.event.Done? {
        partials := partials.(seconds := partials.seconds[id := Lookup(partials.seconds, id) + r.event.seconds],
                              calls := partials.calls[id := Lookup(partials.calls, id) + 1]);
        CallPartialAdds(wasted, was, partials, t, r);
        OthersKeepTokenWaste(wasted, was, t, r);
      } else {
        var previous := Tokens(partials.tokens, id);
        partials := partials.(tokens := partials.tokens[id := (previous.0 + r.event.input,
                                                               previous.1 + r.event.output)]);
        TokenPartialAdds(wasted, was, partials, t, r);
        OthersKeepCallWaste(wasted, was, t, r);
      }
    }

    method Discard(r: Record, ghost t: seq<Record>)
      requires WasteIs(wasted, partials, t) && r.inferenceId.Some? && r.event.Discarded?
      modifies `partials, `wasted
      ensures WasteIs(wasted, partials, t + [r])
    {
      var id := r.inferenceId.value;
      var b, p := wasted, partials;
      if id in partials.seconds {
        wasted := wasted.(calls := wasted.calls + partials.calls[id], seconds := wasted.seconds + partials.seconds[id]);
        partials := partials.(seconds := partials.seconds - {id}, calls := partials.calls - {id});
      }
      if id in partials.tokens {
        wasted := wasted.(input := wasted.input + partials.tokens[id].0,
                          output := wasted.output + partials.tokens[id].1);
        partials := partials.(tokens := partials.tokens - {id});
      }
      DiscardMovesCalls(b, wasted, p, partials, t, r);
      DiscardMovesTokens(b, wasted, p, partials, t, r);
    }

    method Count(r: Record, ghost t: seq<Record>)
      requires TotalsAre(totals, t)
      modifies `totals
      ensures TotalsAre(totals, t + [r])
    {
      match r.event
      case Done(_, _, _) => AddCall(r, t);
      case Usage(_, _, _, _, _, _) => AddUsage(r, t);
      case Malformed(_, _) => AddRepairs(r, t);
      case TerminalParseFailure => AddRepairs(r, t);
      case _ =>
        OthersKeepCalls(totals, t, r);
        OthersKeepTokens(totals, t, r);
        OthersKeepParser(totals, t, r);
    }

    method Waste(r: Record, ghost t: seq<Record>)
      requires WasteIs(wasted, partials, t)
      modifies `wasted, `partials
      ensures WasteIs(wasted, partials, t + [r])
    {
      if r.inferenceId.Some? && (r.event.Done? || r.event.Usage?) {
        AddPartials(r, t);
      } else if r.inferenceId.Some? && r.event.Discarded? {
        Discard(r, t);
      } else {
        OthersKeepCallWaste(wasted, partials, t, r);
        OthersKeepTokenWaste(wasted, partials, t, r);
      }
    }

    /** One record of the log. */
    method Emit(r: Record, ghost t: seq<Record>)
      requires HasRead(t)
      modifies this
      ensures HasRead(t + [r])
    {
      Count(r, t);
      EnterRow(r, t);
      Waste(r, t);
    }
  }

  lemma NothingCounted(f: Figures, t: seq<Record>)
    requires t == [] && f == Figures(0, 0, None, None, 0, 0, 0, 0, 0, None, false, 0, 0, 0, 0, 0)
    ensures TotalsAre(f, t)
  {
  }

  lemma NothingWasted(b: Buckets, p: Partials, t: seq<Record>)
    requires t == [] && b == Buckets(0, 0, 0, 0) && p == Partials(map[], map[], map[])
    ensures WasteIs(b, p, t)
  {
  }

  // What one record adds, group by group: the steps behind the methods above.

  lemma CallAdds(f: Figures, n: Figures, t: seq<Record>, r: Record)
    requires r.event.Done? && CallTotals(f, t)
    requires n.calls == f.calls + 1 && n.seconds == f.seconds + r.event.seconds
    requires r.event.sections.None? ==> n.sections == f.sections && n.dynamicSections == f.dynamicSections
    requires r.event.sections.Some? ==>
               && n.sections == Some(OrZero(f.sections) + r.event.sections.value)
               && n.dynamicSections == Some(OrZero(f.dynamicSections) + OrZero(r.event.dynamicSections))
    ensures CallTotals(n, t + [r])
  {
    Snoc(t, r);
    if !AnySections(t) {
      NoSections(t);
    }
  }

  lemma RepairsAdd(f: Figures, n: Figures, t: seq<Record>, r: Record)
    requires (r.event.Malformed? || r.event.TerminalParseFailure?) && ParserTotals(f, t)
    requires n.dropped == f.dropped + if r.event.Malformed? then r.event.dropped else 0
    requires n.repaired == f.repaired + if r.event.Malformed? then r.event.repaired else 0
    requires n.failures == f.failures + if r.event.Malformed? then 0 else 1
    ensures ParserTotals(n, t + [r])
  {
    Snoc(t, r);
  }

  lemma UsageAdds(f: Figures, n: Figures, t: seq<Record>, r: Record)
    requires r.event.Usage? && TokenTotals(f, t) && CacheWriteTotal(f, t)
    requires n.usageCalls == f.usageCalls + 1 && n.input == f.input + r.event.input
    requires n.cached == f.cached + OrZero(r.event.cached)
    requires n.observed == f.observed + if r.event.cached.Some? then r.event.input else 0
    requires n.unknown == f.unknown + if r.event.cached.Some? then 0 else r.event.input
    requires n.output == f.output + r.event.output && n.thinking == f.thinking + Thinking(r.event)
    requires n.cacheWriteUnknown == (f.cacheWriteUnknown || r.event.cacheWrite.None?)
    requires n.cacheWrite == if n.cacheWriteUnknown then None
             else Some(OrZero(f.cacheWrite) + OrZero(r.event.cacheWrite))
    ensures TokenTotals(n, t + [r]) && CacheWriteTotal(n, t + [r])
  {
    Snoc(t, r);
    NoUsageNoWrites(t);
  }

  lemma CallPartialAdds(b: Buckets, p: Partials, n: Partials, t: seq<Record>, r: Record)
    requires CallWaste(b, p, t) && r.inferenceId.Some? && r.event.Done?
    requires n.seconds == p.seconds[r.inferenceId.value := Lookup(p.seconds, r.inferenceId.value) + r.event.seconds]
    requires n.calls == p.calls[r.inferenceId.value := Lookup(p.calls, r.inferenceId.value) + 1]
    ensures CallWaste(b, n, t + [r])
  {
    WastedAfter(t, r, Calls);
    WastedAfter(t, r, Seconds);
    OpenAfter(t, r, Calls);
    OpenAfter(t, r, Seconds);
  }

  lemma TokenPartialAdds(b: Buckets, p: Partials, n: Partials, t: seq<Record>, r: Record)
    requires TokenWaste(b, p, t) && r.inferenceId.Some? && r.event.Usage?
    requires var previous := Tokens(p.tokens, r.inferenceId.value);
             n.tokens == p.tokens[r.inferenceId.value := (previous.0 + r.event.input, previous.1 + r.event.output)]
    ensures TokenWaste(b, n, t + [r])
  {
    WastedAfter(t, r, Input);
    WastedAfter(t, r, Output);
    OpenAfter(t, r, Input);
    OpenAfter(t, r, Output);
  }

  lemma DiscardMovesCalls(b: Buckets, c: Buckets, p: Partials, n: Partials, t: seq<Record>, r: Record)
    requires CallWaste(b, p, t) && r.inferenceId.Some? && r.event.Discarded?
    requires c.calls == b.calls + Lookup(p.calls, r.inferenceId.value)
    requires c.seconds == b.seconds + Lookup(p.seconds, r.inferenceId.value)
    requires n.seconds == p.seconds - {r.inferenceId.value} && n.calls == p.calls - {r.inferenceId.value}
    ensures CallWaste(c, n, t + [r])
  {
    WastedAfter(t, r, Calls);
    WastedAfter(t, r, Seconds);
    OpenAfter(t, r, Calls);
    OpenAfter(t, r, Seconds);
  }

  lemma DiscardMovesTokens(b: Buckets, c: Buckets, p: Partials, n: Partials, t: seq<Record>, r: Record)
    requires TokenWaste(b, p, t) && r.inferenceId.Some? && r.event.Discarded?
    requires c.input == b.input + Tokens(p.tokens, r.inferenceId.value).0
    requires c.output == b.output + Tokens(p.tokens, r.inferenceId.value).1
    requires n.tokens == p.tokens - {r.inferenceId.value}
    ensures TokenWaste(c, n, t + [r])
  {
    WastedAfter(t, r, Input);
    WastedAfter(t, r, Output);
    OpenAfter(t, r, Input);
    OpenAfter(t, r, Output);
  }

  /** In a table with one row an owner, the index of its row is the only one that fits. */
  lemma FirstIndex(rows: seq<Row>, o: Owner, i: nat)
    requires OneRowEach(rows) && i <= |rows| && (i < |rows| ==> RowOwner(rows[i]) == o)
    requires i == |rows| ==> forall j :: 0 <= j < |rows| ==> RowOwner(rows[j]) != o
    ensures i == IndexOf(rows, o)
  {
    var k := IndexOf(rows, o);
    assert i < |rows| ==> rows[i] in rows;
    assert k < |rows| && i < |rows| ==> !(i < k) && !(k < i);
  }

  lemma {:induction false} NoSections(t: seq<Record>)
    requires !AnySections(t)
    ensures Total(t, Sections) == 0 && Total(t, DynamicSections) == 0
  {
    if t != [] {
      NoSections(t[..|t| - 1]);
    }
  }

  lemma {:induction false} NoUsageNoWrites(t: seq<Record>)
    ensures Total(t, Usages) == 0 ==> Total(t, CacheWrite) == 0
  {
    if t != [] {
      NoUsageNoWrites(t[..|t| - 1]);
    }
  }
}
