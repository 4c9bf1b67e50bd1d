/**
 * Resumable capability runs: every scenario run is an attempt directory of its own, and only an
 * attempt whose attestation pair is complete counts. Writes happen one at a time and a run may be
 * killed before any of them. A digest is the content it covers, so equal digests mean equal files.
 */
module Checkpoints {
  import opened Options
  import opened Sequences

  datatype Key = Key(scenario: string, run: nat)

  /** An attempt directory: `slot` stands for the digest-and-run folder of its key. */
  datatype Place = Place(slot: nat, index: nat)

  datatype Row = Row(
    key: Key, exception: bool, providerFailure: bool, truncated: bool, expired: bool,
    scored: bool, traced: bool, judged: bool, body: string)

  predicate InfrastructureFailure(row: Row) {
    row.exception || row.providerFailure || row.truncated || row.expired || !row.scored || !row.traced || !row.judged
  }

  /** A row that can be used: the run came to its end, was scored, traced and judged. */
  predicate Clean(row: Row) {
    && !row.exception && !row.providerFailure && !row.truncated && !row.expired
    && row.scored && row.traced && row.judged
  }

  datatype Started = Started(identity: string, key: Key)
  datatype Record = Record(identity: string, key: Key, usable: bool)

  /** A result file; `torn` when the last line is cut. */
  datatype Lines = Lines(rows: seq<Row>, torn: bool)

  datatype Files = Files(started: Option<Started>, calls: Option<seq<string>>, output: Option<Lines>,
                         record: Option<Record>)
  datatype Attempt = Attempt(files: Files, sums: Option<Files>, attested: Option<Files>)
  datatype Recovery = Recovery(completed: nat, discarded: set<Place>)

  datatype Root = Root(
    marker: Option<string>, attempts: map<Place, Attempt>,
    output: Option<seq<Row>>, calls: Option<seq<string>>, recovery: Option<Recovery>)

  datatype Disk = Disk(
    root: Root, markerTmp: bool, foreign: bool, contaminated: bool, sums: Option<Root>, attested: Option<Root>)

  predicate Empty(d: Disk) {
    d.root == Root(None, map[], None, None, None) && !d.markerTmp && !d.foreign && d.sums.None? && d.attested.None?
  }

  predicate Recognised(d: Disk, id: string) {
    !d.contaminated && (Empty(d) || (d.root.marker == Some(id) && !d.markerTmp && !d.foreign))
  }

  // ----- what an attempt directory is worth -------------------------------------------------

  /** `Skip` is evidence of a killed run; `Broken` makes the whole resume refuse. */
  datatype Verdict = Skip | Broken | Unusable | Usable(key: Key)

  function Judge(a: Attempt, id: string): Verdict {
    if a.attested.None? then Skip
    else if a.attested != Some(a.files) || a.sums != Some(a.files) then Broken
    else if a.files.record.None? || a.files.record.value.identity != id then Broken
    else if a.files.output.None? || a.files.output.value.torn || |a.files.output.value.rows| != 1 then Broken
    else
      var row, record := a.files.output.value.rows[0], a.files.record.value;
      if record.key != row.key || record.usable != !InfrastructureFailure(row) then Broken
      else if record.usable then Usable(row.key)
      else Unusable
  }

  /** The attempt proves itself: checksums and attestation cover its files, which hold this one row and its record. */
  ghost predicate Proves(a: Attempt, id: string, row: Row) {
    && a.attested == Some(a.files) && a.sums == Some(a.files)
    && a.files.output == Some(Lines([row], false))
    && a.files.record == Some(Record(id, row.key, Clean(row)))
  }

  /** Without an attestation an attempt is passed over; with one it proves its row or the resume refuses. */
  lemma JudgeMeans(a: Attempt, id: string)
    ensures Judge(a, id).Skip? <==> a.attested.None?
    ensures forall key :: Judge(a, id) == Usable(key) <==>
              exists row :: Proves(a, id, row) && Clean(row) && row.key == key
    ensures Judge(a, id).Unusable? <==> exists row :: Proves(a, id, row) && !Clean(row)
  {
    if a.attested.Some? && a.files.output.Some? && |a.files.output.value.rows| == 1 && !a.files.output.value.torn {
      var row := a.files.output.value.rows[0];
      assert a.files.output.value.rows == [row];
      if Judge(a, id).Usable? || Judge(a, id).Unusable? {
        assert Proves(a, id, row);
      }
    }
  }

  /** A capability directory is accepted when nothing is in it, or when our marker is down and nothing is unknown. */
  lemma RecognisedMeans(d: Disk, id: string)
    ensures Recognised(d, id) <==>
              && !d.contaminated
              && (|| d == Disk(Root(None, map[], None, None, None), false, false, false, None, None)
                  || (d.root.marker == Some(id) && !d.markerTmp && !d.foreign))
  {
  }

  predicate Accepts(d: Disk, id: string, key: Key, p: Place) {
    p in d.root.attempts && Judge(d.root.attempts[p], id) == Usable(key)
  }

  ghost predicate Accepted(d: Disk, id: string, key: Key) {
    exists p :: Accepts(d, id, key, p)
  }

  /** Every attested attempt checks out and no scenario run has two usable ones. */
  ghost predicate Sound(d: Disk, id: string) {
    && (forall p :: p in d.root.attempts ==> !Judge(d.root.attempts[p], id).Broken?)
    && (forall key, p, q :: Accepts(d, id, key, p) && Accepts(d, id, key, q) ==> p == q)
  }

  /** No attempt of `d` was rewritten or removed on the way to `n`. */
  ghost predicate Preserved(d: Disk, n: Disk) {
    forall p :: p in d.root.attempts ==> p in n.root.attempts && n.root.attempts[p] == d.root.attempts[p]
  }

  /** `accepted` is exactly the usable attempt of every scenario run that has one. */
  ghost predicate Exact(d: Disk, id: string, accepted: map<Key, Place>) {
    && (forall key :: key in accepted ==> Accepts(d, id, key, accepted[key]))
    && (forall key, p :: Accepts(d, id, key, p) ==> key in accepted && accepted[key] == p)
  }

  // ----- publishing ------------------------------------------------------------------------

  function RowsOf(a: Attempt): seq<Row> {
    if a.files.output.Some? then a.files.output.value.rows else []
  }

  function CallsOf(a: Attempt): seq<string> {
    if a.files.calls.Some? then a.files.calls.value else []
  }

  function Rows(attempts: map<Place, Attempt>, accepted: map<Key, Place>, order: seq<Key>): seq<Row>
    requires accepted.Values <= attempts.Keys
  {
    if order == [] then []
    else
      var key := order[|order| - 1];
      Rows(attempts, accepted, order[..|order| - 1]) + if key in accepted then RowsOf(attempts[accepted[key]]) else []
  }

  function CallLog(attempts: map<Place, Attempt>, accepted: map<Key, Place>, order: seq<Key>): seq<string>
    requires accepted.Values <= attempts.Keys
  {
    if order == [] then []
    else
      var key := order[|order| - 1];
      CallLog(attempts, accepted, order[..|order| - 1])
      + if key in accepted then CallsOf(attempts[accepted[key]]) else []
  }

  lemma CollectNext(attempts: map<Place, Attempt>, accepted: map<Key, Place>, order: seq<Key>, i: nat)
    requires accepted.Values <= attempts.Keys && i < |order|
    ensures Rows(attempts, accepted, order[..i + 1])
            == Rows(attempts, accepted, order[..i])
               + if order[i] in accepted then RowsOf(attempts[accepted[order[i]]]) else []
    ensures CallLog(attempts, accepted, order[..i + 1])
            == CallLog(attempts, accepted, order[..i])
               + if order[i] in accepted then CallsOf(attempts[accepted[order[i]]]) else []
  {
    TakeNext(order, i);
  }

  /** Exactly one usable row for every key of the order, in that order. */
  ghost predicate Complete(rows: seq<Row>, order: seq<Key>) {
    && |rows| == |order|
    && (forall i :: 0 <= i < |order| ==> rows[i].key == order[i] && Clean(rows[i]))
  }

  lemma AcceptedRow(d: Disk, id: string, accepted: map<Key, Place>, key: Key)
    requires Exact(d, id, accepted) && key in accepted
    ensures accepted[key] in d.root.attempts
    ensures var rows := RowsOf(d.root.attempts[accepted[key]]);
            |rows| == 1 && rows[0].key == key && Clean(rows[0])
  {
    assert Accepts(d, id, key, accepted[key]);
  }

  lemma AcceptedPlaces(d: Disk, id: string, accepted: map<Key, Place>)
    requires Exact(d, id, accepted)
    ensures accepted.Values <= d.root.attempts.Keys
  {
    forall p | p in accepted.Values
      ensures p in d.root.attempts
    {
      var key :| key in accepted && accepted[key] == p;
      assert Accepts(d, id, key, p);
    }
  }

  lemma {:induction false} RowsAtMost(d: Disk, id: string, accepted: map<Key, Place>, order: seq<Key>)
    requires Exact(d, id, accepted) && accepted.Values <= d.root.attempts.Keys
    ensures |Rows(d.root.attempts, accepted, order)| <= |order|
    ensures |Rows(d.root.attempts, accepted, order)| == |order| ==> forall i :: 0 <= i < |order| ==>
              order[i] in accepted
  {
    if order != [] {
      var key := order[|order| - 1];
      RowsAtMost(d, id, accepted, order[..|order| - 1]);
      if key in accepted {
        AcceptedRow(d, id, accepted, key);
      }
    }
  }

  lemma CompleteSnoc(rows: seq<Row>, order: seq<Key>, row: Row)
    requires order != [] && Complete(rows, order[..|order| - 1])
    requires row.key == order[|order| - 1] && Clean(row)
    ensures Complete(rows + [row], order)
  {
    forall i | 0 <= i < |order|
      ensures (rows + [row])[i].key == order[i] && Clean((rows + [row])[i])
    {
      if i < |order| - 1 {
        assert rows[i].key == order[..|order| - 1][i];
      }
    }
  }

  lemma {:induction false} RowsOfAll(d: Disk, id: string, accepted: map<Key, Place>, order: seq<Key>)
    requires Exact(d, id, accepted) && accepted.Values <= d.root.attempts.Keys
    requires forall i :: 0 <= i < |order| ==> order[i] in accepted
    ensures Complete(Rows(d.root.attempts, accepted, order), order)
  {
    if order != [] {
      var init, key := order[..|order| - 1], order[|order| - 1];
      RowsOfAll(d, id, accepted, init);
      AcceptedRow(d, id, accepted, key);
      var one := RowsOf(d.root.attempts[accepted[key]]);
      assert one == [one[0]];
      CompleteSnoc(Rows(d.root.attempts, accepted, init), order, one[0]);
    }
  }

  /** Published rows are complete exactly when every key of the order has a usable attempt. */
  lemma RowsComplete(d: Disk, id: string, accepted: map<Key, Place>, order: seq<Key>)
    requires Exact(d, id, accepted) && accepted.Values <= d.root.attempts.Keys
    ensures Complete(Rows(d.root.attempts, accepted, order), order) <==> forall i :: 0 <= i < |order| ==>
              order[i] in accepted
  {
    RowsAtMost(d, id, accepted, order);
    if forall i :: 0 <= i < |order| ==> order[i] in accepted {
      RowsOfAll(d, id, accepted, order);
    }
  }

  // ----- what a run may do to the disk ------------------------------------------------------

  /** The marker is down and the capability is not closed, so attempts may be added. */
  predicate Ready(d: Disk, id: string) {
    d.root.marker == Some(id) && !d.markerTmp && !d.foreign && !d.contaminated && d.attested.None?
  }

  ghost predicate Safe(id: string, start: Disk, d: Disk, accepted: map<Key, Place>) {
    && Ready(d, id) && Preserved(start, d) && Exact(d, id, accepted)
    && (forall p :: p in d.root.attempts ==> !Judge(d.root.attempts[p], id).Broken?)
    && (forall key, p :: Accepts(d, id, key, p) ==> d.root.attempts[p].files.calls.Some?)
  }

  /** Every attempt added since `start` was paid for, each key once, and none was accepted before. */
  ghost predicate Charged(id: string, start: Disk, d: Disk, paid: seq<Key>) {
    && (forall p :: p in d.root.attempts && p !in start.root.attempts && d.root.attempts[p].files.started.Some? ==>
          d.root.attempts[p].files.started.value.key in paid)
    && Distinct(paid)
    && (forall key :: key in paid ==> !Accepted(start, id, key))
  }

  ghost predicate Running(id: string, start: Disk, d: Disk, accepted: map<Key, Place>, paid: seq<Key>) {
    Safe(id, start, d, accepted) && Charged(id, start, d, paid)
  }

  /** An attempt whose scenario returned `row` and which is not yet recorded. */
  predicate Finished(a: Attempt, id: string, row: Row) {
    && a.sums.None? && a.attested.None?
    && a.files.started == Some(Started(id, row.key)) && a.files.calls.Some?
    && a.files.output == Some(Lines([row], false)) && a.files.record.None?
  }

  function With(d: Disk, p: Place, a: Attempt): Disk {
    d.(root := d.root.(attempts := d.root.attempts[p := a]))
  }

  lemma Rewritten(d: Disk, p: Place, a: Attempt, b: Attempt)
    ensures With(With(d, p, a), p, b) == With(d, p, b)
    ensures p in d.root.attempts && d.root.attempts[p] == b ==> With(d, p, b) == d
  {
    assert p in d.root.attempts && d.root.attempts[p] == b ==> d.root.attempts[p := b] == d.root.attempts;
    assert d.root.attempts[p := a][p := b] == d.root.attempts[p := b];
  }

  // What a process killed after so many writes leaves behind.

  /** A new attempt directory: made, then noted for its scenario run. */
  function MadeFor(id: string, key: Key, writes: nat): Attempt {
    Attempt(Files(if writes <= 1 then None else Some(Started(id, key)), None, None, None), None, None)
  }

  /** A result file: made, begun, whole. */
  function Written(files: Files, row: Row, writes: nat): Files {
    if writes == 0 then files
    else files.(output := Some(if writes == 1 then Lines([], false) else Lines([row], writes == 2)))
  }

  /** A call log: made, then one call at a time. */
  function Logged(files: Files, log: seq<string>, writes: nat): Files {
    if writes == 0 then files else files.(calls := Some(if writes <= |log| then log[..writes - 1] else log))
  }

  lemma LoggedNext(files: Files, log: seq<string>, made: nat)
    requires made < |log|
    ensures log[..made] + [log[made]] == log[..made + 1]
    ensures Logged(files, log, made + 2) == files.(calls := Some(log[..made + 1]))
  {
    TakeNext(log, made);
    TakeAll(log);
  }

  /** A scenario run: the call log from empty to whole, and then the result file. */
  function Played(files: Files, log: seq<string>, row: Row, writes: nat): Files {
    Written(Logged(files, log, writes), row, if writes <= |log| then 0 else writes - |log| - 1)
  }

  /** The finish: the record of the row, the checksums, and last the attestation. */
  function Recorded(id: string, files: Files, row: Row, writes: nat): Attempt
    requires writes > 0
  {
    var whole := files.(record := Some(Record(id, row.key, Clean(row))));
    Attempt(whole, if writes == 1 then None else Some(whole), if writes <= 2 then None else Some(whole))
  }

  lemma DraftAccepts(id: string, d: Disk, p: Place, a: Attempt)
    requires a.attested.None? && (p in d.root.attempts ==> d.root.attempts[p].attested.None?)
    ensures forall key, q :: Accepts(With(d, p, a), id, key, q) <==> Accepts(d, id, key, q)
  {
  }

  /** Writing into an attempt that is not attested changes nothing that counts. */
  lemma DraftSafe(id: string, start: Disk, d: Disk, accepted: map<Key, Place>, p: Place, a: Attempt)
    requires Safe(id, start, d, accepted) && p !in start.root.attempts
    requires a.attested.None? && (p in d.root.attempts ==> d.root.attempts[p].attested.None?)
    ensures Safe(id, start, With(d, p, a), accepted)
  {
    var n := With(d, p, a);
    DraftAccepts(id, d, p, a);
    assert Judge(a, id) == Skip;
    forall key, q | Accepts(n, id, key, q)
      ensures n.root.attempts[q].files.calls.Some?
    {
      assert Accepts(d, id, key, q);
    }
  }

  lemma WriteCharged(id: string, start: Disk, d: Disk, paid: seq<Key>, p: Place, a: Attempt)
    requires Charged(id, start, d, paid)
    requires a.files.started.Some? ==> a.files.started.value.key in paid
    ensures Charged(id, start, With(d, p, a), paid)
  {
  }

  lemma AttestAccepts(id: string, d: Disk, p: Place, a: Attempt)
    requires p in d.root.attempts && d.root.attempts[p].attested.None?
    ensures forall key, q :: Accepts(With(d, p, a), id, key, q) <==>
              Accepts(d, id, key, q) || (q == p && Judge(a, id) == Usable(key))
  {
  }

  /** The one write that makes an attempt count. */
  lemma AttestSafe(id: string, start: Disk, d: Disk, accepted: map<Key, Place>, p: Place, a: Attempt)
    requires Safe(id, start, d, accepted) && p !in start.root.attempts
    requires p in d.root.attempts && d.root.attempts[p].attested.None?
    requires Judge(a, id).Unusable? || (Judge(a, id).Usable? && a.files.calls.Some? && Judge(a, id).key !in accepted)
    ensures Safe(id, start, With(d, p, a), if Judge(a, id).Usable? then accepted[Judge(a, id).key := p] else accepted)
  {
    var n := With(d, p, a);
    var now := if Judge(a, id).Usable? then accepted[Judge(a, id).key := p] else accepted;
    AttestAccepts(id, d, p, a);
    forall key, q | Accepts(n, id, key, q)
      ensures key in now && now[key] == q && n.root.attempts[q].files.calls.Some?
    {
      if q != p {
        assert Accepts(d, id, key, q);
      }
    }
    forall key | key in now
      ensures Accepts(n, id, key, now[key])
    {
      if key in accepted && now[key] == accepted[key] {
        assert Accepts(d, id, key, accepted[key]);
      }
    }
  }

  lemma SafeIsReadable(id: string, start: Disk, d: Disk, accepted: map<Key, Place>)
    requires Safe(id, start, d, accepted) && accepted.Values <= d.root.attempts.Keys
    ensures forall key :: key in accepted ==> d.root.attempts[accepted[key]].files.calls.Some?
  {
    forall key | key in accepted
      ensures d.root.attempts[accepted[key]].files.calls.Some?
    {
      assert Accepts(d, id, key, accepted[key]);
    }
  }

  lemma SafeIsSound(id: string, start: Disk, d: Disk, accepted: map<Key, Place>)
    requires Safe(id, start, d, accepted)
    ensures Sound(d, id)
  {
  }

  /** The attempts in `done` have been read, and these are the usable ones among them. */
  ghost predicate Scanned(d: Disk, id: string, done: set<Place>, accepted: map<Key, Place>) {
    && (forall p :: p in done && p in d.root.attempts ==> !Judge(d.root.attempts[p], id).Broken?)
    && (forall key :: key in accepted ==> Accepts(d, id, key, accepted[key]) && accepted[key] in done)
    && (forall key, p :: Accepts(d, id, key, p) && p in done ==> key in accepted && accepted[key] == p)
  }

  datatype Publication = Published(rows: seq<Row>) | Unreadable | Dead

  /** The call logs behind the first `n` keys of the order are there. */
  ghost predicate Readable(d: Disk, accepted: map<Key, Place>, order: seq<Key>, n: nat)
    requires accepted.Values <= d.root.attempts.Keys && n <= |order|
  {
    forall i :: 0 <= i < n && order[i] in accepted ==> d.root.attempts[accepted[order[i]]].files.calls.Some?
  }

  /** Only the published files differ. */
  predicate SameAttempts(d: Disk, n: Disk) {
    n == d.(root := d.root.(output := n.root.output, calls := n.root.calls, recovery := n.root.recovery))
  }

  lemma PublishingKeeps(id: string, start: Disk, d: Disk, n: Disk, accepted: map<Key, Place>, paid: seq<Key>)
    requires Running(id, start, d, accepted, paid) && SameAttempts(d, n)
    ensures Running(id, start, n, accepted, paid)
  {
    assert forall key, p :: Accepts(n, id, key, p) <==> Accepts(d, id, key, p);
  }

  /** A capability whose run does not refuse: what it holds checks out and belongs to this manifest. */
  ghost predicate Startable(d: Disk, id: string, order: seq<Key>) {
    && Recognised(d, id) && d.attested.None? && Sound(d, id)
    && (forall key, p :: Accepts(d, id, key, p) ==> key in order && d.root.attempts[p].files.calls.Some?)
  }

  datatype Opening = Rejected | Cut | Opened(accepted: map<Key, Place>, rows: seq<Row>)

  datatype Preparation = Refuse | Interrupted | Prepared

  lemma EmptyIsStartable(d: Disk, id: string, order: seq<Key>)
    requires Empty(d) && Recognised(d, id)
    ensures Startable(d, id, order)
  {
  }

  /**
   * A process that dies between the two attestation writes does not make a resume refuse: such an
   * attempt is passed over, the capability can be started again, and its scenario run is not done.
   */
  lemma HalfAttestedIsPassedOver(d: Disk, id: string, order: seq<Key>, p: Place, a: Attempt, row: Row)
    requires Startable(d, id, order) && Ready(d, id) && !Accepted(d, id, row.key)
    requires p in d.root.attempts && d.root.attempts[p].attested.None?
    requires var files := a.files;
             && a.sums == Some(files) && a.attested.None?
             && files.output == Some(Lines([row], false)) && Clean(row)
             && files.record == Some(Record(id, row.key, true))
    ensures Judge(a, id) == Skip && Judge(a.(attested := Some(a.files)), id) == Usable(row.key)
    ensures Startable(With(d, p, a), id, order) && !Accepted(With(d, p, a), id, row.key)
  {
    DraftAccepts(id, d, p, a);
    assert forall q :: !Accepts(d, id, row.key, q);
  }

  lemma MarkingKeeps(id: string, d: Disk, n: Disk, order: seq<Key>)
    requires Recognised(d, id) && d.attested.None? && Ready(n, id) && (Empty(d) || n == d)
             && n.root.attempts == d.root.attempts
    ensures Startable(n, id, order) <==> Startable(d, id, order)
    ensures Sound(n, id) <==> Sound(d, id)
  {
    assert forall key, p :: Accepts(n, id, key, p) <==> Accepts(d, id, key, p);
  }

  /** What holds once the opening has published: `n` differs from the prepared disk `d` in that alone. */
  lemma OpenedIsRunning(id: string, start: Disk, d: Disk, n: Disk, order: seq<Key>, accepted: map<Key, Place>)
    requires d.root.attempts == start.root.attempts && Ready(d, id) && Sound(d, id) && Exact(d, id, accepted)
    requires accepted.Values <= d.root.attempts.Keys && SameAttempts(d, n) && Readable(n, accepted, order, |order|)
    requires forall key :: key in accepted ==> key in order
    ensures Running(id, start, n, accepted, []) && Fresh(id, start, accepted)
    ensures Startable(n, id, order) && Startable(d, id, order)
  {
    assert forall key, p :: Accepts(n, id, key, p) <==> Accepts(d, id, key, p);
    assert forall key, p :: Accepts(start, id, key, p) <==> Accepts(d, id, key, p);
    forall key, p | Accepts(d, id, key, p)
      ensures key in order && d.root.attempts[p].files.calls.Some?
    {
      var i :| 0 <= i < |order| && order[i] == key;
    }
    forall key
      ensures key in accepted <==> Accepted(start, id, key)
    {
      if key in accepted {
        assert Accepts(start, id, key, accepted[key]);
      }
    }
  }

  /** The state of a run once it has begun: nothing paid for yet, the published rows up to date. */
  ghost predicate Underway(id: string, start: Disk, d: Disk, order: seq<Key>, accepted: map<Key, Place>,
                           rows: seq<Row>) {
    && Running(id, start, d, accepted, []) && Fresh(id, start, accepted)
    && accepted.Values <= d.root.attempts.Keys
    && (forall key :: key in accepted ==> key in order)
    && rows == Rows(d.root.attempts, accepted, order) && d.root.output == Some(rows)
  }

  /** `accepted` names exactly the scenario runs that were already done at `start`. */
  ghost predicate Fresh(id: string, start: Disk, accepted: map<Key, Place>) {
    forall key :: key in accepted <==> Accepted(start, id, key)
  }

  // ----- the manifest, repeat by repeat -----------------------------------------------------

  lemma FreshIsDone(id: string, start: Disk, accepted: map<Key, Place>)
    requires Fresh(id, start, accepted)
    ensures accepted.Keys == DoneKeys(start, id)
  {
    DoneIsAccepted(start, id);
  }

  function Cases(manifest: seq<string>, repeat: nat): seq<Key> {
    if manifest == [] then [] else Cases(manifest[..|manifest| - 1], repeat) + [Key(manifest[|manifest| - 1], repeat)]
  }

  /** The manifest's cases, repeat by repeat. */
  function Order(manifest: seq<string>, repeats: nat): seq<Key> {
    if repeats == 0 then [] else Order(manifest, repeats - 1) + Cases(manifest, repeats - 1)
  }

  lemma {:induction false} CasesAt(manifest: seq<string>, repeat: nat)
    ensures |Cases(manifest, repeat)| == |manifest|
    ensures forall i :: 0 <= i < |manifest| ==> Cases(manifest, repeat)[i] == Key(manifest[i], repeat)
  {
    if manifest != [] {
      CasesAt(manifest[..|manifest| - 1], repeat);
    }
  }

  /** Case `i` of repeat `r` comes after every case of the earlier repeats and every earlier case of its own. */
  lemma {:induction false} OrderIsRepeatMajor(manifest: seq<string>, repeats: nat, repeat: nat, i: nat)
    requires repeat < repeats && i < |manifest|
    ensures |Order(manifest, repeat)| + i < |Order(manifest, repeats)|
    ensures Order(manifest, repeats)[|Order(manifest, repeat)| + i] == Key(manifest[i], repeat)
  {
    var before, cases := Order(manifest, repeats - 1), Cases(manifest, repeats - 1);
    if repeat < repeats - 1 {
      OrderIsRepeatMajor(manifest, repeats - 1, repeat, i);
      InConcat(before, cases, |Order(manifest, repeat)| + i);
    } else {
      CasesAt(manifest, repeat);
      InConcat(before, cases, |before| + i);
    }
  }

  // ----- a run -------------------------------------------------------------------------------

  datatype Outcome = Refused | Killed | Paused | Drained | Done(rows: seq<Row>)

  /** Why a run ended early, and what must have happened for it to. */
  ghost predicate Halts(o: Outcome, d: Disk, id: string, budget: nat, pauseFile: bool) {
    match o
    case Killed => budget == 0
    case Paused => pauseFile
    case Drained => pauseFile && exists p :: p in d.root.attempts && Judge(d.root.attempts[p], id) == Unusable
    case _ => false
  }

  /** The published rows are those of the accepted attempts. */
  ghost predicate Current(d: Disk, accepted: map<Key, Place>, order: seq<Key>, rows: seq<Row>) {
    accepted.Values <= d.root.attempts.Keys && rows == Rows(d.root.attempts, accepted, order)
      && d.root.output == Some(rows)
  }

  lemma ChargeOne(id: string, start: Disk, d: Disk, paid: seq<Key>, key: Key)
    requires Charged(id, start, d, paid) && key !in paid && !Accepted(start, id, key)
    ensures Charged(id, start, d, paid + [key])
  {
  }

  function KeysIn(ids: seq<string>, repeat: nat): set<Key> {
    if ids == [] then {} else KeysIn(ids[..|ids| - 1], repeat) + {Key(ids[|ids| - 1], repeat)}
  }

  lemma KeysNext(ids: seq<string>, repeat: nat, i: nat)
    requires i < |ids|
    ensures KeysIn(ids[..i + 1], repeat) == KeysIn(ids[..i], repeat) + {Key(ids[i], repeat)}
  {
    TakeNext(ids, i);
  }

  lemma {:induction false} KeysPrefix(ids: seq<string>, repeat: nat, i: nat)
    requires i <= |ids|
    ensures KeysIn(ids[..i], repeat) <= KeysIn(ids, repeat)
    decreases |ids| - i
  {
    if i < |ids| {
      KeysPrefix(ids, repeat, i + 1);
      KeysNext(ids, repeat, i);
    } else {
      TakeAll(ids);
    }
  }

  /** Between two scenarios: whatever was paid for, or done before the run began, is accepted. */
  ghost predicate Sweeping(id: string, start: Disk, d: Disk, accepted: map<Key, Place>, paid: seq<Key>) {
    && Running(id, start, d, accepted, paid)
    && (forall key :: key in paid ==> key in accepted)
    && (forall key :: Accepted(start, id, key) ==> key in accepted)
  }

  lemma Visit(base: set<Key>, was: set<Key>, have: set<Key>, ids: seq<string>, repeat: nat, i: nat)
    requires i < |ids| && was == base + KeysIn(ids[..i], repeat) && have == was + {Key(ids[i], repeat)}
    ensures have == base + KeysIn(ids[..i + 1], repeat)
  {
    KeysNext(ids, repeat, i);
  }

  lemma VisitStopped(base: set<Key>, was: set<Key>, have: set<Key>, ids: seq<string>, repeat: nat, i: nat)
    requires i < |ids| && was == base + KeysIn(ids[..i], repeat)
    requires have == was || have == was + {Key(ids[i], repeat)}
    ensures base <= have <= base + KeysIn(ids, repeat)
  {
    KeysNext(ids, repeat, i);
    KeysPrefix(ids, repeat, i + 1);
  }

  lemma SweepOn(id: string, start: Disk, d: Disk, n: Disk, accepted: map<Key, Place>, have: map<Key, Place>,
                paid: seq<Key>, now: seq<Key>, key: Key)
    requires Sweeping(id, start, d, accepted, paid) && Running(id, start, n, have, now)
    requires have.Keys == accepted.Keys + {key} && forall k :: k in now ==> k in paid || k == key
    ensures Sweeping(id, start, n, have, now)
  {
    assert forall k :: k in have <==> k in have.Keys;
    assert forall k :: k in accepted <==> k in accepted.Keys;
  }

  function AllKeys(scenarios: seq<seq<string>>): set<Key> {
    if scenarios == [] then {}
    else AllKeys(scenarios[..|scenarios| - 1]) + KeysIn(scenarios[|scenarios| - 1], |scenarios| - 1)
  }

  lemma AllKeysNext(scenarios: seq<seq<string>>, i: nat)
    requires i < |scenarios|
    ensures AllKeys(scenarios[..i + 1]) == AllKeys(scenarios[..i]) + KeysIn(scenarios[i], i)
  {
    TakeNext(scenarios, i);
  }

  lemma {:induction false} AllKeysPrefix(scenarios: seq<seq<string>>, i: nat)
    requires i <= |scenarios|
    ensures AllKeys(scenarios[..i]) <= AllKeys(scenarios)
    decreases |scenarios| - i
  {
    if i < |scenarios| {
      AllKeysPrefix(scenarios, i + 1);
      AllKeysNext(scenarios, i);
    } else {
      TakeAll(scenarios);
    }
  }

  // ----- what a run has to pay for -------------------------------------------------------------

  /** The scenario runs that have a usable attempt. */
  ghost function DoneKeys(d: Disk, id: string): set<Key> {
    set p | p in d.root.attempts && Judge(d.root.attempts[p], id).Usable? :: Judge(d.root.attempts[p], id).key
  }

  lemma DoneIsAccepted(d: Disk, id: string)
    ensures forall key :: key in DoneKeys(d, id) <==> Accepted(d, id, key)
  {
    forall key | Accepted(d, id, key)
      ensures key in DoneKeys(d, id)
    {
      var p :| Accepts(d, id, key, p);
    }
    forall key | key in DoneKeys(d, id)
      ensures Accepted(d, id, key)
    {
      var p :| p in d.root.attempts && Judge(d.root.attempts[p], id).Usable?
               && Judge(d.root.attempts[p], id).key == key;
      assert Accepts(d, id, key, p);
    }
  }

  /** The cases of one repeat that are neither done nor due yet, in order, after those due before. */
  function DueIn(done: set<Key>, ids: seq<string>, repeat: nat, due: seq<Key>): seq<Key> {
    if ids == [] then due
    else
      var before, key := DueIn(done, ids[..|ids| - 1], repeat, due), Key(ids[|ids| - 1], repeat);
      if key in done || key in before then before else before + [key]
  }

  function Due(done: set<Key>, scenarios: seq<seq<string>>): seq<Key> {
    if scenarios == [] then []
    else
      var last := |scenarios| - 1;
      DueIn(done, scenarios[last], last, Due(done, scenarios[..last]))
  }

  lemma DueNext(done: set<Key>, ids: seq<string>, repeat: nat, due: seq<Key>, i: nat)
    requires i < |ids|
    ensures var before, key := DueIn(done, ids[..i], repeat, due), Key(ids[i], repeat);
            DueIn(done, ids[..i + 1], repeat, due) == if key in done || key in before then before else before + [key]
  {
    TakeNext(ids, i);
  }

  lemma {:induction false} DueGrows(done: set<Key>, ids: seq<string>, repeat: nat, due: seq<Key>, i: nat)
    requires i <= |ids|
    ensures due <= DueIn(done, ids[..i], repeat, due) <= DueIn(done, ids, repeat, due)
    decreases |ids|
  {
    if ids != [] {
      var n := |ids| - 1;
      if i < |ids| {
        DueGrows(done, ids[..n], repeat, due, i);
        assert ids[..n][..i] == ids[..i];
      } else {
        DueGrows(done, ids[..n], repeat, due, n);
        TakeAll(ids);
        TakeAll(ids[..n]);
      }
    }
  }

  lemma {:induction false} DueOfRepeats(done: set<Key>, scenarios: seq<seq<string>>, i: nat)
    requires i <= |scenarios|
    ensures Due(done, scenarios[..i]) <= Due(done, scenarios)
    decreases |scenarios| - i
  {
    if i < |scenarios| {
      DueOfRepeats(done, scenarios, i + 1);
      TakeNext(scenarios, i);
      DueGrows(done, scenarios[i], i, Due(done, scenarios[..i]), 0);
    } else {
      TakeAll(scenarios);
    }
  }

  lemma {:induction false} DueInHas(done: set<Key>, ids: seq<string>, repeat: nat, due: seq<Key>, key: Key)
    ensures key in DueIn(done, ids, repeat, due) <==> key in due || (key in KeysIn(ids, repeat) && key !in done)
  {
    if ids != [] {
      DueInHas(done, ids[..|ids| - 1], repeat, due, key);
    }
  }

  /** Every swept case that is not done is due, and nothing else. */
  lemma {:induction false} DueHas(done: set<Key>, scenarios: seq<seq<string>>, key: Key)
    ensures key in Due(done, scenarios) <==> key in AllKeys(scenarios) && key !in done
  {
    if scenarios != [] {
      var last := |scenarios| - 1;
      DueHas(done, scenarios[..last], key);
      DueInHas(done, scenarios[last], last, Due(done, scenarios[..last]), key);
    }
  }

  lemma NothingDue(d: Disk, id: string, scenarios: seq<seq<string>>)
    requires Due(DoneKeys(d, id), scenarios) == []
    ensures forall key :: key in AllKeys(scenarios) ==> Accepted(d, id, key)
  {
    DoneIsAccepted(d, id);
    forall key | key in AllKeys(scenarios)
      ensures Accepted(d, id, key)
    {
      DueHas(DoneKeys(d, id), scenarios, key);
    }
  }

  /** What has a usable attempt by now: what was done before, and what has been paid for. */
  ghost predicate Books(done: set<Key>, have: map<Key, Place>, paid: seq<Key>) {
    forall key :: key in have <==> key in done || key in paid
  }

  lemma BooksNext(done: set<Key>, have: map<Key, Place>, paid: seq<Key>, now: map<Key, Place>, key: Key)
    requires Books(done, have, paid) && now.Keys == have.Keys + {key}
    ensures Books(done, now, paid + [key])
  {
    assert forall k :: k in now <==> k in now.Keys;
    assert forall k :: k in have <==> k in have.Keys;
  }

  /**
   * A sweep over `due` that had paid for `paid` has now paid for `now`: the first of what is due, nothing
   * once the pause file is up, all of it unless it stopped, and a pause only when the file is up.
   */
  ghost predicate Spending(raisedAfter: nat, up: bool, paid: seq<Key>, due: seq<Key>, stopped: Option<Outcome>,
                           now: seq<Key>) {
    && paid <= now <= due
    && (|now| > |paid| ==> !up && |now| <= raisedAfter)
    && (stopped.None? ==> now == due)
    && (stopped == Some(Paused) ==> |now| < |due| && (up || |now| >= raisedAfter))
  }

  lemma SpendingNext(raisedAfter: nat, up: bool, paid: seq<Key>, spent: seq<Key>, key: Key, stopped: Option<Outcome>,
                     now: seq<Key>)
    requires Spending(raisedAfter, up, paid, spent, None, spent)
    requires up || |spent| >= raisedAfter ==> stopped == Some(Paused) && now == spent
    requires !up && |spent| < raisedAfter ==> now == spent + [key] && stopped != Some(Paused)
    ensures Spending(raisedAfter, up, paid, spent + [key], stopped, now)
  {
  }

  lemma SpendingStops(raisedAfter: nat, up: bool, paid: seq<Key>, due: seq<Key>, more: seq<Key>,
                      stopped: Option<Outcome>, now: seq<Key>)
    requires Spending(raisedAfter, up, paid, due, stopped, now) && stopped.Some? && due <= more
    ensures Spending(raisedAfter, up, paid, more, stopped, now)
  {
  }

  /** A repeat after the ones before it. */
  lemma SpendingOn(raisedAfter: nat, up: bool, paid: seq<Key>, due: seq<Key>, stopped: Option<Outcome>, now: seq<Key>)
    requires Spending(raisedAfter, up, [], paid, None, paid)
    requires Spending(raisedAfter, up, paid, due, stopped, now)
    ensures Spending(raisedAfter, up, [], due, stopped, now)
  {
  }

  /** The first `i` cases of a repeat have been gone through without a stop. */
  ghost predicate Sofar(raisedAfter: nat, up: bool, done: set<Key>, ids: seq<string>, repeat: nat, paid: seq<Key>,
                        i: nat, have: map<Key, Place>, now: seq<Key>) {
    && i <= |ids| && Books(done, have, now)
    && Spending(raisedAfter, up, paid, DueIn(done, ids[..i], repeat, paid), None, now)
  }

  lemma SofarSkips(raisedAfter: nat, up: bool, done: set<Key>, ids: seq<string>, repeat: nat, paid: seq<Key>,
                   i: nat, have: map<Key, Place>, now: seq<Key>)
    requires Sofar(raisedAfter, up, done, ids, repeat, paid, i, have, now)
    requires i < |ids| && Key(ids[i], repeat) in have
    ensures Sofar(raisedAfter, up, done, ids, repeat, paid, i + 1, have, now)
  {
    DueNext(done, ids, repeat, paid, i);
  }

  lemma SofarPays(raisedAfter: nat, up: bool, done: set<Key>, ids: seq<string>, repeat: nat, paid: seq<Key>,
                  i: nat, was: map<Key, Place>, have: map<Key, Place>, spent: seq<Key>, now: seq<Key>)
    requires Sofar(raisedAfter, up, done, ids, repeat, paid, i, was, spent)
    requires i < |ids| && Key(ids[i], repeat) !in was && have.Keys == was.Keys + {Key(ids[i], repeat)}
    requires !up && |spent| < raisedAfter && now == spent + [Key(ids[i], repeat)]
    ensures Sofar(raisedAfter, up, done, ids, repeat, paid, i + 1, have, now)
  {
    DueNext(done, ids, repeat, paid, i);
    SpendingNext(raisedAfter, up, paid, spent, Key(ids[i], repeat), None, now);
    BooksNext(done, was, spent, have, Key(ids[i], repeat));
  }

  lemma SofarStops(raisedAfter: nat, up: bool, done: set<Key>, ids: seq<string>, repeat: nat, paid: seq<Key>,
                   i: nat, was: map<Key, Place>, spent: seq<Key>, stopped: Option<Outcome>, now: seq<Key>)
    requires Sofar(raisedAfter, up, done, ids, repeat, paid, i, was, spent)
    requires i < |ids| && Key(ids[i], repeat) !in was && stopped.Some?
    requires up || |spent| >= raisedAfter ==> stopped == Some(Paused) && now == spent
    requires !up && |spent| < raisedAfter ==> now == spent + [Key(ids[i], repeat)] && stopped != Some(Paused)
    ensures Spending(raisedAfter, up, paid, DueIn(done, ids, repeat, paid), stopped, now)
  {
    var key := Key(ids[i], repeat);
    DueNext(done, ids, repeat, paid, i);
    DueGrows(done, ids, repeat, paid, i + 1);
    SpendingNext(raisedAfter, up, paid, spent, key, stopped, now);
    SpendingStops(raisedAfter, up, paid, spent + [key], DueIn(done, ids, repeat, paid), stopped, now);
  }

  /** What a repeat started from: what was accepted and paid for, and whether the pause file was up. */
  datatype Base = Base(done: set<Key>, accepted: map<Key, Place>, paid: seq<Key>, raisedAfter: nat, up: bool)

  /** A repeat after its first `i` cases. */
  ghost predicate Midway(id: string, start: Disk, d: Disk, b: Base, ids: seq<string>, repeat: nat, i: nat,
                         have: map<Key, Place>, now: seq<Key>) {
    && i <= |ids| && Sweeping(id, start, d, have, now)
    && have.Keys == b.accepted.Keys + KeysIn(ids[..i], repeat)
    && Sofar(b.raisedAfter, b.up, b.done, ids, repeat, b.paid, i, have, now)
  }

  lemma MidwaySkips(id: string, start: Disk, d: Disk, b: Base, ids: seq<string>, repeat: nat, i: nat,
                    have: map<Key, Place>, now: seq<Key>)
    requires Midway(id, start, d, b, ids, repeat, i, have, now) && i < |ids| && Key(ids[i], repeat) in have
    ensures Midway(id, start, d, b, ids, repeat, i + 1, have, now)
  {
    assert Key(ids[i], repeat) in have.Keys;
    Visit(b.accepted.Keys, have.Keys, have.Keys, ids, repeat, i);
    SofarSkips(b.raisedAfter, b.up, b.done, ids, repeat, b.paid, i, have, now);
  }

  lemma MidwayPays(id: string, start: Disk, d: Disk, n: Disk, b: Base, ids: seq<string>, repeat: nat, i: nat,
                   was: map<Key, Place>, have: map<Key, Place>, spent: seq<Key>, now: seq<Key>)
    requires Midway(id, start, d, b, ids, repeat, i, was, spent) && i < |ids| && Key(ids[i], repeat) !in was
    requires Running(id, start, n, have, now) && have.Keys == was.Keys + {Key(ids[i], repeat)}
    requires !b.up && |spent| < b.raisedAfter && now == spent + [Key(ids[i], repeat)]
    ensures Midway(id, start, n, b, ids, repeat, i + 1, have, now)
  {
    SweepOn(id, start, d, n, was, have, spent, now, Key(ids[i], repeat));
    Visit(b.accepted.Keys, was.Keys, have.Keys, ids, repeat, i);
    SofarPays(b.raisedAfter, b.up, b.done, ids, repeat, b.paid, i, was, have, spent, now);
  }

  lemma MidwayStops(id: string, start: Disk, d: Disk, b: Base, ids: seq<string>, repeat: nat, i: nat,
                    was: map<Key, Place>, have: map<Key, Place>, spent: seq<Key>, stopped: Option<Outcome>,
                    now: seq<Key>)
    requires Midway(id, start, d, b, ids, repeat, i, was, spent) && i < |ids| && Key(ids[i], repeat) !in was
    requires have.Keys == was.Keys || have.Keys == was.Keys + {Key(ids[i], repeat)}
    requires stopped.Some?
    requires b.up || |spent| >= b.raisedAfter ==> stopped == Some(Paused) && now == spent
    requires !b.up && |spent| < b.raisedAfter ==> now == spent + [Key(ids[i], repeat)] && stopped != Some(Paused)
    ensures b.accepted.Keys <= have.Keys <= b.accepted.Keys + KeysIn(ids, repeat)
    ensures Spending(b.raisedAfter, b.up, b.paid, DueIn(b.done, ids, repeat, b.paid), stopped, now)
  {
    VisitStopped(b.accepted.Keys, was.Keys, have.Keys, ids, repeat, i);
    SofarStops(b.raisedAfter, b.up, b.done, ids, repeat, b.paid, i, was, spent, stopped, now);
  }

  lemma MidwayEnds(id: string, start: Disk, d: Disk, b: Base, ids: seq<string>, repeat: nat,
                   have: map<Key, Place>, now: seq<Key>)
    requires Midway(id, start, d, b, ids, repeat, |ids|, have, now)
    ensures have.Keys == b.accepted.Keys + KeysIn(ids, repeat) && Books(b.done, have, now)
    ensures Spending(b.raisedAfter, b.up, b.paid, DueIn(b.done, ids, repeat, b.paid), None, now)
  {
    TakeAll(ids);
  }

  /** A sweep after its first `i` repeats. */
  ghost predicate Halfway(id: string, start: Disk, d: Disk, b: Base, scenarios: seq<seq<string>>, i: nat,
                          have: map<Key, Place>, now: seq<Key>) {
    && i <= |scenarios| && Sweeping(id, start, d, have, now)
    && have.Keys == b.accepted.Keys + AllKeys(scenarios[..i]) && Books(b.done, have, now)
    && Spending(b.raisedAfter, b.up, [], Due(b.done, scenarios[..i]), None, now)
  }

  lemma HalfwayNext(id: string, start: Disk, d: Disk, n: Disk, b: Base, scenarios: seq<seq<string>>, i: nat,
                    was: map<Key, Place>, have: map<Key, Place>, spent: seq<Key>, now: seq<Key>)
    requires Halfway(id, start, d, b, scenarios, i, was, spent) && i < |scenarios|
    requires Sweeping(id, start, n, have, now) && Books(b.done, have, now)
    requires have.Keys == was.Keys + KeysIn(scenarios[i], i)
    requires Spending(b.raisedAfter, b.up, spent, DueIn(b.done, scenarios[i], i, spent), None, now)
    ensures Halfway(id, start, n, b, scenarios, i + 1, have, now)
  {
    RepeatDone(b.accepted.Keys, was.Keys, have.Keys, scenarios, i);
    DueRepeat(b.done, scenarios, i);
    SpendingOn(b.raisedAfter, b.up, spent, Due(b.done, scenarios[..i + 1]), None, now);
  }

  lemma HalfwayStops(id: string, start: Disk, d: Disk, b: Base, scenarios: seq<seq<string>>, i: nat,
                     was: map<Key, Place>, have: map<Key, Place>, spent: seq<Key>, stopped: Option<Outcome>,
                     now: seq<Key>)
    requires Halfway(id, start, d, b, scenarios, i, was, spent) && i < |scenarios| && stopped.Some?
    requires have.Keys <= was.Keys + KeysIn(scenarios[i], i)
    requires Spending(b.raisedAfter, b.up, spent, DueIn(b.done, scenarios[i], i, spent), stopped, now)
    ensures have.Keys <= b.accepted.Keys + AllKeys(scenarios)
    ensures Spending(b.raisedAfter, b.up, [], Due(b.done, scenarios), stopped, now)
  {
    RepeatStopped(b.accepted.Keys, was.Keys, have.Keys, scenarios, i);
    DueRepeat(b.done, scenarios, i);
    DueOfRepeats(b.done, scenarios, i + 1);
    SpendingOn(b.raisedAfter, b.up, spent, Due(b.done, scenarios[..i + 1]), stopped, now);
    SpendingStops(b.raisedAfter, b.up, [], Due(b.done, scenarios[..i + 1]), Due(b.done, scenarios), stopped, now);
  }

  lemma DueRepeat(done: set<Key>, scenarios: seq<seq<string>>, i: nat)
    requires i < |scenarios|
    ensures Due(done, scenarios[..i + 1]) == DueIn(done, scenarios[i], i, Due(done, scenarios[..i]))
  {
    TakeNext(scenarios, i);
  }

  lemma RepeatDone(base: set<Key>, was: set<Key>, have: set<Key>, scenarios: seq<seq<string>>, i: nat)
    requires i < |scenarios| && was == base + AllKeys(scenarios[..i]) && have == was + KeysIn(scenarios[i], i)
    ensures have == base + AllKeys(scenarios[..i + 1])
  {
    AllKeysNext(scenarios, i);
  }

  lemma RepeatStopped(base: set<Key>, was: set<Key>, have: set<Key>, scenarios: seq<seq<string>>, i: nat)
    requires i < |scenarios| && was == base + AllKeys(scenarios[..i]) && have <= was + KeysIn(scenarios[i], i)
    ensures have <= base + AllKeys(scenarios)
  {
    AllKeysNext(scenarios, i);
    AllKeysPrefix(scenarios, i + 1);
  }

  predicate Covered(keys: set<Key>, order: seq<Key>) {
    forall key :: key in keys ==> key in order
  }

  /** What any run, however it ended, did to the disk while paying for `paid`. */
  ghost predicate Ran(id: string, start: Disk, paid: seq<Key>, d: Disk) {
    && (Sound(start, id) ==> Sound(d, id))
    && Preserved(start, d)
    && Charged(id, start, d, paid)
  }

  lemma SameAttemptsRan(id: string, start: Disk, d: Disk)
    requires d.root.attempts == start.root.attempts
    ensures Ran(id, start, [], d)
  {
    assert forall key, p :: Accepts(d, id, key, p) <==> Accepts(start, id, key, p);
  }

  lemma RunningEnds(id: string, start: Disk, d: Disk, order: seq<Key>, accepted: map<Key, Place>, have: map<Key, Place>,
                    paid: seq<Key>, keys: set<Key>)
    requires Running(id, start, d, have, paid) && have.Keys <= accepted.Keys + keys
    requires forall key :: key in accepted ==> key in order
    ensures Ran(id, start, paid, d)
    ensures Covered(keys, order) ==> Startable(d, id, order) && !d.markerTmp
  {
    SafeIsSound(id, start, d, have);
    if Covered(keys, order) {
      forall key, p | Accepts(d, id, key, p)
        ensures key in order && d.root.attempts[p].files.calls.Some?
      {
        assert key in have.Keys;
      }
    }
  }

  /** The published rows are complete exactly when every case was done before or swept now. */
  ghost predicate Swept(id: string, start: Disk, d: Disk, order: seq<Key>, keys: set<Key>, rows: seq<Row>) {
    && d.root.output == Some(rows)
    && (Complete(rows, order) <==> forall i :: 0 <= i < |order| ==> Accepted(start, id, order[i]) || order[i] in keys)
  }

  ghost predicate Closed(id: string, start: Disk, d: Disk, order: seq<Key>, keys: set<Key>, rows: seq<Row>) {
    d.attested == Some(d.root) && d.sums == Some(d.root) && Swept(id, start, d, order, keys, rows)
  }

  lemma SweptIsClosed(id: string, start: Disk, d: Disk, order: seq<Key>, accepted: map<Key, Place>, have: map<Key,
                      Place>,
                      keys: set<Key>, rows: seq<Row>)
    requires Exact(d, id, have) && Current(d, have, order, rows)
    requires Fresh(id, start, accepted) && have.Keys == accepted.Keys + keys
    ensures Swept(id, start, d, order, keys, rows)
  {
    RowsComplete(d, id, have, order);
    assert forall key :: key in have <==> key in have.Keys;
    assert forall key :: key in accepted.Keys <==> Accepted(start, id, key);
  }

  /** Writing the attestation pair touches no attempt and no published row. */
  lemma ClosingKeeps(id: string, start: Disk, d: Disk, n: Disk, order: seq<Key>, keys: set<Key>, paid: seq<Key>,
                     rows: seq<Row>)
    requires Ran(id, start, paid, d) && Swept(id, start, d, order, keys, rows)
    requires n == d.(sums := n.sums, attested := n.attested)
    ensures Ran(id, start, paid, n) && Swept(id, start, n, order, keys, rows)
    ensures n.attested == d.attested && d.root.marker.Some? ==> (Startable(n, id, order) <==> Startable(d, id, order))
  {
    assert forall key, p :: Accepts(n, id, key, p) <==> Accepts(d, id, key, p);
  }

  // ----- the usual input: every repeat sweeps the manifest ----------------------------------

  function Repeats(manifest: seq<string>, n: nat): (r: seq<seq<string>>)
    ensures |r| == n
  {
    if n == 0 then [] else Repeats(manifest, n - 1) + [manifest]
  }

  lemma {:induction false} CasesAreKeys(manifest: seq<string>, repeat: nat)
    ensures forall key :: key in Cases(manifest, repeat) <==> key in KeysIn(manifest, repeat)
  {
    if manifest != [] {
      CasesAreKeys(manifest[..|manifest| - 1], repeat);
    }
  }

  /** Sweeping the manifest in every repeat visits its cases and no others. */
  lemma {:induction false} ManifestSwept(manifest: seq<string>, n: nat)
    ensures forall key :: key in Order(manifest, n) <==> key in AllKeys(Repeats(manifest, n))
  {
    if n > 0 {
      ManifestSwept(manifest, n - 1);
      CasesAreKeys(manifest, n - 1);
      assert Repeats(manifest, n)[..n - 1] == Repeats(manifest, n - 1);
    }
  }

  // ----- any number of runs ------------------------------------------------------------------

  /** `disks[i]` is what run `i` found and `bills[i]` what it paid for; any of them may have been killed. */
  ghost predicate History(id: string, disks: seq<Disk>, bills: seq<seq<Key>>) {
    |disks| == |bills| + 1 && forall i :: 0 <= i < |bills| ==> Ran(id, disks[i], bills[i], disks[i + 1])
  }

  /** Nothing an earlier run left is ever rewritten, and no scenario run ever has two usable attempts. */
  lemma {:induction false} EvidenceIsForever(id: string, disks: seq<Disk>, bills: seq<seq<Key>>, i: nat, j: nat)
    requires History(id, disks, bills) && Sound(disks[0], id) && i <= j < |disks|
    ensures Preserved(disks[i], disks[j]) && Sound(disks[j], id)
    decreases j
  {
    if i < j {
      EvidenceIsForever(id, disks, bills, i, j - 1);
    } else if j > 0 {
      EvidenceIsForever(id, disks, bills, j - 1, j - 1);
    }
    if j > 0 {
      assert Ran(id, disks[j - 1], bills[j - 1], disks[j]);
    }
  }

  ghost predicate OnlyAccepts(d: Disk, id: string, key: Key, p: Place) {
    Accepts(d, id, key, p) && forall q :: Accepts(d, id, key, q) ==> q == p
  }

  /**
   * Over any sequence of runs, each killed wherever it may be: once a scenario run has a usable
   * attempt, that attempt stays the accepted one and no later run pays for the scenario again.
   */
  lemma NeverPaidAgain(id: string, disks: seq<Disk>, bills: seq<seq<Key>>, i: nat, j: nat, key: Key, p: Place)
    requires History(id, disks, bills) && Sound(disks[0], id) && i <= j < |bills|
    requires Accepts(disks[i], id, key, p)
    ensures key !in bills[j]
    ensures OnlyAccepts(disks[j + 1], id, key, p)
  {
    EvidenceIsForever(id, disks, bills, i, j);
    EvidenceIsForever(id, disks, bills, i, j + 1);
    assert Accepts(disks[j], id, key, p) && Accepts(disks[j + 1], id, key, p);
    assert Ran(id, disks[j], bills[j], disks[j + 1]);
  }

  // ----- the store -------------------------------------------------------------------------

  class Store {
    const identity: string
    const slot: Key -> nat
    var disk: Disk
    /** How many more writes this process makes before it is killed. */
    var budget: nat
    /** Any worker may raise it; nothing here takes it down. */
    var pauseFile: bool
    /** How many scenario runs this process has paid for when the others raise it, if they ever do. */
    const raisedAfter: nat
    /** The calls a scenario run makes when this process plays it, and the row it comes back with. */
    const calls: Key -> seq<string>
    const result: Key -> Row

    /** One durable write: all of it or, when the process is killed first, none of it. */
    method Commit(next: Disk) returns (alive: bool)
      modifies `disk, `budget
      ensures alive <==> old(budget) > 0
      ensures disk == if alive then next else old(disk)
      ensures budget == if alive then old(budget) - 1 else 0
    {
      alive := budget > 0;
      if alive {
        disk, budget := next, budget - 1;
      }
    }

    method Draft(p: Place, a: Attempt, ghost start: Disk, ghost accepted: map<Key, Place>, ghost paid: seq<Key>)
      returns (alive: bool)
      requires Running(identity, start, disk, accepted, paid) && p !in start.root.attempts
      requires a.attested.None? && (p in disk.root.attempts ==> disk.root.attempts[p].attested.None?)
      requires a.files.started.Some? ==> a.files.started.value.key in paid
      modifies `disk, `budget
      ensures Running(identity, start, disk, accepted, paid)
      ensures alive <==> old(budget) > 0
      ensures disk == if alive then With(old(disk), p, a) else old(disk)
      ensures budget == if alive then old(budget) - 1 else 0
    {
      DraftSafe(identity, start, disk, accepted, p, a);
      WriteCharged(identity, start, disk, paid, p, a);
      alive := Commit(With(disk, p, a));
    }

    /** A fresh directory, the first free one of its slot, and the note of what was started in it. */
    method NextAttempt(key: Key, ghost start: Disk, ghost accepted: map<Key, Place>, ghost paid: seq<Key>)
      returns (alive: bool, p: Place)
      requires Running(identity, start, disk, accepted, paid) && key in paid
      modifies `disk, `budget
      ensures Running(identity, start, disk, accepted, paid) && p !in start.root.attempts
      ensures p.slot == slot(key) && p !in old(disk).root.attempts
      ensures forall i: nat :: i < p.index ==> Place(slot(key), i) in old(disk).root.attempts
      ensures alive <==> old(budget) >= 2
      ensures budget == if alive then old(budget) - 2 else 0
      ensures disk == if old(budget) == 0 then old(disk) else With(old(disk), p, MadeFor(identity, key, old(budget)))
    {
      var index := 0;
      ghost var left := disk.root.attempts.Keys;
      while Place(slot(key), index) in disk.root.attempts
        invariant forall i :: i >= index && Place(slot(key), i) in disk.root.attempts ==> Place(slot(key), i) in left
        invariant forall i: nat :: i < index ==> Place(slot(key), i) in disk.root.attempts
        invariant disk == old(disk)
        decreases |left|
      {
        left := left - {Place(slot(key), index)};
        index := index + 1;
      }
      p := Place(slot(key), index);
      alive := Draft(p, Attempt(Files(None, None, None, None), None, None), start, accepted, paid);
      if alive {
        Rewritten(old(disk), p, MadeFor(identity, key, 1), MadeFor(identity, key, 2));
        alive := Draft(p, Attempt(Files(Some(Started(identity, key)), None, None, None), None, None), start, accepted,
                       paid);
      }
    }

    /** The paid part: calls are logged as they are made, then the row is written. */
    method Execute(p: Place, key: Key, ghost start: Disk, ghost accepted: map<Key, Place>, ghost paid: seq<Key>)
      returns (alive: bool, row: Row)
      requires Running(identity, start, disk, accepted, paid) && p !in start.root.attempts && key in paid
      requires p in disk.root.attempts
      requires disk.root.attempts[p] == Attempt(Files(Some(Started(identity, key)), None, None, None), None, None)
      modifies `disk, `budget
      ensures Running(identity, start, disk, accepted, paid)
      ensures row == result(key).(key := key)
      ensures alive <==> old(budget) >= |calls(key)| + 4
      ensures budget == if alive then old(budget) - |calls(key)| - 4 else 0
      ensures disk == With(old(disk), p,
                           Attempt(Played(old(disk).root.attempts[p].files, calls(key), row, old(budget)), None, None))
    {
      row := result(key).(key := key);
      ghost var before, files := disk, disk.root.attempts[p].files;
      alive := WriteLog(p, key, start, accepted, paid);
      if alive {
        var whole := disk.root.attempts[p].files;
        Rewritten(before, p, Attempt(whole, None, None), Attempt(Written(whole, row, budget), None, None));
        alive := WriteRow(p, whole, row, start, accepted, paid);
      }
    }

    method WriteLog(p: Place, key: Key, ghost start: Disk, ghost accepted: map<Key, Place>, ghost paid: seq<Key>)
      returns (alive: bool)
      requires Running(identity, start, disk, accepted, paid) && p !in start.root.attempts && key in paid
      requires p in disk.root.attempts
      requires disk.root.attempts[p] == Attempt(Files(Some(Started(identity, key)), None, None, None), None, None)
      modifies `disk, `budget
      ensures Running(identity, start, disk, accepted, paid)
      ensures alive <==> old(budget) > |calls(key)|
      ensures budget == if alive then old(budget) - |calls(key)| - 1 else 0
      ensures disk == With(old(disk), p,
                           Attempt(Logged(old(disk).root.attempts[p].files, calls(key), old(budget)), None, None))
    {
      ghost var before, log, files0 := disk, calls(key), disk.root.attempts[p].files;
      var files := disk.root.attempts[p].files.(calls := Some([]));
      Rewritten(before, p, Attempt(files0, None, None), Attempt(files0, None, None));
      alive := Draft(p, Attempt(files, None, None), start, accepted, paid);
      var made := 0;
      while alive && made < |calls(key)|
        invariant made <= |log| && budget <= old(budget)
        invariant Running(identity, start, disk, accepted, paid)
        invariant files == files0.(calls := Some(log[..made]))
        invariant disk == With(before, p, Attempt(Logged(files0, log, old(budget) - budget), None, None))
        invariant if alive then old(budget) - budget == made + 1 else budget == 0 && old(budget) <= made
      {
        LoggedNext(files0, log, made);
        files := files.(calls := Some(files.calls.value + [calls(key)[made]]));
        Rewritten(before, p, disk.root.attempts[p], Attempt(files, None, None));
        alive := Draft(p, Attempt(files, None, None), start, accepted, paid);
        made := made + 1;
      }
    }

    /** The result file: made, begun, whole. */
    method WriteRow(p: Place, files: Files, row: Row, ghost start: Disk, ghost accepted: map<Key, Place>,
                    ghost paid: seq<Key>)
      returns (alive: bool)
      requires Running(identity, start, disk, accepted, paid) && p !in start.root.attempts
      requires p in disk.root.attempts && disk.root.attempts[p] == Attempt(files, None, None)
      requires files.started == Some(Started(identity, row.key)) && row.key in paid
      modifies `disk, `budget
      ensures Running(identity, start, disk, accepted, paid)
      ensures alive <==> old(budget) >= 3
      ensures budget == if alive then old(budget) - 3 else 0
      ensures disk == With(old(disk), p, Attempt(Written(files, row, old(budget)), None, None))
    {
      ghost var before := disk;
      Rewritten(before, p, Attempt(files, None, None), Attempt(files, None, None));
      alive := Draft(p, Attempt(files.(output := Some(Lines([], false))), None, None), start, accepted, paid);
      if alive {
        Rewritten(before, p, disk.root.attempts[p], Attempt(Written(files, row, 2), None, None));
        alive := Draft(p, Attempt(files.(output := Some(Lines([row], true))), None, None), start, accepted, paid);
      }
      if alive {
        Rewritten(before, p, disk.root.attempts[p], Attempt(Written(files, row, 3), None, None));
        alive := Draft(p, Attempt(files.(output := Some(Lines([row], false))), None, None), start, accepted, paid);
      }
    }

    /** Record, checksums, attestation, in that order; only the last write makes the attempt count. */
    method FinishAttempt(p: Place, row: Row, ghost start: Disk, ghost accepted: map<Key, Place>, ghost paid: seq<Key>)
      returns (alive: bool, usable: bool)
      requires Running(identity, start, disk, accepted, paid) && p !in start.root.attempts
      requires row.key in paid && row.key !in accepted
      requires p in disk.root.attempts && Finished(disk.root.attempts[p], identity, row)
      modifies `disk, `budget
      ensures usable <==> Clean(row)
      ensures Running(identity, start, disk, if alive && usable then accepted[row.key := p] else accepted, paid)
      ensures alive ==> p in disk.root.attempts
                        && Judge(disk.root.attempts[p], identity) == if usable then Usable(row.key) else Unusable
      ensures alive <==> old(budget) >= 3
      ensures budget == if alive then old(budget) - 3 else 0
      ensures old(budget) == 0 ==> disk == old(disk)
      ensures old(budget) > 0 ==>
                disk == With(old(disk), p, Recorded(identity, old(disk).root.attempts[p].files, row, old(budget)))
    {
      usable := !InfrastructureFailure(row);
      ghost var before, made := disk, disk.root.attempts[p].files;
      var files := disk.root.attempts[p].files.(record := Some(Record(identity, row.key, usable)));
      alive := Certify(p, files, start, accepted, paid);
      if alive {
        var whole := Attempt(files, Some(files), Some(files));
        Rewritten(before, p, Recorded(identity, made, row, 2), whole);
        AttestSafe(identity, start, disk, accepted, p, whole);
        WriteCharged(identity, start, disk, paid, p, whole);
        alive := Commit(With(disk, p, whole));
      }
    }

    /** The record of the attempt and the checksums of its files. */
    method Certify(p: Place, files: Files, ghost start: Disk, ghost accepted: map<Key, Place>, ghost paid: seq<Key>)
      returns (alive: bool)
      requires Running(identity, start, disk, accepted, paid) && p !in start.root.attempts
      requires p in disk.root.attempts
      requires disk.root.attempts[p] == Attempt(files.(record := None), None, None)
      requires files.started.Some? && files.started.value.key in paid && files.record.Some?
      modifies `disk, `budget
      ensures Running(identity, start, disk, accepted, paid)
      ensures alive <==> old(budget) >= 2
      ensures budget == if alive then old(budget) - 2 else 0
      ensures old(budget) == 0 ==> disk == old(disk)
      ensures old(budget) > 0 ==>
                disk == With(old(disk), p, Attempt(files, if old(budget) == 1 then None else Some(files), None))
    {
      ghost var before := disk;
      alive := Draft(p, Attempt(files, None, None), start, accepted, paid);
      if alive {
        Rewritten(before, p, Attempt(files, None, None), Attempt(files, Some(files), None));
        alive := Draft(p, Attempt(files, Some(files), None), start, accepted, paid);
      }
    }

    /** The usable attempt of every scenario run, or refusal if any attested attempt does not check out. */
    method Completed() returns (r: Option<map<Key, Place>>)
      ensures r.Some? <==> Recognised(disk, identity) && Sound(disk, identity)
      ensures r.Some? ==> Exact(disk, identity, r.value)
    {
      if !Recognised(disk, identity) {
        return None;
      }
      var accepted: map<Key, Place> := map[];
      var todo := disk.root.attempts.Keys;
      while todo != {}
        invariant todo <= disk.root.attempts.Keys
        invariant Scanned(disk, identity, disk.root.attempts.Keys - todo, accepted)
        decreases |todo|
      {
        var p: Place :| p in todo;
        todo := todo - {p};
        match Judge(disk.root.attempts[p], identity)
        case Broken => return None;
        case Usable(key) =>
          if key in accepted {
            assert Accepts(disk, identity, key, accepted[key]) && Accepts(disk, identity, key, p);
            return None;
          }
          accepted := accepted[key := p];
        case _ =>
      }
      return Some(accepted);
    }

    /** The rows and calls of the accepted attempts in manifest order, unless a call log is missing. */
    method Collect(accepted: map<Key, Place>, order: seq<Key>) returns (r: Option<(seq<Row>, seq<string>)>)
      requires Exact(disk, identity, accepted) && accepted.Values <= disk.root.attempts.Keys
      ensures r.None? ==> exists key :: key in accepted && disk.root.attempts[accepted[key]].files.calls.None?
      ensures r.Some? ==> Readable(disk, accepted, order, |order|)
                          && r.value == (Rows(disk.root.attempts, accepted, order),
                                         CallLog(disk.root.attempts, accepted, order))
    {
      var rows: seq<Row>, calls: seq<string> := [], [];
      for i := 0 to |order|
        invariant rows == Rows(disk.root.attempts, accepted, order[..i])
        invariant calls == CallLog(disk.root.attempts, accepted, order[..i])
        invariant Readable(disk, accepted, order, i)
      {
        CollectNext(disk.root.attempts, accepted, order, i);
        if order[i] in accepted {
          AcceptedRow(disk, identity, accepted, order[i]);
          var a := disk.root.attempts[accepted[order[i]]];
          if a.files.calls.None? {
            return None;
          }
          rows := rows + a.files.output.value.rows;
          calls := calls + a.files.calls.value;
        }
      }
      TakeAll(order);
      return Some((rows, calls));
    }

    /** Replace the three published files one by one. */
    method Publish(accepted: map<Key, Place>, order: seq<Key>) returns (r: Publication)
      requires Exact(disk, identity, accepted) && accepted.Values <= disk.root.attempts.Keys
      modifies `disk, `budget
      ensures SameAttempts(old(disk), disk)
      ensures r.Unreadable? ==> disk == old(disk)
      ensures r.Unreadable? ==> exists key :: key in accepted && disk.root.attempts[accepted[key]].files.calls.None?
      ensures r.Dead? ==> budget == 0
      ensures !r.Unreadable? ==> Readable(disk, accepted, order, |order|)
      ensures r.Published? ==>
                && r.rows == Rows(disk.root.attempts, accepted, order)
                && disk.root.output == Some(r.rows)
                && disk.root.calls == Some(CallLog(disk.root.attempts, accepted, order))
                && disk.root.recovery == Some(Recovery(|accepted|, disk.root.attempts.Keys - accepted.Values))
      // a process killed on the way leaves the output of this run beside older calls, or both beside an older note
      ensures r.Published? ==> old(budget) >= 3
      ensures r.Dead? ==>
                && old(budget) <= 2 && disk.root.recovery == old(disk).root.recovery
                && (old(budget) == 0 ==> disk == old(disk))
                && (old(budget) >= 1 ==> disk.root.output == Some(Rows(disk.root.attempts, accepted, order)))
                && (old(budget) == 1 ==> disk.root.calls == old(disk).root.calls)
                && (old(budget) == 2 ==> disk.root.calls == Some(CallLog(disk.root.attempts, accepted, order)))
    {
      var collected := Collect(accepted, order);
      if collected.None? {
        return Unreadable;
      }
      var (rows, calls) := collected.value;
      var alive := Commit(disk.(root := disk.root.(output := Some(rows))));
      if alive {
        alive := Commit(disk.(root := disk.root.(calls := Some(calls))));
      }
      if alive {
        var recovery := Recovery(|accepted|, disk.root.attempts.Keys - accepted.Values);
        alive := Commit(disk.(root := disk.root.(recovery := Some(recovery))));
      }
      return if alive then Published(rows) else Dead;
    }

    /** Lay down the marker if there is none; a kill inside this one write cannot be resumed. */
    method Prepare() returns (r: Preparation)
      modifies `disk, `budget
      ensures r.Refuse? <==> !Recognised(old(disk), identity) || old(disk).attested.Some?
      ensures disk.root == old(disk).root.(marker := disk.root.marker)
      ensures r.Refuse? ==> disk == old(disk)
      ensures r.Interrupted? ==> budget == 0 && Empty(old(disk)) && disk == old(disk).(markerTmp := old(budget) == 1)
      ensures r.Prepared? ==> Ready(disk, identity) && (Empty(old(disk)) || disk == old(disk))
    {
      if !Recognised(disk, identity) || disk.attested.Some? {
        return Refuse;
      }
      if disk.root.marker.None? {
        var alive := Commit(disk.(markerTmp := true));
        if alive {
          alive := Commit(disk.(markerTmp := false, root := disk.root.(marker := Some(identity))));
        }
        if !alive {
          return Interrupted;
        }
      }
      return Prepared;
    }

    /** Prepare, read what is already done, and publish it. */
    method Begin(order: seq<Key>) returns (o: Opening)
      modifies `disk, `budget
      ensures o.Rejected? <==> !Startable(old(disk), identity, order)
      ensures o.Rejected? ==> disk == old(disk)
      ensures o.Cut? ==> budget == 0 && disk.root.attempts == old(disk).root.attempts
                         && (Startable(disk, identity, order) <==> !disk.markerTmp)
      ensures o.Opened? ==> Underway(identity, old(disk), disk, order, o.accepted, o.rows)
    {
      var prepared := Prepare();
      if prepared.Refuse? {
        return Rejected;
      }
      if prepared.Interrupted? {
        EmptyIsStartable(old(disk), identity, order);
        assert disk.markerTmp ==> !Recognised(disk, identity);
        return Cut;
      }
      MarkingKeeps(identity, old(disk), disk, order);
      var found := Completed();
      if found.None? {
        return Rejected;
      }
      var accepted := found.value;
      AcceptedPlaces(disk, identity, accepted);
      if exists key :: key in accepted && key !in order {
        var key :| key in accepted && key !in order;
        assert Accepts(disk, identity, key, accepted[key]);
        return Rejected;
      }
      ghost var before := disk;
      var published := Publish(accepted, order);
      if published.Unreadable? {
        var key :| key in accepted && disk.root.attempts[accepted[key]].files.calls.None?;
        assert Accepts(disk, identity, key, accepted[key]);
        return Rejected;
      }
      OpenedIsRunning(identity, old(disk), before, disk, order, accepted);
      return if published.Dead? then Cut else Opened(accepted, published.rows);
    }

    /** Publish again after an attempt was accepted; every accepted call log is there by now. */
    method Republish(order: seq<Key>, have: map<Key, Place>, ghost paid: seq<Key>, ghost start: Disk)
      returns (alive: bool, rows: seq<Row>)
      requires Running(identity, start, disk, have, paid)
      modifies `disk, `budget
      ensures Running(identity, start, disk, have, paid)
      ensures alive ==> Current(disk, have, order, rows)
      ensures !alive ==> budget == 0
    {
      AcceptedPlaces(disk, identity, have);
      SafeIsReadable(identity, start, disk, have);
      ghost var before := disk;
      var published := Publish(have, order);
      PublishingKeeps(identity, start, before, disk, have, paid);
      return published.Published?, if published.Published? then published.rows else [];
    }

    /** One paid attempt, from its directory to its attestation. */
    method Attempted(key: Key, ghost start: Disk, ghost accepted: map<Key, Place>, ghost paid: seq<Key>)
      returns (alive: bool, p: Place, usable: bool)
      requires Running(identity, start, disk, accepted, paid) && key in paid && key !in accepted
      modifies `disk, `budget
      ensures Running(identity, start, disk, if alive && usable then accepted[key := p] else accepted, paid)
      ensures alive && !usable ==> p in disk.root.attempts && Judge(disk.root.attempts[p], identity) == Unusable
      ensures alive ==> (usable <==> Clean(result(key)))
      ensures !alive ==> budget == 0
    {
      usable := false;
      alive, p := NextAttempt(key, start, accepted, paid);
      if alive {
        var row;
        alive, row := Execute(p, key, start, accepted, paid);
        if alive {
          alive, usable := FinishAttempt(p, row, start, accepted, paid);
        }
      }
    }

    /** One scenario run that is not done yet: wait at the boundary, run it, record it, publish. */
    method RunOne(key: Key, order: seq<Key>, accepted: map<Key, Place>, paid: seq<Key>, ghost start: Disk)
      returns (stopped: Option<Outcome>, have: map<Key, Place>, now: seq<Key>, rows: seq<Row>)
      requires Running(identity, start, disk, accepted, paid)
      requires key !in accepted && key !in paid && !Accepted(start, identity, key)
      modifies this
      ensures Running(identity, start, disk, have, now)
      ensures have.Keys == accepted.Keys || have.Keys == accepted.Keys + {key}
      ensures stopped.None? ==> have.Keys == accepted.Keys + {key} && Current(disk, have, order, rows)
      ensures stopped.Some? ==> Halts(stopped.value, disk, identity, budget, pauseFile)
      // a raised pause file stops the run before anything is spent; otherwise the scenario is paid for
      ensures old(pauseFile) || |paid| >= raisedAfter ==>
                stopped == Some(Paused) && now == paid && have == accepted && disk == old(disk) && budget == old(budget)
      ensures !old(pauseFile) && |paid| < raisedAfter ==> now == paid + [key] && stopped != Some(Paused)
      ensures stopped == Some(Drained) ==> !Clean(result(key))
      ensures stopped.None? ==> Clean(result(key))
      ensures stopped.None? ==> pauseFile == old(pauseFile)
    {
      have, now, rows := accepted, paid, [];
      if |paid| >= raisedAfter {
        pauseFile := true;
      }
      if pauseFile {
        return Some(Paused), have, now, rows;
      }
      now := paid + [key];
      ChargeOne(identity, start, disk, paid, key);
      var alive, p, usable := Attempted(key, start, accepted, now);
      if !alive {
        return Some(Killed), have, now, rows;
      }
      if !usable {
        pauseFile := true;
        return Some(Drained), have, now, rows;
      }
      have := accepted[key := p];
      alive, rows := Republish(order, have, now, start);
      return if alive then None else Some(Killed), have, now, rows;
    }

    /** One repeat of the sweep. */
    method RunRepeat(ids: seq<string>, repeat: nat, order: seq<Key>, accepted: map<Key, Place>, paid: seq<Key>,
                     rows0: seq<Row>, ghost start: Disk, ghost done: set<Key>)
      returns (stopped: Option<Outcome>, have: map<Key, Place>, now: seq<Key>, rows: seq<Row>)
      requires Sweeping(identity, start, disk, accepted, paid) && Current(disk, accepted, order, rows0)
      requires Books(done, accepted, paid)
      modifies this
      ensures Running(identity, start, disk, have, now)
      ensures accepted.Keys <= have.Keys <= accepted.Keys + KeysIn(ids, repeat)
      ensures stopped.None? ==>
                && Sweeping(identity, start, disk, have, now) && Current(disk, have, order, rows)
                && have.Keys == accepted.Keys + KeysIn(ids, repeat)
      ensures stopped.Some? ==> Halts(stopped.value, disk, identity, budget, pauseFile)
      ensures Spending(raisedAfter, old(pauseFile), paid, DueIn(done, ids, repeat, paid), stopped, now)
      ensures stopped.None? ==> Books(done, have, now) && pauseFile == old(pauseFile)
    {
      stopped, have, now, rows := None, accepted, paid, rows0;
      ghost var b := Base(done, accepted, paid, raisedAfter, pauseFile);
      for i := 0 to |ids|
        invariant stopped.None? && pauseFile == b.up && Current(disk, have, order, rows)
        invariant Midway(identity, start, disk, b, ids, repeat, i, have, now)
      {
        var key := Key(ids[i], repeat);
        ghost var before, was, spent := disk, have, now;
        if key in have {
          MidwaySkips(identity, start, disk, b, ids, repeat, i, have, now);
        } else {
          stopped, have, now, rows := RunOne(key, order, have, now, start);
          if stopped.Some? {
            MidwayStops(identity, start, before, b, ids, repeat, i, was, have, spent, stopped, now);
            return;
          }
          MidwayPays(identity, start, before, disk, b, ids, repeat, i, was, have, spent, now);
        }
      }
      MidwayEnds(identity, start, disk, b, ids, repeat, have, now);
    }

    method Sweep(scenarios: seq<seq<string>>, order: seq<Key>, accepted: map<Key, Place>, rows0: seq<Row>,
                 ghost start: Disk)
      returns (stopped: Option<Outcome>, have: map<Key, Place>, paid: seq<Key>, rows: seq<Row>)
      requires Underway(identity, start, disk, order, accepted, rows0)
      modifies this
      ensures Spending(raisedAfter, old(pauseFile), [], Due(accepted.Keys, scenarios), stopped, paid)
      ensures Running(identity, start, disk, have, paid)
      ensures have.Keys <= accepted.Keys + AllKeys(scenarios)
      ensures stopped.None? ==> have.Keys == accepted.Keys + AllKeys(scenarios) && Current(disk, have, order, rows)
      ensures stopped.Some? ==> Halts(stopped.value, disk, identity, budget, pauseFile)
    {
      stopped, have, paid, rows := None, accepted, [], rows0;
      ghost var b := Base(accepted.Keys, accepted, [], raisedAfter, pauseFile);
      for repeat := 0 to |scenarios|
        invariant stopped.None? && pauseFile == b.up && Current(disk, have, order, rows)
        invariant Halfway(identity, start, disk, b, scenarios, repeat, have, paid)
      {
        ghost var before, was, spent := disk, have, paid;
        stopped, have, paid, rows := RunRepeat(scenarios[repeat], repeat, order, have, paid, rows, start, b.done);
        if stopped.Some? {
          HalfwayStops(identity, start, before, b, scenarios, repeat, was, have, spent, stopped, paid);
          return;
        }
        HalfwayNext(identity, start, before, disk, b, scenarios, repeat, was, have, spent, paid);
      }
      TakeAll(scenarios);
    }

    /** The capability's own attestation pair, written last. */
    method Close(order: seq<Key>, have: map<Key, Place>, rows: seq<Row>, ghost start: Disk, ghost paid: seq<Key>)
      returns (alive: bool)
      requires Running(identity, start, disk, have, paid) && Current(disk, have, order, rows)
      modifies `disk, `budget
      ensures disk == old(disk).(sums := disk.sums, attested := disk.attested)
      ensures alive ==> disk.attested == Some(disk.root) && disk.sums == Some(disk.root)
      ensures !alive ==> budget == 0 && disk.attested == old(disk).attested
                         && disk.sums == if old(budget) == 1 then Some(disk.root) else old(disk).sums
    {
      alive := Commit(disk.(sums := Some(disk.root)));
      if alive {
        alive := Commit(disk.(attested := Some(disk.root)));
      }
    }

    /**
     * A whole run. However it ends, what was there is untouched; it refuses exactly when the
     * capability does not check out; and a run cut short leaves one that can be started again,
     * unless the cut was inside the very first write of the marker.
     */
    method RunCheckpointed(manifest: seq<string>, scenarios: seq<seq<string>>) returns (outcome: Outcome,
                                                                                        paid: seq<Key>)
      modifies this
      ensures Ran(identity, old(disk), paid, disk)
      ensures outcome.Refused? <==> !Startable(old(disk), identity, Order(manifest, |scenarios|))
      ensures outcome.Refused? ==> disk == old(disk) && paid == []
      // what it pays for: the first of what is due, nothing once the pause file is up, all of it when done
      ensures paid <= Due(DoneKeys(old(disk), identity), scenarios)
      ensures paid != [] ==> !old(pauseFile) && |paid| <= raisedAfter
      ensures outcome.Paused? ==>
                && (old(pauseFile) || |paid| >= raisedAfter)
                && |paid| < |Due(DoneKeys(old(disk), identity), scenarios)|
      ensures outcome.Done? ==> paid == Due(DoneKeys(old(disk), identity), scenarios)
      ensures old(pauseFile) && outcome.Done? ==>
                forall key :: key in AllKeys(scenarios) ==> Accepted(old(disk), identity, key)
      ensures outcome.Done? || outcome.Refused? || Halts(outcome, disk, identity, budget, pauseFile)
      ensures !outcome.Done? && !outcome.Refused? && Covered(AllKeys(scenarios), Order(manifest, |scenarios|)) ==>
                (Startable(disk, identity, Order(manifest, |scenarios|)) <==> !disk.markerTmp)
      ensures outcome.Done? ==>
                Closed(identity, old(disk), disk, Order(manifest, |scenarios|), AllKeys(scenarios), outcome.rows)
    {
      var order := Order(manifest, |scenarios|);
      ghost var start, keys := disk, AllKeys(scenarios);
      var opening := Begin(order);
      match opening
      case Rejected =>
        SameAttemptsRan(identity, start, disk);
        return Refused, [];
      case Cut =>
        SameAttemptsRan(identity, start, disk);
        return Killed, [];
      case Opened(accepted, rows0) =>
        var stopped, have, rows;
        stopped, have, paid, rows := Sweep(scenarios, order, accepted, rows0, start);
        FreshIsDone(identity, start, accepted);
        RunningEnds(identity, start, disk, order, accepted, have, paid, keys);
        if stopped.Some? {
          return stopped.value, paid;
        }
        SweptIsClosed(identity, start, disk, order, accepted, have, keys, rows);
        if paid == [] {
          NothingDue(start, identity, scenarios);
        }
        ghost var before := disk;
        var alive := Close(order, have, rows, start, paid);
        ClosingKeeps(identity, start, before, disk, order, keys, paid, rows);
        return if alive then Done(rows) else Killed, paid;
    }
  }
}
