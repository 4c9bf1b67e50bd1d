/**
 * The property-value ledger of one event stream. An update compares, emits and records; the sink may
 * call back into the runtime while it emits, so updates nest, and a nested one runs in the window
 * where its encloser's row is in the log but not yet in the ledger.
 */
module Ledger {
  import opened Options
  import opened Sequences

  type Key = (string, string)

  /**
   * One observed property and what happens while its row is being emitted: whether comparing it
   * with the carried value works at all, whether the sink takes the row, and the updates its callback
   * makes. A sink that takes a row commits it first.
   */
  datatype Update<V> = Update(key: Key, value: V, comparable: bool, delivered: bool, nested: seq<Update<V>>)

  datatype Row<V> = Full(key: Key, value: V) | Marker(key: Key)

  /** A committed row together with the value that was observed when it was emitted. */
  datatype Entry<V> = Entry(row: Row<V>, observed: V)

  datatype State<V> = State(
    values: map<Key, V>,
    writers: map<Key, nat>,
    open: seq<nat>,
    updates: nat,
    log: seq<Entry<V>>)

  // ----- the runtime's steps ---------------------------------------------------------------

  function Enter<V>(s: State<V>): State<V> {
    s.(updates := s.updates + 1, open := s.open + [s.updates + 1])
  }

  function Leave<V>(s: State<V>): State<V>
    requires s.open != []
  {
    s.(open := s.open[..|s.open| - 1])
  }

  /** What the ledger offers for comparison: nothing inside another update's emission. */
  function Carried<V>(s: State<V>, key: Key): Option<V> {
    if |s.open| > 1 then None
    else if key in s.values then Some(s.values[key])
    else None
  }

  function Emit<V>(s: State<V>, e: Entry<V>, delivered: bool): State<V> {
    if delivered then s.(log := s.log + [e]) else s
  }

  function Record<V>(s: State<V>, key: Key, value: V): State<V> {
    if s.open == [] then s.(values := s.values[key := value])
    else
      var mine := s.open[|s.open| - 1];
      if key in s.writers && s.writers[key] > mine then s.(values := s.values - {key})
      else s.(values := s.values[key := value], writers := s.writers[key := mine])
  }

  ghost predicate Unchanged<V>(s: State<V>, u: Update<V>) {
    u.comparable && Carried(s, u.key) == Some(u.value)
  }

  ghost function EntryFor<V>(s: State<V>, u: Update<V>): Entry<V> {
    Entry(if Unchanged(s, u) then Marker(u.key) else Full(u.key, u.value), u.value)
  }

  /** Compare, emit (with everything the sink calls back), record. */
  ghost function Apply<V>(s: State<V>, u: Update<V>): (r: State<V>)
    ensures r.open == s.open
    decreases u, 0
  {
    var entered := Enter(s);
    var emitted := ApplyAll(Emit(entered, EntryFor(entered, u), u.delivered), u.nested);
    var recorded := if u.delivered && !Unchanged(entered, u) then Record(emitted, u.key, u.value) else emitted;
    assert recorded.open[..|s.open|] == s.open;
    Leave(recorded)
  }

  ghost function ApplyAll<V>(s: State<V>, us: seq<Update<V>>): (r: State<V>)
    ensures r.open == s.open
    decreases us, 0
  {
    if us == [] then s else Apply(ApplyAll(s, us[..|us| - 1]), us[|us| - 1])
  }

  // ----- the reader ------------------------------------------------------------------------

  /** The value a reader carries for `key` after walking the log: the last one sent in full. */
  function LastFull<V>(log: seq<Entry<V>>, key: Key): Option<V> {
    if log == [] then None
    else
      var row := log[|log| - 1].row;
      if row.Full? && row.key == key then Some(row.value) else LastFull(log[..|log| - 1], key)
  }

  /** What the reader takes row `i` to say. */
  function ReadRow<V>(log: seq<Entry<V>>, i: nat): Option<V>
    requires i < |log|
  {
    match log[i].row
    case Full(_, value) => Some(value)
    case Marker(key) => LastFull(log[..i], key)
  }

  /** The reader recovers, at every row, exactly the value that was observed. */
  ghost predicate Lossless<V>(log: seq<Entry<V>>) {
    forall i :: 0 <= i < |log| ==> ReadRow(log, i) == Some(log[i].observed)
  }

  lemma LosslessSnoc<V>(log: seq<Entry<V>>, e: Entry<V>)
    requires Lossless(log)
    requires e.row.Full? ==> e.row.value == e.observed
    requires e.row.Marker? ==> LastFull(log, e.row.key) == Some(e.observed)
    ensures Lossless(log + [e])
  {
    var r := log + [e];
    forall i | 0 <= i < |r|
      ensures ReadRow(r, i) == Some(r[i].observed)
    {
      assert r[..i] == log[..i];
      if i < |log| {
        assert r[i] == log[i];
      } else {
        TakeAll(log);
      }
    }
  }

  lemma LastFullSnoc<V>(log: seq<Entry<V>>, e: Entry<V>, key: Key)
    ensures LastFull(log + [e], key) ==
            if e.row.Full? && e.row.key == key then Some(e.row.value) else LastFull(log, key)
  {
    Snoc(log, e);
  }

  // ----- the invariant ---------------------------------------------------------------------

  /** The ledger tells the truth about every key except the ones whose row is not recorded yet. */
  ghost predicate Truthful<V(!new)>(s: State<V>, pending: set<Key>) {
    forall k :: k in s.values && k !in pending ==> LastFull(s.log, k) == Some(s.values[k])
  }

  ghost predicate Generations<V(!new)>(s: State<V>) {
    && (forall k :: k in s.writers ==> s.writers[k] <= s.updates)
    && (forall i :: 0 <= i < |s.open| ==> s.open[i] <= s.updates)
  }

  /** `r` came from `s` by nested updates: a key whose last full row moved has a later writer. */
  ghost predicate Decides<V(!new)>(s: State<V>, r: State<V>) {
    && s.updates <= r.updates
    && (forall k :: k in s.writers ==> k in r.writers && s.writers[k] <= r.writers[k])
    && (forall k :: LastFull(r.log, k) != LastFull(s.log, k) ==> k in r.writers && r.writers[k] > s.updates)
  }

  lemma DecidesTransitive<V(!new)>(a: State<V>, b: State<V>, c: State<V>)
    requires Decides(a, b) && Decides(b, c)
    ensures Decides(a, c)
  {
  }

  /** Recording after the sink's callback: dropped exactly when a nested update decided the key. */
  lemma RecordStep<V(!new)>(before: State<V>, s: State<V>, key: Key, value: V, mine: nat, pending: set<Key>)
    requires s.open != [] && s.open[|s.open| - 1] == mine && mine <= before.updates
    requires Generations(s) && Truthful(s, pending + {key})
    requires LastFull(before.log, key) == Some(value)
    requires Decides(before, s)
    ensures Truthful(Record(s, key, value), pending) && Generations(Record(s, key, value))
    ensures var r := Record(s, key, value);
            r.log == s.log && r.updates == s.updates && r.open == s.open
            && key in r.writers && r.writers[key] >= mine
            && (forall k :: k in s.writers ==> k in r.writers && (k != key ==> r.writers[k] == s.writers[k]))
  {
  }

  lemma EmitStep<V(!new)>(s: State<V>, u: Update<V>, pending: set<Key>)
    requires Generations(s) && Truthful(s, pending) && Lossless(s.log)
    requires s.open == [] ==> pending == {}
    ensures var entered := Enter(s);
            var start := Emit(entered, EntryFor(entered, u), u.delivered);
            var sent := u.delivered && !Unchanged(entered, u);
            && Generations(start) && Lossless(start.log)
            && Truthful(start, if sent then pending + {u.key} else pending)
            && (sent ==> LastFull(start.log, u.key) == Some(u.value))
            && (forall k :: k != u.key || !sent ==> LastFull(start.log, k) == LastFull(s.log, k))
  {
    var entered := Enter(s);
    var e := EntryFor(entered, u);
    if u.delivered {
      LosslessSnoc(s.log, e);
      forall k
        ensures LastFull(s.log + [e], k) ==
                if e.row.Full? && e.row.key == k then Some(e.row.value) else LastFull(s.log, k)
      {
        LastFullSnoc(s.log, e, k);
      }
    }
  }

  /** The end of an update, once everything its emission re-entered has kept the ledger. */
  lemma CloseUpdate<V(!new)>(s: State<V>, u: Update<V>, pending: set<Key>, start: State<V>, emitted: State<V>)
    requires Generations(s) && Truthful(s, pending) && Lossless(s.log)
    requires s.open == [] ==> pending == {}
    requires start == Emit(Enter(s), EntryFor(Enter(s), u), u.delivered) && emitted.open == start.open
    requires Generations(emitted) && Lossless(emitted.log) && Decides(start, emitted)
    requires var sent := u.delivered && !Unchanged(Enter(s), u);
             Truthful(emitted, if sent then pending + {u.key} else pending)
    ensures var sent := u.delivered && !Unchanged(Enter(s), u);
            var r := Leave(if sent then Record(emitted, u.key, u.value) else emitted);
            Generations(r) && Truthful(r, pending) && Lossless(r.log) && Decides(s, r)
  {
    EmitStep(s, u, pending);
    if u.delivered && !Unchanged(Enter(s), u) {
      assert emitted.open[|emitted.open| - 1] == s.updates + 1;
      RecordStep(start, emitted, u.key, u.value, s.updates + 1, pending);
    }
  }

  /** One update, with everything nested in it, keeps the ledger truthful and the log readable. */
  lemma {:induction false} UpdateKeeps<V(!new)>(s: State<V>, u: Update<V>, pending: set<Key>)
    requires Generations(s) && Truthful(s, pending) && Lossless(s.log)
    requires s.open == [] ==> pending == {}
    ensures var r := Apply(s, u);
            Generations(r) && Truthful(r, pending) && Lossless(r.log) && Decides(s, r)
    decreases u, 0
  {
    var entered := Enter(s);
    var start := Emit(entered, EntryFor(entered, u), u.delivered);
    EmitStep(s, u, pending);
    UpdatesKeep(start, u.nested, if u.delivered && !Unchanged(entered, u) then pending + {u.key} else pending);
    CloseUpdate(s, u, pending, start, ApplyAll(start, u.nested));
  }

  lemma {:induction false} UpdatesKeep<V(!new)>(s: State<V>, us: seq<Update<V>>, pending: set<Key>)
    requires Generations(s) && Truthful(s, pending) && Lossless(s.log)
    requires s.open == [] ==> pending == {}
    ensures var r := ApplyAll(s, us);
            Generations(r) && Truthful(r, pending) && Lossless(r.log) && Decides(s, r)
    decreases us, 0
  {
    if us != [] {
      var mid := ApplyAll(s, us[..|us| - 1]);
      UpdatesKeep(s, us[..|us| - 1], pending);
      UpdateKeeps(mid, us[|us| - 1], pending);
      DecidesTransitive(s, mid, ApplyAll(s, us));
    }
  }

  // ----- the life of a sink ----------------------------------------------------------------

  /** Collection contexts on one sink share its ledger, which lives as long as one of them is open. */
  datatype Event<V> = Arm | Disarm | Observe(update: Update<V>)

  datatype Stream<V> = Stream(contexts: nat, ledger: State<V>)

  function NewLedger<V>(log: seq<Entry<V>>): State<V> {
    State(map[], map[], [], 0, log)
  }

  ghost function Handle<V>(s: Stream<V>, e: Event<V>): Stream<V> {
    match e
    case Arm => Stream(s.contexts + 1, if s.contexts == 0 then NewLedger(s.ledger.log) else s.ledger)
    case Disarm => if s.contexts == 0 then s else s.(contexts := s.contexts - 1)
    case Observe(update) => if s.contexts == 0 then s else s.(ledger := Apply(s.ledger, update))
  }

  ghost function HandleAll<V>(s: Stream<V>, es: seq<Event<V>>): Stream<V> {
    if es == [] then s else Handle(HandleAll(s, es[..|es| - 1]), es[|es| - 1])
  }

  ghost predicate Healthy<V(!new)>(s: Stream<V>) {
    && Lossless(s.ledger.log)
    && (s.contexts > 0 ==> s.ledger.open == [] && Generations(s.ledger) && Truthful(s.ledger, {}))
  }

  /**
   * However updates nest, fail and interleave with collection contexts, a reader who carries the
   * last full value over markers recovers at every row exactly the value that was observed.
   */
  lemma {:induction false} ReaderRecoversEveryObservation<V(!new)>(s: Stream<V>, es: seq<Event<V>>)
    requires Healthy(s)
    ensures Healthy(HandleAll(s, es)) && Lossless(HandleAll(s, es).ledger.log)
  {
    if es != [] {
      ReaderRecoversEveryObservation(s, es[..|es| - 1]);
      var mid, e := HandleAll(s, es[..|es| - 1]), es[|es| - 1];
      if e.Observe? && mid.contexts > 0 {
        UpdateKeeps(mid.ledger, e.update, {});
      }
    }
  }

  // ----- contexts share one ledger ----------------------------------------------------------

  /** How many contexts are open after these events. */
  function Contexts<V>(open: nat, es: seq<Event<V>>): nat {
    if es == [] then open
    else
      var before := Contexts(open, es[..|es| - 1]);
      match es[|es| - 1]
      case Arm => before + 1
      case Disarm => if before == 0 then 0 else before - 1
      case Observe(_) => before
  }

  function Observed<V>(es: seq<Event<V>>): seq<Update<V>> {
    if es == [] then []
    else Observed(es[..|es| - 1]) + if es[|es| - 1].Observe? then [es[|es| - 1].update] else []
  }

  /** At least one context is open all along. */
  ghost predicate StaysOpen<V>(open: nat, es: seq<Event<V>>) {
    open > 0 && forall k :: 0 <= k <= |es| ==> Contexts(open, es[..k]) > 0
  }

  lemma {:induction false} ContextsCounted<V(!new)>(s: Stream<V>, es: seq<Event<V>>)
    ensures HandleAll(s, es).contexts == Contexts(s.contexts, es)
  {
    if es != [] {
      ContextsCounted(s, es[..|es| - 1]);
    }
  }

  /**
   * As long as some context stays open, contexts opened and closed meanwhile make no difference: the ledger
   * is that of the observations alone, one after the other.
   */
  lemma {:induction false} ContextsShareTheLedger<V(!new)>(s: Stream<V>, es: seq<Event<V>>)
    requires StaysOpen(s.contexts, es)
    ensures HandleAll(s, es).ledger == ApplyAll(s.ledger, Observed(es))
  {
    if es != [] {
      var init, last := es[..|es| - 1], es[|es| - 1];
      forall k | 0 <= k <= |init|
        ensures Contexts(s.contexts, init[..k]) > 0
      {
        assert init[..k] == es[..k];
      }
      ContextsShareTheLedger(s, init);
      ContextsCounted(s, init);
      TakeAll(init);
      assert Contexts(s.contexts, es[..|init|]) > 0;
      if last.Observe? {
        Snoc(Observed(init), last.update);
      } else {
        ConcatNil(Observed(init));
      }
    }
  }

  /** The first context after the last one closed starts with nothing known; the log goes on. */
  lemma LastContextForgets<V(!new)>(s: Stream<V>, es: seq<Event<V>>)
    requires Contexts(s.contexts, es) == 0
    ensures var n := HandleAll(s, es + [Arm]);
            && n.contexts == 1 && n.ledger.values == map[] && n.ledger.open == []
            && n.ledger.log == HandleAll(s, es).ledger.log
    ensures forall u :: HandleAll(s, es + [Observe(u)]) == HandleAll(s, es)
  {
    ContextsCounted(s, es);
    Snoc(es, Arm);
    forall u
      ensures HandleAll(s, es + [Observe(u)]) == HandleAll(s, es)
    {
      Snoc(es, Observe(u));
    }
  }

  // ----- what is actually elided -----------------------------------------------------------

  /** Whether some delivered update in the forest is about `key`. */
  predicate Touches<V>(us: seq<Update<V>>, key: Key)
    decreases us, 0
  {
    us != [] && (TouchesOne(us[|us| - 1], key) || Touches(us[..|us| - 1], key))
  }

  predicate TouchesOne<V>(u: Update<V>, key: Key)
    decreases u, 0
  {
    (u.delivered && u.key == key) || Touches(u.nested, key)
  }

  ghost predicate SameAt<V(!new)>(a: State<V>, b: State<V>, key: Key) {
    && (key in a.values <==> key in b.values) && (key in a.values ==> a.values[key] == b.values[key])
    && (key in a.writers <==> key in b.writers) && (key in a.writers ==> a.writers[key] == b.writers[key])
  }

  lemma {:induction false} UntouchedOne<V(!new)>(s: State<V>, u: Update<V>, key: Key)
    requires !TouchesOne(u, key)
    ensures SameAt(s, Apply(s, u), key)
    decreases u, 0
  {
    var entered := Enter(s);
    var start := Emit(entered, EntryFor(entered, u), u.delivered);
    Untouched(start, u.nested, key);
  }

  lemma {:induction false} Untouched<V(!new)>(s: State<V>, us: seq<Update<V>>, key: Key)
    requires !Touches(us, key)
    ensures SameAt(s, ApplyAll(s, us), key)
    decreases us, 0
  {
    if us != [] {
      Untouched(s, us[..|us| - 1], key);
      UntouchedOne(ApplyAll(s, us[..|us| - 1]), us[|us| - 1], key);
    }
  }

  /**
   * The elision is not vacuous: after a delivered observation whose emission did not re-enter on the
   * same key, and any observations of other keys, observing the same value again sends a marker.
   */
  lemma UnchangedIsElided<V(!new)>(s: State<V>, u: Update<V>, others: seq<Update<V>>, again: Update<V>)
    requires s.open == [] && Generations(s)
    requires u.delivered && !Touches(u.nested, u.key) && !Touches(others, u.key)
    requires again.key == u.key && again.value == u.value && again.comparable
    ensures var later := ApplyAll(Apply(s, u), others);
            EntryFor(Enter(later), again) == Entry(Marker(u.key), u.value)
  {
    var entered := Enter(s);
    var start := Emit(entered, EntryFor(entered, u), u.delivered);
    Untouched(start, u.nested, u.key);
    var emitted := ApplyAll(start, u.nested);
    assert emitted.open[|emitted.open| - 1] == s.updates + 1;
    assert u.key in emitted.writers ==> emitted.writers[u.key] <= s.updates;
    var done := Apply(s, u);
    assert u.key in done.values && done.values[u.key] == u.value;
    Untouched(done, others, u.key);
  }

  /** An update that finds the value unchanged sends a marker and leaves the key as it was. */
  lemma MarkerRecordsNothing<V(!new)>(s: State<V>, u: Update<V>)
    requires Unchanged(Enter(s), u) && !Touches(u.nested, u.key)
    ensures SameAt(s, Apply(s, u), u.key)
  {
    var entered := Enter(s);
    Untouched(Emit(entered, EntryFor(entered, u), u.delivered), u.nested, u.key);
  }

  /** Only a comparable value the ledger carries is ever elided: any other is sent in full. */
  lemma OnlyKnownIsElided<V(!new)>(s: State<V>, u: Update<V>)
    ensures EntryFor(Enter(s), u) == Entry(Marker(u.key), u.value) <==>
              s.open == [] && u.comparable && u.key in s.values && s.values[u.key] == u.value
    ensures EntryFor(Enter(s), u).row.Full? ==> EntryFor(Enter(s), u) == Entry(Full(u.key, u.value), u.value)
  {
  }

  // ----- a nested update that decides the key ------------------------------------------------

  /** Update numbers and the writers of keys only move forward. */
  ghost predicate Later<V(!new)>(s: State<V>, r: State<V>) {
    s.updates <= r.updates && forall k :: k in s.writers ==> k in r.writers && s.writers[k] <= r.writers[k]
  }

  lemma {:induction false} UpdateMovesOn<V(!new)>(s: State<V>, u: Update<V>)
    ensures Later(s, Apply(s, u))
    decreases u, 0
  {
    var entered := Enter(s);
    UpdatesMoveOn(Emit(entered, EntryFor(entered, u), u.delivered), u.nested);
  }

  lemma {:induction false} UpdatesMoveOn<V(!new)>(s: State<V>, us: seq<Update<V>>)
    ensures Later(s, ApplyAll(s, us))
    decreases us, 0
  {
    if us != [] {
      UpdatesMoveOn(s, us[..|us| - 1]);
      UpdateMovesOn(ApplyAll(s, us[..|us| - 1]), us[|us| - 1]);
    }
  }

  /** The key's last writer started after `s`. */
  ghost predicate DecidedSince<V(!new)>(s: State<V>, r: State<V>, key: Key) {
    key in r.writers && r.writers[key] > s.updates
  }

  lemma {:induction false} TreeDecides<V(!new)>(s: State<V>, u: Update<V>, key: Key)
    requires s.open != [] && TouchesOne(u, key)
    ensures DecidedSince(s, Apply(s, u), key)
    decreases u, 0
  {
    var entered := Enter(s);
    var start := Emit(entered, EntryFor(entered, u), u.delivered);
    var emitted := ApplyAll(start, u.nested);
    if Touches(u.nested, key) {
      ForestDecides(start, u.nested, key);
    }
    assert emitted.open[|emitted.open| - 1] == s.updates + 1;
  }

  lemma {:induction false} ForestDecides<V(!new)>(s: State<V>, us: seq<Update<V>>, key: Key)
    requires s.open != [] && Touches(us, key)
    ensures DecidedSince(s, ApplyAll(s, us), key)
    decreases us, 0
  {
    var init, last := us[..|us| - 1], us[|us| - 1];
    var mid := ApplyAll(s, init);
    UpdatesMoveOn(s, init);
    if TouchesOne(last, key) {
      TreeDecides(mid, last, key);
    } else {
      ForestDecides(s, init, key);
      UpdateMovesOn(mid, last);
    }
  }

  /**
   * A value sent in full is in the ledger afterwards if and only if nothing its emission re-entered, at
   * any depth, delivered that key: then the enclosing update cannot vouch for it, and it is sent again.
   */
  lemma RecordedIffUndisturbed<V(!new)>(s: State<V>, u: Update<V>)
    requires Generations(s) && u.delivered && !Unchanged(Enter(s), u)
    ensures u.key in Apply(s, u).values <==> !Touches(u.nested, u.key)
    ensures !Touches(u.nested, u.key) ==> Apply(s, u).values[u.key] == u.value
  {
    var entered := Enter(s);
    var start := Emit(entered, EntryFor(entered, u), true);
    var emitted := ApplyAll(start, u.nested);
    assert emitted.open[|emitted.open| - 1] == s.updates + 1;
    if Touches(u.nested, u.key) {
      ForestDecides(start, u.nested, u.key);
    } else {
      Untouched(start, u.nested, u.key);
    }
  }

  // ----- the stream object -----------------------------------------------------------------

  class PropertyStream<V(==)> {
    var values: map<Key, V>
    var writers: map<Key, nat>
    var open: seq<nat>
    var updates: nat
    var log: seq<Entry<V>>

    ghost function View(): State<V>
      reads this
    {
      State(values, writers, open, updates, log)
    }

    constructor ()
      ensures View() == NewLedger([])
    {
      values, writers, open, updates, log := map[], map[], [], 0, [];
    }

    method StreamedValue(key: Key) returns (carried: Option<V>)
      ensures carried == Carried(View(), key)
    {
      if |open| > 1 {
        return None;
      }
      if key in values {
        return Some(values[key]);
      }
      return None;
    }

    method RecordStreamedValue(key: Key, value: V)
      modifies this
      ensures View() == Record(old(View()), key, value)
    {
      if open != [] && key in writers && writers[key] > open[|open| - 1] {
        values := values - {key};
        return;
      }
      values := values[key := value];
      if open != [] {
        writers := writers[key := open[|open| - 1]];
      }
    }

    /** The sink commits the row it takes, then calls back. */
    method EmitRow(e: Entry<V>, delivered: bool, nested: seq<Update<V>>)
      modifies this
      ensures View() == ApplyAll(Emit(old(View()), e, delivered), nested)
      decreases nested, 1
    {
      if delivered {
        log := log + [e];
      }
      label committed:
      for i := 0 to |nested|
        invariant View() == ApplyAll(old@committed(View()), nested[..i])
      {
        TakeNext(nested, i);
        Snapshot(nested[i]);
      }
      TakeAll(nested);
    }

    method Snapshot(u: Update<V>)
      modifies this
      ensures View() == Apply(old(View()), u)
      decreases u, 0
    {
      updates := updates + 1;
      open := open + [updates];
      assert View() == Enter(old(View()));
      var carried := StreamedValue(u.key);
      if u.comparable && carried == Some(u.value) {
        EmitRow(Entry(Marker(u.key), u.value), u.delivered, u.nested);
      } else {
        EmitRow(Entry(Full(u.key, u.value), u.value), u.delivered, u.nested);
        if u.delivered {
          RecordStreamedValue(u.key, u.value);
        }
      }
      open := open[..|open| - 1];
    }
  }
}
