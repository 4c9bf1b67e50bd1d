/** The event sweep that measures how many model crossings were in flight on the host wall clock. */
module Concurrency {
  import opened Sequences
  import opened Sorting
  import opened Intervals

  datatype Report = Report(roundTrips: nat, maxInFlight: nat, overlapped: nat)

  datatype Event = Event(at: int, delta: int, index: nat)

  // ----- what is being measured ------------------------------------------------------------

  predicate Positive(w: Window) { w.startedAt < w.finishedAt }

  /** Window `w` is in flight throughout the tick that begins at `t`. */
  predicate Live(w: Window, t: int) { w.startedAt <= t < w.finishedAt }

  ghost function InFlight(ws: seq<Window>, t: int): set<nat> {
    set i | 0 <= i < |ws| && Live(ws[i], t)
  }

  /** A positive-length overlap: touching endpoints do not count. */
  predicate Overlap(a: Window, b: Window) {
    Positive(a) && Positive(b) && a.startedAt < b.finishedAt && b.startedAt < a.finishedAt
  }

  ghost predicate Overlapped(ws: seq<Window>, i: nat)
    requires i < |ws|
  {
    exists j :: 0 <= j < |ws| && j != i && Overlap(ws[i], ws[j])
  }

  ghost function OverlappedSet(ws: seq<Window>): set<nat> {
    set i | 0 <= i < |ws| && Overlapped(ws, i)
  }

  // ----- events ----------------------------------------------------------------------------

  function StartOf(ws: seq<Window>, i: nat): Event
    requires i < |ws|
  {
    Event(ws[i].startedAt, 1, i)
  }

  function EndOf(ws: seq<Window>, i: nat): Event
    requires i < |ws|
  {
    Event(ws[i].finishedAt, -1, i)
  }

  function Key(e: Event): (int, int) { (e.at, e.delta) }

  /** `es` holds exactly the two events of each positive window with an index below `n`. */
  ghost predicate EventsOf(ws: seq<Window>, n: nat, es: seq<Event>)
    requires n <= |ws|
  {
    && (forall i :: 0 <= i < n && Positive(ws[i]) ==> StartOf(ws, i) in es && EndOf(ws, i) in es)
    && (forall e :: e in es ==>
          e.index < n && Positive(ws[e.index]) && (e == StartOf(ws, e.index) || e == EndOf(ws, e.index)))
  }

  method CollectEvents(ws: seq<Window>) returns (es: seq<Event>)
    ensures EventsOf(ws, |ws|, es) && Distinct(es)
  {
    es := [];
    for i := 0 to |ws|
      invariant EventsOf(ws, i, es) && Distinct(es)
    {
      var start := ws[i].startedAt;
      var end := Max(start, ws[i].finishedAt);
      if end <= start {
        continue;
      }
      es := es + [Event(start, 1, i), Event(end, -1, i)];
    }
  }

  method SortEvents(ws: seq<Window>, raw: seq<Event>) returns (es: seq<Event>)
    requires EventsOf(ws, |ws|, raw) && Distinct(raw)
    ensures EventsOf(ws, |ws|, es) && Distinct(es) && SortedBy(es, Key)
  {
    es := Sorted(raw, Key);
    SameElements(raw, es);
    DistinctPermutation(raw, es);
  }

  // ----- the sweep's state after a prefix of the sorted events -----------------------------

  ghost function Active(ws: seq<Window>, seen: seq<Event>): set<nat> {
    set i | 0 <= i < |ws| && StartOf(ws, i) in seen && EndOf(ws, i) !in seen
  }

  ghost predicate StartedBy(ws: seq<Window>, seen: seq<Event>, t: int) {
    forall i :: i in InFlight(ws, t) ==> StartOf(ws, i) in seen
  }

  ghost predicate MaxSoFar(ws: seq<Window>, seen: seq<Event>, m: nat) {
    && (exists t :: m <= |InFlight(ws, t)|)
    && (forall t :: StartedBy(ws, seen, t) ==> |InFlight(ws, t)| <= m)
  }

  ghost predicate PairSeen(ws: seq<Window>, seen: seq<Event>, i: nat, j: nat)
    requires i < |ws| && j < |ws|
  {
    i != j && Overlap(ws[i], ws[j]) && StartOf(ws, i) in seen && StartOf(ws, j) in seen
  }

  ghost function OverlappedSoFar(ws: seq<Window>, seen: seq<Event>): set<nat> {
    set i, j | 0 <= i < |ws| && 0 <= j < |ws| && PairSeen(ws, seen, i, j) :: i
  }

  /** What a sorted event list says about the prefix `seen` and the event `e` that follows it. */
  ghost predicate Follows(ws: seq<Window>, seen: seq<Event>, e: Event) {
    && e !in seen
    && (forall x :: x in seen + [e] ==>
        x.index < |ws| && Positive(ws[x.index]) && (x == StartOf(ws, x.index) || x == EndOf(ws, x.index)))
    && (forall x :: x in seen ==> KeyLe(Key(x), Key(e)))
    && (forall i :: 0 <= i < |ws| && Positive(ws[i]) && EndOf(ws, i) !in seen ==> KeyLe(Key(e), Key(EndOf(ws, i))))
  }

  lemma PrefixFollows(ws: seq<Window>, es: seq<Event>, k: nat)
    requires EventsOf(ws, |ws|, es) && Distinct(es) && SortedBy(es, Key)
    requires k < |es|
    ensures Follows(ws, es[..k], es[k])
    ensures es[..k + 1] == es[..k] + [es[k]]
  {
    TakeNext(es, k);
    forall i | 0 <= i < |ws| && Positive(ws[i]) && EndOf(ws, i) !in es[..k]
      ensures KeyLe(Key(es[k]), Key(EndOf(ws, i)))
    {
      var p :| 0 <= p < |es| && es[p] == EndOf(ws, i);
      InPrefix(es, p, k);
    }
  }

  /** When a window starts, the windows then active are those that have begun and are still live. */
  lemma StartActive(ws: seq<Window>, seen: seq<Event>, e: Event)
    requires Follows(ws, seen, e) && e.delta > 0
    ensures e.index !in Active(ws, seen)
    ensures Active(ws, seen + [e]) == Active(ws, seen) + {e.index}
    ensures forall i :: i in Active(ws, seen + [e]) ==> Live(ws[i], e.at)
    ensures forall i :: 0 <= i < |ws| && i != e.index ==>
              (i in Active(ws, seen) <==> Overlap(ws[i], ws[e.index]) && StartOf(ws, i) in seen)
  {
    var x, now := e.index, seen + [e];
    assert e in now && e == StartOf(ws, x);
    assert EndOf(ws, x) !in seen;
    forall i | 0 <= i < |ws|
      ensures StartOf(ws, i) in seen ==> Positive(ws[i]) && ws[i].startedAt <= e.at
      ensures StartOf(ws, i) in seen && EndOf(ws, i) !in seen ==> e.at < ws[i].finishedAt
      ensures EndOf(ws, i) in seen ==> ws[i].finishedAt <= e.at
    {
      if StartOf(ws, i) in seen {
        assert StartOf(ws, i) in now;
      }
      if EndOf(ws, i) in seen {
        assert EndOf(ws, i) in now;
      }
    }
  }

  lemma StartMax(ws: seq<Window>, seen: seq<Event>, e: Event, m: nat)
    requires Follows(ws, seen, e) && e.delta > 0
    requires MaxSoFar(ws, seen, m)
    ensures MaxSoFar(ws, seen + [e], Max(m, |Active(ws, seen + [e])|))
  {
    StartActive(ws, seen, e);
    var now := seen + [e];
    var after := Active(ws, now);
    SubsetSize(after, InFlight(ws, e.at));
    var u :| m <= |InFlight(ws, u)|;
    assert Max(m, |after|) <= |InFlight(ws, if |after| < m then u else e.at)|;
    forall t | StartedBy(ws, now, t)
      ensures |InFlight(ws, t)| <= Max(m, |after|)
    {
      if e.index in InFlight(ws, t) {
        LiveTogether(ws, seen, e, t);
      } else {
        NotYetStarted(ws, seen, e, t);
      }
    }
  }

  lemma NotYetStarted(ws: seq<Window>, seen: seq<Event>, e: Event, t: int)
    requires e.index !in InFlight(ws, t) && StartedBy(ws, seen + [e], t)
    ensures StartedBy(ws, seen, t)
  {
    forall i | i in InFlight(ws, t)
      ensures StartOf(ws, i) in seen
    {
      assert StartOf(ws, i) in seen + [e];
    }
  }

  /** If the last window to start is live at `t`, every window live at `t` is active now. */
  lemma LiveTogether(ws: seq<Window>, seen: seq<Event>, e: Event, t: int)
    requires Follows(ws, seen, e) && e.delta > 0
    requires e.index in InFlight(ws, t) && StartedBy(ws, seen + [e], t)
    ensures |InFlight(ws, t)| <= |Active(ws, seen + [e])|
  {
    var now := seen + [e];
    assert e in now;
    forall i | i in InFlight(ws, t)
      ensures i in Active(ws, now)
    {
      assert StartOf(ws, i) in now;
      assert EndOf(ws, i) in now ==> EndOf(ws, i) in seen && KeyLe(Key(EndOf(ws, i)), Key(e));
    }
    SubsetSize(InFlight(ws, t), Active(ws, now));
  }

  lemma StartPairs(ws: seq<Window>, seen: seq<Event>, e: Event)
    requires Follows(ws, seen, e) && e.delta > 0
    ensures OverlappedSoFar(ws, seen + [e]) == OverlappedSoFar(ws, seen) +
            (if Active(ws, seen) == {} then {} else {e.index} + Active(ws, seen))
  {
    StartActive(ws, seen, e);
    var x, now, active := e.index, seen + [e], Active(ws, seen);
    assert e in now && e == StartOf(ws, x);
    var before, after := OverlappedSoFar(ws, seen), OverlappedSoFar(ws, now);
    forall i | i in after
      ensures i in before || (active != {} && (i == x || i in active))
    {
      var j :| 0 <= j < |ws| && PairSeen(ws, now, i, j);
      assert StartOf(ws, i) in now && StartOf(ws, j) in now;
      if i != x && j != x {
        assert PairSeen(ws, seen, i, j);
      } else if i == x {
        assert Overlap(ws[j], ws[x]) && j in active;
      }
    }
    forall i | i in before
      ensures i in after
    {
      var j :| 0 <= j < |ws| && PairSeen(ws, seen, i, j);
      assert PairSeen(ws, now, i, j);
    }
    forall i | i in active
      ensures i in after && x in after
    {
      assert PairSeen(ws, now, i, x) && PairSeen(ws, now, x, i);
    }
    if active != {} {
      var i :| i in active;
      assert x in after;
    }
  }

  /** An end event closes its window and changes nothing else. */
  lemma EndStep(ws: seq<Window>, seen: seq<Event>, e: Event, m: nat)
    requires Follows(ws, seen, e) && e.delta < 0
    requires MaxSoFar(ws, seen, m)
    ensures Active(ws, seen + [e]) == Active(ws, seen) - {e.index}
    ensures OverlappedSoFar(ws, seen + [e]) == OverlappedSoFar(ws, seen)
    ensures MaxSoFar(ws, seen + [e], m)
  {
    var now := seen + [e];
    assert e in now;
    assert forall i :: 0 <= i < |ws| ==> (StartOf(ws, i) in now <==> StartOf(ws, i) in seen);
    assert forall i, j :: 0 <= i < |ws| && 0 <= j < |ws| ==> (PairSeen(ws, seen, i, j) <==> PairSeen(ws, now, i, j));
    forall t | StartedBy(ws, now, t)
      ensures StartedBy(ws, seen, t)
    {
    }
  }

  ghost predicate Sweeping(ws: seq<Window>, seen: seq<Event>, active: set<nat>, overlapped: set<nat>, m: nat) {
    && active == Active(ws, seen)
    && overlapped == OverlappedSoFar(ws, seen)
    && MaxSoFar(ws, seen, m)
  }

  lemma SweepStart(ws: seq<Window>)
    ensures Sweeping(ws, [], {}, {}, 0)
  {
    assert 0 <= |InFlight(ws, 0)|;
    forall t | StartedBy(ws, [], t)
      ensures InFlight(ws, t) == {}
    {
    }
  }

  lemma SweepStep(ws: seq<Window>, seen: seq<Event>, e: Event, active: set<nat>, overlapped: set<nat>, m: nat)
    requires Sweeping(ws, seen, active, overlapped, m) && Follows(ws, seen, e)
    ensures e.delta < 0 ==> Sweeping(ws, seen + [e], active - {e.index}, overlapped, m)
    ensures e.delta >= 0 ==>
              Sweeping(ws, seen + [e], active + {e.index},
                if active == {} then overlapped else overlapped + {e.index} + active, Max(m, |active + {e.index}|))
  {
    assert e in seen + [e];
    if e.delta < 0 {
      EndStep(ws, seen, e, m);
    } else {
      StartActive(ws, seen, e);
      StartMax(ws, seen, e, m);
      StartPairs(ws, seen, e);
      assert overlapped + ({e.index} + active) == overlapped + {e.index} + active;
    }
  }

  lemma SweepEnd(ws: seq<Window>, es: seq<Event>, active: set<nat>, overlapped: set<nat>, m: nat)
    requires EventsOf(ws, |ws|, es) && Sweeping(ws, es, active, overlapped, m)
    ensures forall t :: |InFlight(ws, t)| <= m
    ensures exists t :: |InFlight(ws, t)| == m
    ensures overlapped == OverlappedSet(ws)
  {
    forall t
      ensures |InFlight(ws, t)| <= m
    {
      assert StartedBy(ws, es, t);
    }
    var t :| m <= |InFlight(ws, t)|;
    assert |InFlight(ws, t)| == m;
    forall i | i in OverlappedSet(ws)
      ensures i in overlapped
    {
      var j :| 0 <= j < |ws| && j != i && Overlap(ws[i], ws[j]);
      assert PairSeen(ws, es, i, j);
    }
  }

  /** Counts are exact: the true maximum over all instants, and every window that overlaps another. */
  method RoundTripConcurrency(ws: seq<Window>) returns (r: Report)
    ensures r.roundTrips == |ws|
    ensures forall t :: |InFlight(ws, t)| <= r.maxInFlight
    ensures exists t :: |InFlight(ws, t)| == r.maxInFlight
    ensures r.overlapped == |OverlappedSet(ws)|
  {
    var raw := CollectEvents(ws);
    var events := SortEvents(ws, raw);
    var overlapped: set<nat>, active: set<nat> := {}, {};
    var maxInFlight: nat := 0;
    SweepStart(ws);
    for k := 0 to |events|
      invariant Sweeping(ws, events[..k], active, overlapped, maxInFlight)
    {
      var e := events[k];
      PrefixFollows(ws, events, k);
      SweepStep(ws, events[..k], e, active, overlapped, maxInFlight);
      if e.delta < 0 {
        active := active - {e.index};
        continue;
      }
      if active != {} {
        overlapped := overlapped + {e.index} + active;
      }
      active := active + {e.index};
      maxInFlight := Max(maxInFlight, |active|);
    }
    TakeAll(events);
    SweepEnd(ws, events, active, overlapped, maxInFlight);
    r := Report(|ws|, maxInFlight, |overlapped|);
  }
}
