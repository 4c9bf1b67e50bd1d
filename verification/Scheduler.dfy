/**
 * The job scheduler of a concurrent sweep: at most `workers` jobs at once, each started only when the
 * job it depends on has completed, and nothing started once a job failed or a pause was asked for.
 */
module Scheduler {
  import opened Options
  import opened Sequences

  datatype Status = Completed | Other(name: string)
  datatype Job = Job(key: string, dependency: Option<string>)
  datatype Event = Start(job: Job) | Finish(job: Job, status: Status) | Raise(job: Job) | Pause

  /** What one wait brings: a pause request seen before it, and the tasks it found done. */
  datatype Ended = Returned(status: Status) | Raised
  datatype Round = Round(pause: bool, done: seq<(Job, Ended)>)

  datatype State = State(
    pending: seq<Job>, active: set<Job>, results: map<string, Status>, stopped: bool, trace: seq<Event>)

  datatype Outcome = Over | Crashed | Waiting

  /** An absent or empty dependency asks for nothing. */
  predicate Satisfied(job: Job, results: map<string, Status>) {
    job.dependency in {None, Some("")}
      || (job.dependency.value in results && results[job.dependency.value] == Completed)
  }

  // ----- what a trace says -----------------------------------------------------------------

  function Active(trace: seq<Event>): set<Job> {
    if trace == [] then {}
    else
      var before := Active(trace[..|trace| - 1]);
      match trace[|trace| - 1]
      case Start(job) => before + {job}
      case Finish(job, _) => before - {job}
      case Raise(job) => before - {job}
      case Pause => before
  }

  function Results(first: map<string, Status>, trace: seq<Event>): map<string, Status> {
    if trace == [] then first
    else
      var before := Results(first, trace[..|trace| - 1]);
      match trace[|trace| - 1]
      case Finish(job, status) => before[job.key := status]
      case _ => before
  }

  predicate Stops(e: Event) {
    e.Pause? || (e.Finish? && e.status != Completed)
  }

  predicate Stopped(trace: seq<Event>) {
    trace != [] && (Stopped(trace[..|trace| - 1]) || Stops(trace[|trace| - 1]))
  }

  /** Pending is what the jobs, in their order, still have to start. */
  function Unstarted(jobs: seq<Job>, first: map<string, Status>, trace: seq<Event>): seq<Job> {
    if jobs == [] then []
    else
      var job := jobs[|jobs| - 1];
      Unstarted(jobs[..|jobs| - 1], first, trace) + if job.key in first || Start(job) in trace then [] else [job]
  }

  lemma {:induction false} UnstartedIs(jobs: seq<Job>, first: map<string, Status>, trace: seq<Event>, job: Job)
    ensures job in Unstarted(jobs, first, trace) <==> job in jobs && job.key !in first && Start(job) !in trace
  {
    if jobs != [] {
      UnstartedIs(jobs[..|jobs| - 1], first, trace, job);
      Unsnoc(jobs);
    }
  }

  /** What the scheduler allows itself to do next. */
  predicate Allowed(jobs: seq<Job>, workers: int, first: map<string, Status>, trace: seq<Event>, e: Event) {
    match e
    case Start(job) =>
      && job in Unstarted(jobs, first, trace)
      && !Stopped(trace) && |Active(trace)| < workers
      && Satisfied(job, Results(first, trace))
    case Finish(job, _) => job in Active(trace)
    case Raise(job) => job in Active(trace)
    case Pause => true
  }

  predicate Legal(jobs: seq<Job>, workers: int, first: map<string, Status>, trace: seq<Event>) {
    trace == []
    || (Legal(jobs, workers, first, trace[..|trace| - 1])
        && Allowed(jobs, workers, first, trace[..|trace| - 1], trace[|trace| - 1]))
  }

  // ----- what every legal trace keeps -------------------------------------------------------

  lemma {:induction false} LegalPrefix(jobs: seq<Job>, workers: int, first: map<string, Status>, trace: seq<Event>,
                                       k: nat)
    requires Legal(jobs, workers, first, trace) && k <= |trace|
    ensures Legal(jobs, workers, first, trace[..k])
    ensures k < |trace| ==> Allowed(jobs, workers, first, trace[..k], trace[k])
    decreases |trace|
  {
    if k < |trace| - 1 {
      LegalPrefix(jobs, workers, first, trace[..|trace| - 1], k);
      assert trace[..|trace| - 1][..k] == trace[..k];
    } else if k == |trace| {
      TakeAll(trace);
    }
  }

  /** At no point are more than `workers` jobs active. */
  lemma {:induction false} AtMostWorkers(jobs: seq<Job>, workers: int, first: map<string, Status>, trace: seq<Event>,
                                         k: nat)
    requires Legal(jobs, workers, first, trace) && k <= |trace| && workers >= 0
    ensures |Active(trace[..k])| <= workers
  {
    LegalPrefix(jobs, workers, first, trace, k);
    if k > 0 {
      AtMostWorkers(jobs, workers, first, trace, k - 1);
      TakeNext(trace, k - 1);
      LegalPrefix(jobs, workers, first, trace, k - 1);
      var before, e := Active(trace[..k - 1]), trace[k - 1];
      if !e.Pause? {
        assert |before - {e.job}| <= |before| && |before + {e.job}| <= |before| + 1;
      }
    }
  }

  /** A job starts at most once. */
  lemma StartsOnce(jobs: seq<Job>, workers: int, first: map<string, Status>, trace: seq<Event>, i: nat, j: nat)
    requires Legal(jobs, workers, first, trace) && i < j < |trace| && trace[i].Start? && trace[j].Start?
    ensures trace[i].job != trace[j].job
  {
    LegalPrefix(jobs, workers, first, trace, j);
    InPrefix(trace, i, j);
    UnstartedIs(jobs, first, trace[..j], trace[j].job);
  }

  lemma {:induction false} StoppedBy(trace: seq<Event>)
    ensures Stopped(trace) <==> exists i :: 0 <= i < |trace| && Stops(trace[i])
  {
    if trace != [] {
      StoppedBy(trace[..|trace| - 1]);
      ExistsSnoc(trace, trace[..|trace| - 1], Stops);
    }
  }

  /** Nothing starts after a pause request or a job that did not complete. */
  lemma NothingStartsOnceStopped(jobs: seq<Job>, workers: int, first: map<string, Status>, trace: seq<Event>, i: nat,
                                 j: nat)
    requires Legal(jobs, workers, first, trace) && i < j < |trace| && Stops(trace[i])
    ensures !trace[j].Start?
  {
    LegalPrefix(jobs, workers, first, trace, j);
    StoppedBy(trace[..j]);
    assert trace[..j][i] == trace[i];
  }

  predicate Completes(e: Event, key: string) {
    e.Finish? && e.job.key == key && e.status == Completed
  }

  lemma {:induction false} CompletedBy(first: map<string, Status>, trace: seq<Event>, key: string)
    requires key in Results(first, trace) && Results(first, trace)[key] == Completed
    ensures (key in first && first[key] == Completed)
            || exists i :: 0 <= i < |trace| && Completes(trace[i], key)
  {
    if trace != [] {
      var init, e := trace[..|trace| - 1], trace[|trace| - 1];
      if e.Finish? && e.job.key == key {
      } else {
        CompletedBy(first, init, key);
        if i :| 0 <= i < |init| && Completes(init[i], key) {
          assert trace[i] == init[i];
        }
      }
    }
  }

  /** A job starts only after the one it depends on completed, in this run or an earlier one. */
  lemma DependencyFirst(jobs: seq<Job>, workers: int, first: map<string, Status>, trace: seq<Event>, j: nat)
    requires Legal(jobs, workers, first, trace) && j < |trace| && trace[j].Start?
    requires trace[j].job.dependency !in {None, Some("")}
    ensures var key := trace[j].job.dependency.value;
            (key in first && first[key] == Completed)
            || exists i :: 0 <= i < j && Completes(trace[i], key)
  {
    LegalPrefix(jobs, workers, first, trace, j);
    var key := trace[j].job.dependency.value;
    CompletedBy(first, trace[..j], key);
    if i :| 0 <= i < |trace[..j]| && Completes(trace[..j][i], key) {
      assert trace[i] == trace[..j][i];
    }
  }

  // ----- the scheduler's own state follows its trace -----------------------------------------

  predicate DistinctKeys(jobs: seq<Job>) {
    forall i, j :: 0 <= i < j < |jobs| ==> jobs[i].key != jobs[j].key
  }

  ghost predicate Consistent(s: State, jobs: seq<Job>, workers: int, first: map<string, Status>) {
    && Legal(jobs, workers, first, s.trace)
    && s.active == Active(s.trace) && s.results == Results(first, s.trace) && s.stopped == Stopped(s.trace)
    && s.pending == Unstarted(jobs, first, s.trace)
  }

  /** The list without a job, everything else in place. */
  function Without(pending: seq<Job>, job: Job): seq<Job> {
    if pending == [] then []
    else Without(pending[..|pending| - 1], job) + if pending[|pending| - 1] == job then [] else [pending[|pending| - 1]]
  }

  lemma WithoutSnoc(pending: seq<Job>, last: Job, job: Job)
    ensures Without(pending + [last], job) == Without(pending, job) + if last == job then [] else [last]
  {
    Snoc(pending, last);
  }

  lemma {:induction false} StartRemoves(jobs: seq<Job>, first: map<string, Status>, trace: seq<Event>, job: Job)
    ensures Unstarted(jobs, first, trace + [Start(job)]) == Without(Unstarted(jobs, first, trace), job)
  {
    if jobs != [] {
      var init, last := jobs[..|jobs| - 1], jobs[|jobs| - 1];
      StartRemoves(init, first, trace, job);
      ConcatNil(Unstarted(init, first, trace));
      ConcatNil(Unstarted(init, first, trace + [Start(job)]));
      ConcatNil(Without(Unstarted(init, first, trace), job));
      assert Start(last) in trace + [Start(job)] <==> Start(last) in trace || last == job;
      if !(last.key in first || Start(last) in trace) {
        WithoutSnoc(Unstarted(init, first, trace), last, job);
      }
    }
  }

  lemma {:induction false} OthersKeepPending(jobs: seq<Job>, first: map<string, Status>, trace: seq<Event>, e: Event)
    requires !e.Start?
    ensures Unstarted(jobs, first, trace + [e]) == Unstarted(jobs, first, trace)
  {
    if jobs != [] {
      OthersKeepPending(jobs[..|jobs| - 1], first, trace, e);
    }
  }

  function After(s: State, e: Event): State {
    match e
    case Start(job) => s.(pending := Without(s.pending, job), active := s.active + {job}, trace := s.trace + [e])
    case Finish(job, status) =>
      s.(active := s.active - {job}, results := s.results[job.key := status],
         stopped := s.stopped || status != Completed, trace := s.trace + [e])
    case Raise(job) => s.(active := s.active - {job}, trace := s.trace + [e])
    case Pause => s.(stopped := true, trace := s.trace + [e])
  }

  lemma StepKeeps(s: State, jobs: seq<Job>, workers: int, first: map<string, Status>, e: Event)
    requires Consistent(s, jobs, workers, first) && Allowed(jobs, workers, first, s.trace, e)
    ensures Consistent(After(s, e), jobs, workers, first)
  {
    Snoc(s.trace, e);
    if e.Start? {
      StartRemoves(jobs, first, s.trace, e.job);
    } else {
      OthersKeepPending(jobs, first, s.trace, e);
    }
  }

  lemma {:induction false} WithoutIs(pending: seq<Job>, job: Job, x: Job)
    ensures x in Without(pending, job) <==> x in pending && x != job
  {
    if pending != [] {
      WithoutIs(pending[..|pending| - 1], job, x);
      Unsnoc(pending);
    }
  }

  lemma {:induction false} PendingDistinct(jobs: seq<Job>, first: map<string, Status>, trace: seq<Event>)
    requires DistinctKeys(jobs)
    ensures DistinctKeys(Unstarted(jobs, first, trace))
  {
    if jobs != [] {
      var init, last := jobs[..|jobs| - 1], jobs[|jobs| - 1];
      PendingDistinct(init, first, trace);
      forall i | 0 <= i < |Unstarted(init, first, trace)|
        ensures Unstarted(init, first, trace)[i].key != last.key
      {
        UnstartedIs(init, first, trace, Unstarted(init, first, trace)[i]);
      }
    }
  }

  lemma {:induction false} WithoutShorter(pending: seq<Job>, job: Job)
    requires DistinctKeys(pending)
    ensures |Without(pending, job)| == |pending| - if job in pending then 1 else 0
  {
    if pending != [] {
      var init := pending[..|pending| - 1];
      WithoutShorter(init, job);
      Unsnoc(pending);
      assert job in init ==> job != pending[|pending| - 1];
    }
  }

  lemma {:induction false} ActiveStarted(jobs: seq<Job>, workers: int, first: map<string, Status>, trace: seq<Event>,
                                         job: Job)
    requires Legal(jobs, workers, first, trace) && job in Active(trace)
    ensures Start(job) in trace && job in jobs && job.key !in first
  {
    var init, e := trace[..|trace| - 1], trace[|trace| - 1];
    Unsnoc(trace);
    if e != Start(job) {
      ActiveStarted(jobs, workers, first, init, job);
    } else {
      UnstartedIs(jobs, first, init, job);
    }
  }

  lemma PendingIsIdle(s: State, jobs: seq<Job>, workers: int, first: map<string, Status>, job: Job)
    requires Consistent(s, jobs, workers, first) && job in s.pending
    ensures job in jobs && job.key !in first && Start(job) !in s.trace && job !in s.active
  {
    UnstartedIs(jobs, first, s.trace, job);
    if job in s.active {
      ActiveStarted(jobs, workers, first, s.trace, job);
    }
  }

  /** Starting a pending job with room and its dependency met: one fewer pending, one more active. */
  lemma StartPending(s: State, jobs: seq<Job>, workers: int, first: map<string, Status>, job: Job)
    requires DistinctKeys(jobs) && Consistent(s, jobs, workers, first)
    requires job in s.pending && !s.stopped && |s.active| < workers && Satisfied(job, s.results)
    ensures Consistent(After(s, Start(job)), jobs, workers, first)
    ensures forall x :: x in Without(s.pending, job) <==> x in s.pending && x != job
    ensures |Without(s.pending, job)| == |s.pending| - 1 && |s.active + {job}| == |s.active| + 1
  {
    PendingIsIdle(s, jobs, workers, first, job);
    StepKeeps(s, jobs, workers, first, Start(job));
    PendingDistinct(jobs, first, s.trace);
    WithoutShorter(s.pending, job);
    forall x
      ensures x in Without(s.pending, job) <==> x in s.pending && x != job
    {
      WithoutIs(s.pending, job, x);
    }
  }

  // ----- what the loops compute ----------------------------------------------------------------

  /** Going through `some` jobs in order, start what may start while the workers are not busy. */
  function LaunchFrom(s: State, workers: int, some: seq<Job>): State {
    if some == [] then s
    else
      var m, job := LaunchFrom(s, workers, some[..|some| - 1]), some[|some| - 1];
      if m.stopped || |m.active| >= workers || !Satisfied(job, m.results) then m else After(m, Start(job))
  }

  predicate Raises(trace: seq<Event>) {
    trace != [] && (Raises(trace[..|trace| - 1]) || trace[|trace| - 1].Raise?)
  }

  function EventOf(job: Job, ended: Ended): Event {
    if ended.Raised? then Raise(job) else Finish(job, ended.status)
  }

  /** Take what a wait found done, up to the first task that raised; a wait can only find active tasks. */
  function ReapAll(s: State, done: seq<(Job, Ended)>): State {
    if done == [] then s
    else
      var m, (job, ended) := ReapAll(s, done[..|done| - 1]), done[|done| - 1];
      if Raises(m.trace) || job !in m.active then m else After(m, EventOf(job, ended))
  }

  datatype Progress = Progress(s: State, outcome: Outcome, idle: nat)

  function Begun(s: State, workers: int, round: Round): State {
    var asked := if round.pause then After(s, Pause) else s;
    LaunchFrom(asked, workers, asked.pending)
  }

  /** The scheduler over whatever its waits bring; `idle` counts the waits that brought nothing. */
  function Loop(s: State, idle: nat, workers: int, rounds: seq<Round>): Progress
    decreases |rounds|
  {
    if s.pending == [] && s.active == {} then Progress(s, Over, idle)
    else if rounds == [] then Progress(s, Waiting, idle)
    else
      var begun := Begun(s, workers, rounds[0]);
      var reaped := ReapAll(begun, rounds[0].done);
      if begun.active == {} then Progress(begun, Over, idle)
      else if Raises(reaped.trace) then Progress(reaped, Crashed, idle)
      else Loop(reaped, idle + (if reaped.active == begun.active then 1 else 0), workers, rounds[1..])
  }

  function Initial(jobs: seq<Job>, first: map<string, Status>): State {
    State(Unstarted(jobs, first, []), {}, first, false, [])
  }

  // ----- the loops -----------------------------------------------------------------------------

  /** Once the workers are busy or the scheduler has stopped, the rest of the list changes nothing. */
  lemma {:induction false} NoMoreRoom(s: State, workers: int, some: seq<Job>, k: nat)
    requires k <= |some|
    requires var m := LaunchFrom(s, workers, some[..k]); m.stopped || |m.active| >= workers
    ensures LaunchFrom(s, workers, some) == LaunchFrom(s, workers, some[..k])
    decreases |some| - k
  {
    if k < |some| {
      TakeNext(some, k);
      NoMoreRoom(s, workers, some, k + 1);
    } else {
      TakeAll(some);
    }
  }

  method Launch(s: State, workers: int) returns (n: State)
    ensures n == LaunchFrom(s, workers, s.pending)
  {
    n := s;
    for i := 0 to |s.pending|
      invariant n == LaunchFrom(s, workers, s.pending[..i])
    {
      if n.stopped || |n.active| >= workers {
        NoMoreRoom(s, workers, s.pending, i);
        return;
      }
      TakeNext(s.pending, i);
      if Satisfied(s.pending[i], n.results) {
        n := After(n, Start(s.pending[i]));
      }
    }
    TakeAll(s.pending);
  }

  lemma {:induction false} NothingAfterRaise(s: State, done: seq<(Job, Ended)>, k: nat)
    requires k <= |done| && Raises(ReapAll(s, done[..k]).trace)
    ensures ReapAll(s, done) == ReapAll(s, done[..k])
    decreases |done| - k
  {
    if k < |done| {
      TakeNext(done, k);
      NothingAfterRaise(s, done, k + 1);
    } else {
      TakeAll(done);
    }
  }

  /** A task that raised ends the loop there and then. */
  method Reap(s: State, done: seq<(Job, Ended)>) returns (n: State, raised: bool)
    requires !Raises(s.trace)
    ensures n == ReapAll(s, done) && (raised <==> Raises(n.trace))
  {
    n, raised := s, false;
    for i := 0 to |done|
      invariant !raised && !Raises(n.trace) && n == ReapAll(s, done[..i])
    {
      TakeNext(done, i);
      var (job, ended) := done[i];
      if job in n.active {
        Snoc(n.trace, EventOf(job, ended));
        n := After(n, EventOf(job, ended));
        if ended.Raised? {
          NothingAfterRaise(s, done, i + 1);
          return n, true;
        }
      }
    }
    TakeAll(done);
  }

  method Schedule(jobs: seq<Job>, workers: int, first: map<string, Status>, rounds: seq<Round>)
    returns (s: State, outcome: Outcome, idle: nat)
    ensures Progress(s, outcome, idle) == Loop(Initial(jobs, first), 0, workers, rounds)
  {
    s, idle := Initial(jobs, first), 0;
    var r := 0;
    while (s.pending != [] || s.active != {}) && r < |rounds|
      invariant r <= |rounds| && !Raises(s.trace)
      invariant Loop(Initial(jobs, first), 0, workers, rounds) == Loop(s, idle, workers, rounds[r..])
    {
      ghost var before, waited := s, idle;
      if rounds[r].pause {
        Snoc(s.trace, Pause);
        s := After(s, Pause);
      }
      var asked := s;
      s := Launch(s, workers);
      LaunchRaisesNothing(asked, workers, asked.pending);
      assert rounds[r..][0] == rounds[r] && rounds[r..][1..] == rounds[r + 1..];
      assert s == Begun(before, workers, rounds[r]);
      if s.active == {} {
        return s, Over, idle;
      }
      var active, raised := s.active, false;
      s, raised := Reap(s, rounds[r].done);
      if raised {
        return s, Crashed, idle;
      }
      idle := idle + if s.active == active then 1 else 0;
      r := r + 1;
    }
    outcome := if s.pending == [] && s.active == {} then Over else Waiting;
  }

  lemma RaisesSnoc(trace: seq<Event>, e: Event)
    ensures Raises(trace + [e]) <==> Raises(trace) || e.Raise?
  {
    Snoc(trace, e);
  }

  lemma {:induction false} LaunchRaisesNothing(s: State, workers: int, some: seq<Job>)
    ensures Raises(LaunchFrom(s, workers, some).trace) <==> Raises(s.trace)
  {
    if some != [] {
      LaunchRaisesNothing(s, workers, some[..|some| - 1]);
      RaisesSnoc(LaunchFrom(s, workers, some[..|some| - 1]).trace, Start(some[|some| - 1]));
    }
  }

  // ----- what launching, reaping and the whole loop keep -----------------------------------------

  /** `n` is `s` after the first `k` pending jobs were considered. */
  ghost predicate Launched(s: State, n: State, workers: int, k: nat)
    requires k <= |s.pending|
  {
    && n.results == s.results && n.stopped == s.stopped && (s.stopped ==> n == s)
    && |n.pending| + |n.active| == |s.pending| + |s.active|
    && (forall job :: job in n.pending ==> job in s.pending)
    && (forall i :: k <= i < |s.pending| ==> s.pending[i] in n.pending)
    && (forall i :: 0 <= i < k && s.pending[i] in n.pending ==>
          s.stopped || |n.active| >= workers || !Satisfied(s.pending[i], s.results))
  }

  lemma LaunchNext(s: State, n: State, jobs: seq<Job>, workers: int, first: map<string, Status>, k: nat)
    requires DistinctKeys(jobs) && DistinctKeys(s.pending) && Consistent(n, jobs, workers, first)
    requires k < |s.pending| && Launched(s, n, workers, k)
    requires !n.stopped && |n.active| < workers && Satisfied(s.pending[k], n.results)
    ensures Consistent(After(n, Start(s.pending[k])), jobs, workers, first)
    ensures Launched(s, After(n, Start(s.pending[k])), workers, k + 1)
  {
    StartPending(n, jobs, workers, first, s.pending[k]);
  }

  /**
   * Launching keeps the state that of a legal trace. What it leaves pending is blocked, unless the
   * workers are busy or the scheduler has stopped.
   */
  lemma {:induction false} LaunchKeeps(s: State, jobs: seq<Job>, workers: int, first: map<string, Status>, k: nat)
    requires DistinctKeys(jobs) && Consistent(s, jobs, workers, first) && k <= |s.pending|
    ensures var n := LaunchFrom(s, workers, s.pending[..k]);
            Consistent(n, jobs, workers, first) && Launched(s, n, workers, k)
  {
    if k > 0 {
      LaunchKeeps(s, jobs, workers, first, k - 1);
      TakeNext(s.pending, k - 1);
      var m := LaunchFrom(s, workers, s.pending[..k - 1]);
      if !m.stopped && |m.active| < workers && Satisfied(s.pending[k - 1], m.results) {
        PendingDistinct(jobs, first, s.trace);
        LaunchNext(s, m, jobs, workers, first, k - 1);
      } else {
        LaunchSkips(s, m, workers, k - 1);
      }
    }
  }

  lemma LaunchSkips(s: State, n: State, workers: int, k: nat)
    requires k < |s.pending| && Launched(s, n, workers, k)
    requires n.stopped || |n.active| >= workers || !Satisfied(s.pending[k], n.results)
    ensures Launched(s, n, workers, k + 1)
  {
  }

  function Jobs(done: seq<(Job, Ended)>): set<Job> {
    if done == [] then {} else Jobs(done[..|done| - 1]) + {done[|done| - 1].0}
  }

  /** `n` is `s` after taking `done`: unless one raised, every active job named there has the status it ended with. */
  ghost predicate Reaped(s: State, n: State, done: seq<(Job, Ended)>) {
    && n.pending == s.pending && n.active <= s.active
    && (!Raises(n.trace) ==> n.active == s.active - Jobs(done))
    && (forall job :: job in s.active - n.active ==>
          (job, Raised) in done
          || (job.key in n.results && (job, Returned(n.results[job.key])) in done))
    && (Raises(n.trace) ==> exists job :: job in s.active && (job, Raised) in done)
  }

  lemma ReapNext(s: State, m: State, jobs: seq<Job>, done: seq<(Job, Ended)>, job: Job, ended: Ended)
    requires DistinctKeys(jobs) && s.active <= (set x | x in jobs)
    requires Reaped(s, m, done) && !Raises(m.trace) && job in m.active
    ensures Reaped(s, After(m, EventOf(job, ended)), done + [(job, ended)])
  {
    var n, more := After(m, EventOf(job, ended)), done + [(job, ended)];
    Snoc(done, (job, ended));
    RaisesSnoc(m.trace, EventOf(job, ended));
    assert (job, ended) in more;
    forall x | x in s.active - n.active
      ensures (x, Raised) in more || (x.key in n.results && (x, Returned(n.results[x.key])) in more)
    {
      if x != job {
        assert x in s.active - m.active;
        SameKeySameJob(jobs, x, job);
      }
    }
  }

  lemma ReapSkips(s: State, m: State, done: seq<(Job, Ended)>, last: (Job, Ended))
    requires Reaped(s, m, done) && (Raises(m.trace) || last.0 !in m.active)
    ensures Reaped(s, m, done + [last])
  {
    Snoc(done, last);
  }

  lemma {:induction false} ReapKeeps(s: State, jobs: seq<Job>, workers: int, first: map<string, Status>,
                                     done: seq<(Job, Ended)>)
    requires DistinctKeys(jobs) && Consistent(s, jobs, workers, first) && !Raises(s.trace)
    ensures Consistent(ReapAll(s, done), jobs, workers, first) && Reaped(s, ReapAll(s, done), done)
  {
    if done != [] {
      var init, last := done[..|done| - 1], done[|done| - 1];
      ReapKeeps(s, jobs, workers, first, init);
      Unsnoc(done);
      var m := ReapAll(s, init);
      if Raises(m.trace) || last.0 !in m.active {
        ReapSkips(s, m, init, last);
      } else {
        StepKeeps(m, jobs, workers, first, EventOf(last.0, last.1));
        ActiveAreJobs(s, jobs, workers, first);
        ReapNext(s, m, jobs, init, last.0, last.1);
      }
    }
  }

  lemma ActiveAreJobs(s: State, jobs: seq<Job>, workers: int, first: map<string, Status>)
    requires Consistent(s, jobs, workers, first)
    ensures s.active <= set x | x in jobs
  {
    forall job | job in s.active
      ensures job in jobs
    {
      ActiveStarted(jobs, workers, first, s.trace, job);
    }
  }

  /** What brought an event that is not a start: a pause request or the end of a task. */
  predicate Brought(e: Event, round: Round) {
    match e
    case Start(_) => false
    case Pause => round.pause
    case Finish(job, status) => (job, Returned(status)) in round.done
    case Raise(job) => (job, Raised) in round.done
  }

  /** `trace` continues `before`, and each pause, result and crash new in it was brought by one of the rounds. */
  ghost predicate AllBrought(before: seq<Event>, trace: seq<Event>, rounds: seq<Round>) {
    && |before| <= |trace| && trace[..|before|] == before
    && (forall i :: |before| <= i < |trace| && !trace[i].Start? ==>
          exists r :: 0 <= r < |rounds| && Brought(trace[i], rounds[r]))
  }

  /** `trace` continues `before`, and one round brought everything new in it but the starts. */
  ghost predicate Continues(before: seq<Event>, trace: seq<Event>, round: Round) {
    && |before| <= |trace| && trace[..|before|] == before
    && (forall i :: |before| <= i < |trace| && !trace[i].Start? ==> Brought(trace[i], round))
  }

  lemma ContinuesSnoc(before: seq<Event>, trace: seq<Event>, e: Event, round: Round)
    requires Continues(before, trace, round) && (e.Start? || Brought(e, round))
    ensures Continues(before, trace + [e], round)
  {
    assert (trace + [e])[..|before|] == trace[..|before|];
  }

  lemma {:induction false} LaunchContinues(before: seq<Event>, s: State, workers: int, some: seq<Job>, round: Round)
    requires Continues(before, s.trace, round)
    ensures Continues(before, LaunchFrom(s, workers, some).trace, round)
  {
    if some != [] {
      var m := LaunchFrom(s, workers, some[..|some| - 1]);
      LaunchContinues(before, s, workers, some[..|some| - 1], round);
      ContinuesSnoc(before, m.trace, Start(some[|some| - 1]), round);
    }
  }

  lemma {:induction false} ReapContinues(before: seq<Event>, s: State, done: seq<(Job, Ended)>, round: Round)
    requires Continues(before, s.trace, round) && forall d :: d in done ==> d in round.done
    ensures Continues(before, ReapAll(s, done).trace, round)
  {
    if done != [] {
      var init, last := done[..|done| - 1], done[|done| - 1];
      Unsnoc(done);
      ReapContinues(before, s, init, round);
      ContinuesSnoc(before, ReapAll(s, init).trace, EventOf(last.0, last.1), round);
    }
  }

  lemma RoundContinues(s: State, workers: int, round: Round)
    ensures Continues(s.trace, Begun(s, workers, round).trace, round)
    ensures Continues(s.trace, ReapAll(Begun(s, workers, round), round.done).trace, round)
  {
    var asked := if round.pause then After(s, Pause) else s;
    assert Continues(s.trace, asked.trace, round);
    LaunchContinues(s.trace, asked, workers, asked.pending, round);
    ReapContinues(s.trace, Begun(s, workers, round), round.done, round);
  }

  lemma FirstRound(before: seq<Event>, trace: seq<Event>, rounds: seq<Round>)
    requires rounds != [] && Continues(before, trace, rounds[0])
    ensures AllBrought(before, trace, rounds)
  {
  }

  lemma LaterRounds(before: seq<Event>, mid: seq<Event>, trace: seq<Event>, rounds: seq<Round>)
    requires rounds != [] && Continues(before, mid, rounds[0]) && AllBrought(mid, trace, rounds[1..])
    ensures AllBrought(before, trace, rounds)
  {
    assert trace[..|mid|][..|before|] == trace[..|before|];
    forall i | |before| <= i < |trace| && !trace[i].Start?
      ensures exists r :: 0 <= r < |rounds| && Brought(trace[i], rounds[r])
    {
      if i < |mid| {
        assert trace[..|mid|][i] == mid[i] && Brought(mid[i], rounds[0]);
      } else {
        var r :| 0 <= r < |rounds[1..]| && Brought(trace[i], rounds[1..][r]);
        assert rounds[1..][r] == rounds[r + 1];
      }
    }
  }

  /** Nothing happens that no wait brought: every pause, result and crash of the run is one of its rounds'. */
  lemma {:induction false} EventsAreBrought(s: State, idle: nat, workers: int, rounds: seq<Round>)
    ensures AllBrought(s.trace, Loop(s, idle, workers, rounds).s.trace, rounds)
    decreases |rounds|
  {
    if (s.pending != [] || s.active != {}) && rounds != [] {
      var begun := Begun(s, workers, rounds[0]);
      var reaped := ReapAll(begun, rounds[0].done);
      RoundContinues(s, workers, rounds[0]);
      if begun.active == {} {
        FirstRound(s.trace, begun.trace, rounds);
      } else if Raises(reaped.trace) {
        FirstRound(s.trace, reaped.trace, rounds);
      } else {
        EventsAreBrought(reaped, idle + (if reaped.active == begun.active then 1 else 0), workers, rounds[1..]);
        LaterRounds(s.trace, reaped.trace, Loop(s, idle, workers, rounds).s.trace, rounds);
      }
    }
  }

  /** How a loop from `s` may have ended. */
  ghost predicate Finishes(s: State, idle: nat, workers: int, rounds: nat, p: Progress) {
    && p.idle >= idle
    && (p.outcome.Crashed? <==> Raises(p.s.trace))
    && (p.outcome.Over? ==> p.s.active == {}
                            && (p.s.stopped || workers <= 0 || forall job :: job in p.s.pending ==>
                                !Satisfied(job, p.s.results)))
    && (p.outcome.Waiting? ==> rounds + |p.s.pending| + |p.s.active| <= p.idle - idle + |s.pending| + |s.active|)
  }

  lemma BegunKeeps(s: State, jobs: seq<Job>, workers: int, first: map<string, Status>, round: Round)
    requires DistinctKeys(jobs) && Consistent(s, jobs, workers, first) && !Raises(s.trace)
    ensures var n := Begun(s, workers, round);
            && Consistent(n, jobs, workers, first) && !Raises(n.trace)
            && |n.pending| + |n.active| == |s.pending| + |s.active|
            && (n.stopped <==> s.stopped || round.pause)
            && (n.stopped || |n.active| >= workers || forall job :: job in n.pending ==> !Satisfied(job, n.results))
  {
    var asked := if round.pause then After(s, Pause) else s;
    if round.pause {
      StepKeeps(s, jobs, workers, first, Pause);
      RaisesSnoc(s.trace, Pause);
    }
    LaunchKeeps(asked, jobs, workers, first, |asked.pending|);
    TakeAll(asked.pending);
    LaunchRaisesNothing(asked, workers, asked.pending);
    var n := Begun(s, workers, round);
    forall job | job in n.pending
      ensures n.stopped || |n.active| >= workers || !Satisfied(job, n.results)
    {
      var i :| 0 <= i < |asked.pending| && asked.pending[i] == job;
    }
  }

  /** One more wait before the rest of the run. */
  lemma FinishesLater(s: State, reaped: State, begun: State, idle: nat, waited: nat, workers: int, rounds: nat,
                      p: Progress)
    requires Finishes(reaped, waited, workers, rounds, p)
    requires waited == idle + (if reaped.active == begun.active then 1 else 0)
    requires reaped.pending == begun.pending && reaped.active <= begun.active
    requires |begun.pending| + |begun.active| == |s.pending| + |s.active|
    ensures Finishes(s, idle, workers, rounds + 1, p)
  {
    ProperlyLarger(reaped.active, begun.active);
  }

  lemma FinishesNow(s: State, idle: nat, workers: int, rounds: nat, p: Progress)
    requires p.idle == idle && !p.outcome.Waiting? && (p.outcome.Crashed? <==> Raises(p.s.trace))
    requires p.outcome.Over? ==> p.s.active == {}
                                 && (p.s.stopped || workers <= 0
                                     || forall job :: job in p.s.pending ==> !Satisfied(job, p.s.results))
    ensures Finishes(s, idle, workers, rounds, p)
  {
  }

  lemma FinishesAtOnce(s: State, idle: nat, workers: int, rounds: seq<Round>)
    requires (s.pending == [] && s.active == {}) || rounds == []
    requires !Raises(s.trace)
    ensures Loop(s, idle, workers, rounds).s == s
            && Finishes(s, idle, workers, |rounds|, Loop(s, idle, workers, rounds))
  {
  }

  /** How one wait continues: the run ends in it, or goes on with the waits after it. */
  lemma LoopOnce(s: State, begun: State, reaped: State, idle: nat, waited: nat, workers: int, rounds: seq<Round>)
    requires (s.pending != [] || s.active != {}) && rounds != []
    requires begun == Begun(s, workers, rounds[0]) && reaped == ReapAll(begun, rounds[0].done)
    requires waited == idle + (if reaped.active == begun.active then 1 else 0)
    ensures Loop(s, idle, workers, rounds)
            == if begun.active == {} then Progress(begun, Over, idle)
               else if Raises(reaped.trace) then Progress(reaped, Crashed, idle)
               else Loop(reaped, waited, workers, rounds[1..])
  {
  }

  ghost predicate Kept(s: State, idle: nat, jobs: seq<Job>, workers: int, first: map<string, Status>, rounds: nat,
                       p: Progress) {
    Consistent(p.s, jobs, workers, first) && Finishes(s, idle, workers, rounds, p)
  }

  /** The whole loop keeps the state that of a legal trace, and each wait that is not idle ends a job. */
  lemma {:induction false} LoopKeeps(s: State, idle: nat, jobs: seq<Job>, workers: int, first: map<string, Status>,
                                     rounds: seq<Round>)
    requires DistinctKeys(jobs) && Consistent(s, jobs, workers, first) && !Raises(s.trace)
    ensures Kept(s, idle, jobs, workers, first, |rounds|, Loop(s, idle, workers, rounds))
    decreases |rounds|
  {
    if (s.pending == [] && s.active == {}) || rounds == [] {
      FinishesAtOnce(s, idle, workers, rounds);
    } else {
      var begun := Begun(s, workers, rounds[0]);
      var reaped := ReapAll(begun, rounds[0].done);
      var waited := idle + (if reaped.active == begun.active then 1 else 0);
      BegunKeeps(s, jobs, workers, first, rounds[0]);
      ReapKeeps(begun, jobs, workers, first, rounds[0].done);
      LoopOnce(s, begun, reaped, idle, waited, workers, rounds);
      if begun.active != {} && !Raises(reaped.trace) {
        LoopKeeps(reaped, waited, jobs, workers, first, rounds[1..]);
      }
      RoundKeeps(s, begun, reaped, idle, waited, jobs, workers, first, |rounds| - 1,
                 Loop(s, idle, workers, rounds), Loop(reaped, waited, workers, rounds[1..]));
    }
  }

  lemma RoundKeeps(s: State, begun: State, reaped: State, idle: nat, waited: nat, jobs: seq<Job>, workers: int,
                   first: map<string, Status>, rounds: nat, p: Progress, later: Progress)
    requires Consistent(begun, jobs, workers, first) && Consistent(reaped, jobs, workers, first) && !Raises(begun.trace)
    requires |begun.pending| + |begun.active| == |s.pending| + |s.active|
    requires begun.stopped || |begun.active| >= workers || forall job :: job in begun.pending ==>
               !Satisfied(job, begun.results)
    requires reaped.pending == begun.pending && reaped.active <= begun.active
    requires waited == idle + (if reaped.active == begun.active then 1 else 0)
    requires p == if begun.active == {} then Progress(begun, Over, idle)
                  else if Raises(reaped.trace) then Progress(reaped, Crashed, idle)
                  else later
    requires begun.active != {} && !Raises(reaped.trace) ==> Kept(reaped, waited, jobs, workers, first, rounds, later)
    ensures Kept(s, idle, jobs, workers, first, rounds + 1, p)
  {
    if begun.active == {} || Raises(reaped.trace) {
      FinishesNow(s, idle, workers, rounds + 1, p);
    } else {
      FinishesLater(s, reaped, begun, idle, waited, workers, rounds, later);
    }
  }

  // ----- nothing is lost, and a healthy sweep finishes ---------------------------------------

  lemma {:induction false} StartedFate(jobs: seq<Job>, workers: int, first: map<string, Status>, trace: seq<Event>,
                                       job: Job)
    requires DistinctKeys(jobs) && Legal(jobs, workers, first, trace) && job in jobs && job.key !in first
    ensures Start(job) in trace <==> job in Active(trace) || job.key in Results(first, trace) || Raise(job) in trace
    ensures job in Active(trace) ==> job.key !in Results(first, trace) && Raise(job) !in trace
    ensures Raise(job) in trace ==> job.key !in Results(first, trace)
  {
    if trace != [] {
      var init, e := trace[..|trace| - 1], trace[|trace| - 1];
      StartedFate(jobs, workers, first, init, job);
      Unsnoc(trace);
      if e.Finish? || e.Raise? {
        ActiveStarted(jobs, workers, first, init, e.job);
        SameKeySameJob(jobs, job, e.job);
      } else if e.Start? {
        UnstartedIs(jobs, first, init, e.job);
      }
    }
  }

  lemma SameKeySameJob(jobs: seq<Job>, a: Job, b: Job)
    requires DistinctKeys(jobs) && a in jobs && b in jobs
    ensures a.key == b.key ==> a == b
  {
    var i :| 0 <= i < |jobs| && jobs[i] == a;
    var j :| 0 <= j < |jobs| && jobs[j] == b;
    assert i < j || j < i || i == j;
  }

  /** Every job has exactly one place: done before or now, pending, active, or raised. */
  lemma NothingIsLost(s: State, jobs: seq<Job>, workers: int, first: map<string, Status>, job: Job)
    requires DistinctKeys(jobs) && Consistent(s, jobs, workers, first) && job in jobs
    ensures job.key in s.results || job in s.pending || job in s.active || Raise(job) in s.trace
    ensures job.key in s.results ==> job !in s.pending && job !in s.active && Raise(job) !in s.trace
    ensures job in s.pending ==> job !in s.active && Raise(job) !in s.trace
    ensures job in s.active ==> Raise(job) !in s.trace
  {
    UnstartedIs(jobs, first, s.trace, job);
    if job.key in first {
      FirstStays(jobs, workers, first, s.trace, job);
    } else {
      StartedFate(jobs, workers, first, s.trace, job);
    }
  }

  lemma {:induction false} FirstStays(jobs: seq<Job>, workers: int, first: map<string, Status>, trace: seq<Event>,
                                      job: Job)
    requires DistinctKeys(jobs) && Legal(jobs, workers, first, trace) && job in jobs && job.key in first
    ensures job.key in Results(first, trace) && Results(first, trace)[job.key] == first[job.key]
    ensures job !in Active(trace) && Raise(job) !in trace
  {
    if trace != [] {
      var init, e := trace[..|trace| - 1], trace[|trace| - 1];
      FirstStays(jobs, workers, first, init, job);
      Unsnoc(trace);
      if e.Finish? || e.Raise? {
        ActiveStarted(jobs, workers, first, init, e.job);
      } else if e.Start? {
        UnstartedIs(jobs, first, init, e.job);
      }
    }
  }

  lemma {:induction false} UnlessStopped(first: map<string, Status>, trace: seq<Event>, key: string)
    requires !Stopped(trace) && key in Results(first, trace) && Results(first, trace)[key] != Completed
    ensures key in first && first[key] != Completed
  {
    if trace != [] {
      UnlessStopped(first, trace[..|trace| - 1], key);
    }
  }

  lemma {:induction false} RaisesIff(trace: seq<Event>, job: Job)
    requires Raise(job) in trace
    ensures Raises(trace)
  {
    Unsnoc(trace);
    if trace[|trace| - 1] != Raise(job) {
      RaisesIff(trace[..|trace| - 1], job);
    }
  }

  /** Every dependency is a job of the plan, and `rank` shows they form no cycle. */
  ghost predicate Acyclic(jobs: seq<Job>, rank: string -> nat) {
    forall job :: job in jobs && job.dependency !in {None, Some("")} ==>
      exists before :: before in jobs && before.key == job.dependency.value && rank(before.key) < rank(job.key)
  }

  lemma {:induction false} NonePendingBelow(s: State, jobs: seq<Job>, workers: int, first: map<string, Status>,
                                            rank: string -> nat, bound: nat, job: Job)
    requires DistinctKeys(jobs) && Consistent(s, jobs, workers, first) && Acyclic(jobs, rank)
    requires s.active == {} && !s.stopped && !Raises(s.trace)
    requires forall j :: j in s.pending ==> !Satisfied(j, s.results)
    requires forall key :: key in first ==> first[key] == Completed
    requires job in jobs && rank(job.key) < bound
    ensures job !in s.pending && job.key in s.results && s.results[job.key] == Completed
    decreases bound
  {
    NothingIsLost(s, jobs, workers, first, job);
    if Raise(job) in s.trace {
      RaisesIff(s.trace, job);
    }
    if job in s.pending {
      var before :| before in jobs && before.key == job.dependency.value && rank(before.key) < rank(job.key);
      NonePendingBelow(s, jobs, workers, first, rank, bound - 1, before);
    } else if s.results[job.key] != Completed {
      UnlessStopped(first, s.trace, job.key);
    }
  }

  /**
   * With acyclic dependencies and at least one worker, a scheduler that is over without a pause, a
   * failure or a crash has completed every job.
   */
  lemma EveryJobCompletes(s: State, jobs: seq<Job>, workers: int, first: map<string, Status>, rank: string -> nat)
    requires DistinctKeys(jobs) && Consistent(s, jobs, workers, first) && Acyclic(jobs, rank)
    requires s.active == {} && !s.stopped && !Raises(s.trace)
    requires forall j :: j in s.pending ==> !Satisfied(j, s.results)
    requires forall key :: key in first ==> first[key] == Completed
    ensures forall job :: job in jobs ==> job !in s.pending && job.key in s.results && s.results[job.key] == Completed
  {
    forall job | job in jobs
      ensures job !in s.pending && job.key in s.results && s.results[job.key] == Completed
    {
      NonePendingBelow(s, jobs, workers, first, rank, rank(job.key) + 1, job);
    }
  }

  /** No pause is asked for, no task raises and every task that ends has completed. */
  predicate Clean(rounds: seq<Round>) {
    forall r :: 0 <= r < |rounds| ==>
      !rounds[r].pause && forall d :: d in rounds[r].done ==> d.1 == Returned(Completed)
  }

  lemma {:induction false} CleanStaysHealthy(trace: seq<Event>, rounds: seq<Round>)
    requires Clean(rounds) && AllBrought([], trace, rounds)
    ensures !Stopped(trace) && !Raises(trace)
  {
    if trace != [] {
      var init, e := trace[..|trace| - 1], trace[|trace| - 1];
      forall i | 0 <= i < |init| && !init[i].Start?
        ensures exists r :: 0 <= r < |rounds| && Brought(init[i], rounds[r])
      {
        assert trace[i] == init[i];
      }
      CleanStaysHealthy(init, rounds);
      if !e.Start? {
        var r :| 0 <= r < |rounds| && Brought(trace[|trace| - 1], rounds[r]);
      }
    }
  }

  lemma InitialIsConsistent(jobs: seq<Job>, workers: int, first: map<string, Status>)
    ensures Consistent(Initial(jobs, first), jobs, workers, first)
    ensures |Initial(jobs, first).pending| <= |jobs|
  {
    UnstartedShorter(jobs, first, []);
  }

  lemma {:induction false} UnstartedShorter(jobs: seq<Job>, first: map<string, Status>, trace: seq<Event>)
    ensures |Unstarted(jobs, first, trace)| <= |jobs|
  {
    if jobs != [] {
      UnstartedShorter(jobs[..|jobs| - 1], first, trace);
    }
  }

  /**
   * From the inputs alone: with acyclic dependencies, at least one worker, waits that ask for no pause
   * and bring only completed tasks, and more of them than jobs besides the idle ones, the scheduler is
   * over and every job has completed.
   */
  lemma CleanSweepCompletes(jobs: seq<Job>, workers: int, first: map<string, Status>, rounds: seq<Round>,
                            rank: string -> nat)
    requires DistinctKeys(jobs) && Acyclic(jobs, rank) && workers > 0 && Clean(rounds)
    requires forall key :: key in first ==> first[key] == Completed
    requires |rounds| > |jobs| + Loop(Initial(jobs, first), 0, workers, rounds).idle
    ensures var p := Loop(Initial(jobs, first), 0, workers, rounds);
            p.outcome.Over? && forall job :: job in jobs ==> job.key in p.s.results && p.s.results[job.key] == Completed
  {
    var start := Initial(jobs, first);
    var p := Loop(start, 0, workers, rounds);
    InitialIsConsistent(jobs, workers, first);
    LoopKeeps(start, 0, jobs, workers, first, rounds);
    EventsAreBrought(start, 0, workers, rounds);
    CleanStaysHealthy(p.s.trace, rounds);
    EveryJobCompletes(p.s, jobs, workers, first, rank);
  }
}
