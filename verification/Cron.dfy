/** The schedule of a job that runs every so often, counted from an anchor. Times and durations are whole
    nanoseconds; the anchor, the interval and the stored time of the last run are whole milliseconds. */
module Cron {
  import opened Options

  const MS := 1_000_000
  const MAX_BACKOFF := 4 * 3600 * 1000 * MS

  const HOUR := 3600 * 1000 * MS

  /** What a spec string such as @daily stands for when it is consulted: the next time and the interval, if it can be
      read. */
  datatype Spec = Spec(next: Option<int>, interval: Option<int>)

  /** A job with a positive everyMs runs every so often; any other falls back on its spec, if it has one. */
  datatype Schedule = Schedule(anchorMs: int, everyMs: int, wakeNow: bool, spec: Option<Spec>)

  /** lastRunAtMs is 0 when the job has not run. */
  datatype JobState = JobState(lastRunAtMs: int, consecutiveErrors: nat)

  predicate Proper(s: Schedule) {
    s.everyMs > 0
  }

  function Anchor(s: Schedule): int {
    s.anchorMs * MS
  }

  function Interval(s: Schedule): (r: int)
    requires Proper(s)
    ensures r > 0
  {
    s.everyMs * MS
  }

  /** The slot a time falls in; slot 0 begins at the anchor. */
  function Slot(s: Schedule, t: int): int
    requires Proper(s)
  {
    (t - Anchor(s)) / Interval(s)
  }

  function SlotStart(s: Schedule, slot: int): int
    requires Proper(s)
  {
    Anchor(s) + slot * Interval(s)
  }

  /** now and later are the two readings of the clock. */
  function ComputeNextWait(s: Schedule, st: JobState, now: int, later: int): int {
    if !Proper(s) then
      match s.spec
      case Some(Spec(Some(next), _)) => next - later
      case _ => HOUR
    else if now < Anchor(s) then Anchor(s) - later
    else
      var periods := (now - Anchor(s)) / Interval(s);
      var nextRun := Anchor(s) + (periods + 1) * Interval(s);
      if s.wakeNow && st.lastRunAtMs > 0 && st.lastRunAtMs * MS < Anchor(s) + periods * Interval(s) then 0
      else if s.wakeNow && st.lastRunAtMs == 0 then 0
      else nextRun - later
  }

  function Power2(n: nat): (r: int)
    ensures r > 0
  {
    if n == 0 then 1 else 2 * Power2(n - 1)
  }

  function BackoffDelay(consecutiveErrors: int, base: int): int {
    if consecutiveErrors <= 0 then 0
    else
      var exp := if consecutiveErrors - 1 > 10 then 10 else consecutiveErrors - 1;
      var delay := base * Power2(exp);
      if delay > MAX_BACKOFF then MAX_BACKOFF else delay
  }

  /** The interval that backoff starts from. */
  function BackoffBase(s: Schedule): int {
    if Proper(s) then Interval(s)
    else
      match s.spec
      case Some(Spec(_, Some(interval))) => interval
      case _ => HOUR
  }

  function Max0(x: int): nat {
    if x < 0 then 0 else x
  }

  /** The timer's duration. */
  function TimerWait(s: Schedule, st: JobState, now: int, later: int): int {
    Max0(ComputeNextWait(s, st, now, later)) + Max0(BackoffDelay(st.consecutiveErrors, BackoffBase(s)))
  }

  function AfterRun(st: JobState, start: int, failed: bool): JobState {
    JobState(start / MS, if failed then st.consecutiveErrors + 1 else 0)
  }

  class Job {
    const schedule: Schedule
    var state: JobState
    var nextRunAtMs: int

    constructor (schedule: Schedule, state: JobState)
      ensures this.schedule == schedule && this.state == state
    {
      this.schedule, this.state, this.nextRunAtMs := schedule, state, 0;
    }

    /** Computes the timer's duration; setAt is when the timer is set. */
    method ScheduleJob(now: int, later: int, setAt: int) returns (wait: int)
      modifies this`nextRunAtMs
      ensures wait == TimerWait(schedule, state, now, later)
      ensures nextRunAtMs == (setAt + wait) / MS
    {
      wait := ComputeNextWait(schedule, state, now, later);
      if wait < 0 {
        wait := 0;
      }
      if state.consecutiveErrors > 0 {
        var bo := BackoffDelay(state.consecutiveErrors, BackoffBase(schedule));
        if bo > 0 {
          wait := wait + bo;
        }
      }
      nextRunAtMs := (setAt + wait) / MS;
    }

    method Record(start: int, failed: bool)
      modifies this`state
      ensures state == AfterRun(old(state), start, failed)
    {
      state := state.(lastRunAtMs := start / MS);
      if failed {
        state := state.(consecutiveErrors := state.consecutiveErrors + 1);
      } else {
        state := state.(consecutiveErrors := 0);
      }
    }
  }

  // ---------------------------------------------------------------- arithmetic of slots

  lemma MulLess(a: int, b: int, c: int)
    requires c > 0
    ensures a <= b <==> a * c <= b * c
  {
    if a <= b {
      assert (b - a) * c >= 0;
    } else {
      assert (a - b) * c > 0;
    }
  }

  lemma DivideSpan(x: int, d: int)
    requires d > 0
    ensures (x / d) * d <= x < (x / d + 1) * d
  {
    assert x == (x / d) * d + x % d;
  }

  lemma SlotSpan(s: Schedule, t: int)
    requires Proper(s)
    ensures SlotStart(s, Slot(s, t)) <= t < SlotStart(s, Slot(s, t) + 1)
  {
    DivideSpan(t - Anchor(s), Interval(s));
  }

  /** A time lies at or after the start of a slot exactly when its own slot is that one or a later one. */
  lemma SlotOrder(s: Schedule, t: int, slot: int)
    requires Proper(s)
    ensures SlotStart(s, slot) <= t <==> slot <= Slot(s, t)
  {
    SlotSpan(s, t);
    MulLess(slot, Slot(s, t), Interval(s));
    MulLess(Slot(s, t) + 1, slot, Interval(s));
  }

  /** Keeping whole milliseconds of a time does not move it across a slot boundary. */
  lemma MillisecondsSuffice(s: Schedule, t: int, slot: int)
    requires Proper(s)
    ensures (t / MS) * MS < SlotStart(s, slot) <==> t < SlotStart(s, slot)
  {
    var b := s.anchorMs + slot * s.everyMs;
    assert SlotStart(s, slot) == b * MS by {
      Regroup(slot, s.everyMs, MS);
    }
    DivideSpan(t, MS);
  }

  lemma Regroup(a: int, b: int, c: int)
    ensures a * (b * c) == (a * b) * c
  {
  }

  // ---------------------------------------------------------------- backoff

  lemma BackoffPositive(errors: int, base: int)
    requires base > 0
    ensures BackoffDelay(errors, base) >= 0
    ensures errors > 0 ==> BackoffDelay(errors, base) > 0
  {
    if errors > 0 {
      var exp := if errors - 1 > 10 then 10 else errors - 1;
      MulLess(0, Power2(exp) - 1, base);
      assert base * Power2(exp) == (Power2(exp) - 1) * base + base;
    }
  }

  /** The first failure waits one interval, each further one doubles the wait, the eleventh is the last to do so,
      and four hours is the most it gets. */
  lemma BackoffGrows(errors: nat, base: int)
    requires base > 0 && errors > 0
    ensures BackoffDelay(1, base) == if base > MAX_BACKOFF then MAX_BACKOFF else base
    ensures BackoffDelay(errors, base) <= BackoffDelay(errors + 1, base) <= MAX_BACKOFF
    ensures BackoffDelay(errors + 1, base) ==
            if errors > 10 then BackoffDelay(errors, base)
            else if 2 * BackoffDelay(errors, base) > MAX_BACKOFF then MAX_BACKOFF
            else 2 * BackoffDelay(errors, base)
  {
    BackoffPositive(errors, base);
    if errors <= 10 {
      var p := Power2(errors - 1);
      assert Power2(errors) == 2 * p;
      Twice(base, p);
      assert base * p > 0 by {
        MulLess(1, p, base);
      }
    }
  }

  lemma Twice(a: int, b: int)
    ensures a * (2 * b) == 2 * (a * b)
  {
  }

  /** What the timer is set to: the wait of a job without errors, never negative, and for a job with errors its base
      interval on top, doubled by each error after the first up to the eleventh, with four hours as the most. */
  lemma TimerWaitMeans(s: Schedule, st: JobState, now: int, later: int, base: int)
    requires base > 0
    requires if s.everyMs > 0 then base == s.everyMs * 1_000_000
             else if s.spec.Some? && s.spec.value.interval.Some? then base == s.spec.value.interval.value
             else base == 3_600_000_000_000
    ensures var wait := ComputeNextWait(s, st, now, later);
            var doublings: nat := if st.consecutiveErrors > 11 then 10 else if st.consecutiveErrors == 0 then 0
                                  else st.consecutiveErrors - 1;
            var backoff := if base * Power2(doublings) > 14_400_000_000_000 then 14_400_000_000_000
                           else base * Power2(doublings);
            TimerWait(s, st, now, later)
            == (if wait > 0 then wait else 0) + (if st.consecutiveErrors > 0 then backoff else 0)
  {
    BackoffPositive(st.consecutiveErrors, base);
  }

  /** A job with an interval waits for its anchor; one without waits for the next time of its spec, or an hour. */
  lemma OtherWaits(s: Schedule, st: JobState, now: int, later: int)
    ensures s.everyMs > 0 && now < s.anchorMs * 1_000_000 ==>
              ComputeNextWait(s, st, now, later) == s.anchorMs * 1_000_000 - later
    ensures s.everyMs <= 0 ==>
              ComputeNextWait(s, st, now, later)
              == if s.spec.Some? && s.spec.value.next.Some? then s.spec.value.next.value - later else 3_600_000_000_000
  {
  }

  function AfterRuns(st: JobState, rs: seq<Round>): JobState {
    if rs == [] then st
    else AfterRun(AfterRuns(st, rs[..|rs| - 1]), rs[|rs| - 1].start, rs[|rs| - 1].failed)
  }

  /** The state counts the failures since the last success and keeps the last start in whole milliseconds. */
  lemma {:induction false} ErrorsAreInARow(st: JobState, rs: seq<Round>, n: nat)
    requires n <= |rs| && rs != []
    requires (forall i :: |rs| - n <= i < |rs| ==> rs[i].failed) && (n < |rs| ==> !rs[|rs| - n - 1].failed)
    ensures AfterRuns(st, rs).consecutiveErrors == if n == |rs| then st.consecutiveErrors + n else n
    ensures AfterRuns(st, rs).lastRunAtMs == rs[|rs| - 1].start / 1_000_000
  {
    if n > 0 && |rs| > 1 {
      ErrorsAreInARow(st, rs[..|rs| - 1], n - 1);
    }
  }

  // ---------------------------------------------------------------- one round of the job's own timer

  /** One round: three clock readings while the timer is set, the start of the run, its end, its outcome. */
  datatype Round = Round(now: int, later: int, setAt: int, start: int, end: int, failed: bool)

  /** A timer never fires early; it may fire late. */
  ghost predicate Timed(s: Schedule, st: JobState, r: Round)
    requires Proper(s)
  {
    r.now <= r.later <= r.setAt && r.setAt + TimerWait(s, st, r.now, r.later) <= r.start <= r.end
  }

  /** A run of a job driven by its own timer alone. */
  ghost predicate TimerRun(s: Schedule, st: JobState, rs: seq<Round>)
    requires Proper(s)
    decreases |rs|
  {
    rs == [] || (
      && Timed(s, st, rs[0])
      && (|rs| > 1 ==> rs[0].end <= rs[1].now)
      && TimerRun(s, AfterRun(st, rs[0].start, rs[0].failed), rs[1..]))
  }

  /** Without backoff or with it, a round starts at or after the anchor and not before the timer is set. */
  lemma StartsAfterAnchor(s: Schedule, st: JobState, r: Round)
    requires Proper(s) && Timed(s, st, r)
    ensures r.start >= Anchor(s) && r.start >= r.setAt && Slot(s, r.start) >= 0
  {
    BackoffPositive(st.consecutiveErrors, Interval(s));
    SlotOrder(s, r.start, 0);
  }

  /** Unless the wait is cut short by a missed run, the round starts in a slot after the present one. */
  lemma WaitsForNextSlot(s: Schedule, st: JobState, r: Round)
    requires Proper(s) && Timed(s, st, r) && Anchor(s) <= r.now
    requires ComputeNextWait(s, st, r.now, r.later) == SlotStart(s, Slot(s, r.now) + 1) - r.later
    ensures Slot(s, r.start) > Slot(s, r.now)
  {
    BackoffPositive(st.consecutiveErrors, Interval(s));
    SlotOrder(s, r.start, Slot(s, r.now) + 1);
  }

  /** With wake mode "now" the wait is cut short exactly when the present slot has seen no run. */
  lemma FiresNowIfMissed(s: Schedule, st: JobState, lastStart: int, now: int, later: int)
    requires Proper(s) && Anchor(s) <= now <= later
    requires st.lastRunAtMs == lastStart / MS
    ensures ComputeNextWait(s, st, now, later) ==
            if s.wakeNow && (0 <= lastStart < MS || (lastStart >= MS && Slot(s, lastStart) < Slot(s, now))) then 0
            else SlotStart(s, Slot(s, now) + 1) - later
  {
    MillisecondsSuffice(s, lastStart, Slot(s, now));
    SlotOrder(s, lastStart, Slot(s, now));
  }

  /** A start the state cannot tell from "never run": the first millisecond of 1970, under wake mode "now". */
  predicate LooksUnrun(s: Schedule, start: int) {
    s.wakeNow && 0 <= start < MS
  }

  /** After a start, the next round starts in a later slot. */
  lemma NextSlotIsLater(s: Schedule, st: JobState, start: int, failed: bool, r: Round)
    requires Proper(s) && !LooksUnrun(s, start)
    requires start <= r.now && Timed(s, AfterRun(st, start, failed), r)
    ensures Slot(s, r.start) > Slot(s, start)
  {
    var st' := AfterRun(st, start, failed);
    StartsAfterAnchor(s, st', r);
    if r.now < Anchor(s) {
      SlotOrder(s, start, 0);
    } else {
      SlotOrder(s, r.now, Slot(s, start));
      SlotSpan(s, start);
      FiresNowIfMissed(s, st', start, r.now, r.later);
      if s.wakeNow && start >= MS && Slot(s, start) < Slot(s, r.now) {
        SlotSpan(s, r.now);
        SlotOrder(s, r.start, Slot(s, r.now));
      } else {
        WaitsForNextSlot(s, st', r);
      }
    }
  }

  ghost predicate SomeRoundRepeats(s: Schedule, st: JobState, start: int)
    requires Proper(s)
  {
    exists r: Round, failed :: start <= r.now && Timed(s, AfterRun(st, start, failed), r)
        && Slot(s, r.start) <= Slot(s, start)
  }

  /** The next round can repeat the slot of a start exactly when that start looks like no run at all. */
  lemma RepeatsOnlyIfUnrun(s: Schedule, st: JobState, start: int)
    requires Proper(s) && Anchor(s) <= start
    ensures SomeRoundRepeats(s, st, start) <==> LooksUnrun(s, start)
  {
    if LooksUnrun(s, start) {
      var r := Round(start, start, start, start, start, false);
      assert Timed(s, AfterRun(st, start, false), r);
    } else {
      forall r: Round, failed | start <= r.now && Timed(s, AfterRun(st, start, failed), r)
        ensures Slot(s, r.start) > Slot(s, start)
      {
        NextSlotIsLater(s, st, start, failed, r);
      }
    }
  }

  // ---------------------------------------------------------------- whole runs

  /** In every run, for both wake modes, with any failures and any lateness, the starts are in ever later slots. */
  lemma {:induction false} SlotsIncrease(s: Schedule, st: JobState, rs: seq<Round>, i: nat, j: nat)
    requires Proper(s) && TimerRun(s, st, rs) && i < j < |rs|
    requires forall k :: 0 <= k < |rs| ==> !LooksUnrun(s, rs[k].start)
    ensures 0 <= Slot(s, rs[i].start) < Slot(s, rs[j].start)
    decreases |rs|
  {
    var rest, st' := rs[1..], AfterRun(st, rs[0].start, rs[0].failed);
    if i > 0 {
      SlotsIncrease(s, st', rest, i - 1, j - 1);
    } else {
      StartsAfterAnchor(s, st, rs[0]);
      NextSlotIsLater(s, st, rs[0].start, rs[0].failed, rest[0]);
      if j > 1 {
        SlotsIncrease(s, st', rest, 0, j - 1);
      }
    }
  }

  /** After the clock has left 1970's first millisecond, no slot sees two starts. */
  lemma AtMostOncePerSlot(s: Schedule, st: JobState, rs: seq<Round>, i: nat, j: nat)
    requires Proper(s) && TimerRun(s, st, rs) && i < |rs| && j < |rs|
    requires forall k :: 0 <= k < |rs| ==> !LooksUnrun(s, rs[k].start)
    ensures Slot(s, rs[i].start) == Slot(s, rs[j].start) ==> i == j
  {
    if i < j {
      SlotsIncrease(s, st, rs, i, j);
    } else if j < i {
      SlotsIncrease(s, st, rs, j, i);
    }
  }

  /** A punctual timer without failures starts the job exactly at the start of the next slot. */
  lemma PunctualStartIsAligned(s: Schedule, st: JobState, lastStart: int, r: Round)
    requires Proper(s) && Anchor(s) <= lastStart <= r.now && !LooksUnrun(s, lastStart)
    requires st == JobState(lastStart / MS, 0) && Slot(s, r.now) == Slot(s, lastStart)
    requires r.now <= r.later == r.setAt <= SlotStart(s, Slot(s, r.now) + 1)
    requires r.start == r.setAt + TimerWait(s, st, r.now, r.later)
    ensures r.start == SlotStart(s, Slot(s, lastStart) + 1) && Slot(s, r.start) == Slot(s, lastStart) + 1
  {
    FiresNowIfMissed(s, st, lastStart, r.now, r.later);
    SlotOrder(s, r.start, Slot(s, lastStart) + 1);
    SlotOrder(s, r.start, Slot(s, lastStart) + 2);
    MulLess(Slot(s, lastStart) + 2, Slot(s, lastStart) + 1, Interval(s));
  }
}

/** The guard that keeps two runs of one job apart, under any interleaving of timers, manual runs and edits. */
module CronRuns {
  import opened Options

  datatype RunId = RunId(number: nat)

  datatype Event = Started(run: RunId, job: string) | Ended(run: RunId, job: string)

  datatype Step =
    | Launch
    | Begin(run: RunId, job: string)
    | End(run: RunId)
    | Delete(job: string)
    | Enable(job: string, enabled: bool)

  // ---------------------------------------------------------------- what a schedule does

  /** The manager's data; executing says which run is busy with which job. */
  datatype Snapshot = Snapshot(jobs: map<string, bool>, launched: bool, timers: set<string>,
                               executing: map<RunId, string>, log: seq<Event>)

  /** A start of a job that has a run, a start under a run number in use and an end of no run are passed over, as are
      edits of unknown jobs. */
  function Next(v: Snapshot, a: Step): Snapshot {
    match a
    case Launch => v.(launched := true, timers := v.timers + set job | job in v.jobs && v.jobs[job])
    case Begin(run, job) =>
      if run in v.executing || job in v.executing.Values then v
      else v.(executing := v.executing[run := job], log := v.log + [Started(run, job)])
    case End(run) =>
      if run !in v.executing then v
      else v.(executing := v.executing - {run}, log := v.log + [Ended(run, v.executing[run])])
    case Delete(job) => if job !in v.jobs then v else v.(jobs := v.jobs - {job}, timers := v.timers - {job})
    case Enable(job, enabled) =>
      if job !in v.jobs then v
      else v.(jobs := v.jobs[job := enabled],
              timers := if !enabled then v.timers - {job} else if v.launched then v.timers + {job} else v.timers)
  }

  function After(v: Snapshot, schedule: seq<Step>): Snapshot {
    if schedule == [] then v else Next(After(v, schedule[..|schedule| - 1]), schedule[|schedule| - 1])
  }

  // ---------------------------------------------------------------- what the log of a run says

  /** The run of a job that has started and not ended after the logged events. */
  function Current(log: seq<Event>, job: string): Option<RunId> {
    if log == [] then None
    else
      var e := log[|log| - 1];
      if e.job != job then Current(log[..|log| - 1], job)
      else if e.Started? then Some(e.run) else None
  }

  ghost predicate GuardedAt(log: seq<Event>, i: nat)
    requires i < |log|
  {
    Current(log[..i], log[i].job) == if log[i].Started? then None else Some(log[i].run)
  }

  /** Each start finds no run of its job, and each end ends the run there is. */
  ghost predicate Guarded(log: seq<Event>) {
    forall i: nat {:trigger GuardedAt(log, i)} :: i < |log| ==> GuardedAt(log, i)
  }

  /** The end of the run that started at i lies before j. */
  ghost predicate EndsBefore(log: seq<Event>, i: nat, j: nat) {
    exists k :: i < k < j <= |log| && log[k] == Ended(log[i].run, log[i].job)
  }

  /** Of two starts of one job the first run has ended before the second starts. */
  ghost predicate Apart(log: seq<Event>) {
    forall i: nat, j: nat {:trigger EndsBefore(log, i, j)} ::
      i < j < |log| && log[i].Started? && log[j].Started? && log[i].job == log[j].job ==> EndsBefore(log, i, j)
  }

  lemma CurrentGrows(log: seq<Event>, e: Event, job: string)
    ensures Current(log + [e], job)
            == if e.job != job then Current(log, job) else if e.Started? then Some(e.run) else None
  {
    assert (log + [e])[..|log|] == log;
  }

  lemma GuardedGrows(log: seq<Event>, e: Event)
    requires Guarded(log) && Current(log, e.job) == if e.Started? then None else Some(e.run)
    ensures Guarded(log + [e])
  {
    var log' := log + [e];
    forall i: nat | i < |log'|
      ensures GuardedAt(log', i)
    {
      assert log'[..i] == log[..i];
      if i < |log| {
        assert GuardedAt(log, i);
      } else {
        assert log[..i] == log;
      }
    }
  }

  /** A started run is current until it ends. */
  lemma {:induction false} CurrentUntilEnd(log: seq<Event>, i: nat, j: nat)
    requires Guarded(log) && i < j <= |log| && log[i].Started?
    ensures EndsBefore(log, i, j) || Current(log[..j], log[i].job) == Some(log[i].run)
    decreases j
  {
    var job := log[i].job;
    assert log[..j] == log[..j - 1] + [log[j - 1]];
    CurrentGrows(log[..j - 1], log[j - 1], job);
    if i < j - 1 {
      CurrentUntilEnd(log, i, j - 1);
      assert GuardedAt(log, j - 1);
      if !EndsBefore(log, i, j - 1) && log[j - 1].job == job {
        assert log[j - 1] == Ended(log[i].run, job);
      }
    }
  }

  /** The guard at each single start keeps all runs of one job apart. */
  lemma GuardKeepsApart(log: seq<Event>)
    requires Guarded(log)
    ensures Apart(log)
  {
    forall i: nat, j: nat |
      i < j < |log| && log[i].Started? && log[j].Started? && log[i].job == log[j].job
      ensures EndsBefore(log, i, j)
    {
      CurrentUntilEnd(log, i, j);
      assert GuardedAt(log, j);
    }
  }

  // ---------------------------------------------------------------- the manager

  class Manager {
    var jobs: map<string, bool>      // enabled
    var launched: bool
    var timers: set<string>
    var runningJobs: set<string>
    var executing: map<RunId, string>
    ghost var log: seq<Event>

    constructor (jobs: map<string, bool>)
      ensures Valid() && this.jobs == jobs && executing == map[] && log == [] && timers == {} && !launched
    {
      this.jobs, launched, timers, runningJobs, executing, log := jobs, false, {}, {}, map[], [];
    }

    /** The guard holds exactly the jobs of the executing runs, one run each, as the log has it. */
    ghost predicate Valid()
      reads this
    {
      Guarded(log) && Tracked(log, runningJobs, executing)
    }

    /** Start: a timer for every enabled job. */
    method Launch()
      requires Valid()
      modifies this`launched, this`timers
      ensures Valid() && launched && timers == old(timers) + set job | job in jobs && jobs[job]
    {
      launched := true;
      timers := timers + set job | job in jobs && jobs[job];
    }

    /** The guard at the head of a run, from a timer or by hand: false means the run is skipped. */
    method TryStart(run: RunId, job: string) returns (started: bool)
      requires Valid() && run !in executing
      modifies this`runningJobs, this`executing, this`log
      ensures Valid()
      ensures started <==> forall r :: r in old(executing) ==> old(executing)[r] != job
      ensures executing == if started then old(executing)[run := job] else old(executing)
      ensures log == if started then old(log) + [Started(run, job)] else old(log)
    {
      NobodyElse(log, runningJobs, executing, job);
      if job in runningJobs {
        return false;
      }
      GuardedGrows(log, Started(run, job));
      TrackStart(log, runningJobs, executing, run, job);
      runningJobs := runningJobs + {job};
      executing := executing[run := job];
      log := log + [Started(run, job)];
      return true;
    }

    /** The deferred end of a run. */
    method Finish(run: RunId)
      requires Valid() && run in executing
      modifies this`runningJobs, this`executing, this`log
      ensures Valid() && executing == old(executing) - {run}
      ensures log == old(log) + [Ended(run, old(executing)[run])]
    {
      var job := executing[run];
      assert RunsNow(log, executing, run, job);
      GuardedGrows(log, Ended(run, job));
      TrackEnd(log, runningJobs, executing, run, job);
      runningJobs := runningJobs - {job};
      executing := executing - {run};
      log := log + [Ended(run, job)];
    }

    /** Removing a job stops its timer; while it runs that does not open the guard. */
    method Remove(job: string) returns (found: bool)
      requires Valid()
      modifies this`jobs, this`timers
      ensures Valid() && found == (job in old(jobs)) && jobs == old(jobs) - {job}
      ensures timers == if found then old(timers) - {job} else old(timers)
    {
      found := job in jobs;
      if found {
        timers := timers - {job};
        jobs := jobs - {job};
      }
    }

    /** Disabling stops the timer, enabling sets one once the manager is launched. */
    method SetEnabled(job: string, enabled: bool) returns (found: bool)
      requires Valid()
      modifies this`jobs, this`timers
      ensures Valid() && found == (job in old(jobs))
      ensures jobs == if found then old(jobs)[job := enabled] else old(jobs)
      ensures timers == if found && !enabled then old(timers) - {job}
                        else if found && launched then old(timers) + {job} else old(timers)
    {
      found := job in jobs;
      if found {
        jobs := jobs[job := enabled];
        if !enabled {
          timers := timers - {job};
        } else if launched {
          timers := timers + {job};
        }
      }
    }

    ghost function View(): Snapshot
      reads this
    {
      Snapshot(jobs, launched, timers, executing, log)
    }

    method Do(a: Step)
      requires Valid()
      modifies this
      ensures Valid() && View() == Next(old(View()), a)
    {
      match a
      case Launch => Launch();
      case Begin(run, job) =>
        if run !in executing {
          var started := TryStart(run, job);
        }
      case End(run) =>
        if run in executing {
          Finish(run);
        }
      case Delete(job) => var found := Remove(job);
      case Enable(job, enabled) => var found := SetEnabled(job, enabled);
    }

    /** Any schedule of timers, manual runs, ends and edits: the manager ends where its steps lead, and in the whole log
        no two runs of one job ID overlap. */
    method Run(schedule: seq<Step>)
      requires Valid()
      modifies this
      ensures Valid() && View() == After(old(View()), schedule) && Apart(log)
    {
      for i := 0 to |schedule|
        invariant Valid() && View() == After(old(View()), schedule[..i])
      {
        assert schedule[..i + 1][..i] == schedule[..i];
        Do(schedule[i]);
      }
      assert schedule[..|schedule|] == schedule;
      GuardKeepsApart(log);
    }
  }

  // ---------------------------------------------------------------- the guard's bookkeeping

  ghost predicate RunsNow(log: seq<Event>, executing: map<RunId, string>, run: RunId, job: string) {
    (run in executing && executing[run] == job) <==> Current(log, job) == Some(run)
  }

  ghost predicate Tracked(log: seq<Event>, runningJobs: set<string>, executing: map<RunId, string>) {
    && (forall run, job {:trigger RunsNow(log, executing, run, job)} :: RunsNow(log, executing, run, job))
    && (forall job {:trigger job in runningJobs} :: job in runningJobs <==> Current(log, job).Some?)
  }

  lemma NobodyElse(log: seq<Event>, runningJobs: set<string>, executing: map<RunId, string>, job: string)
    requires Tracked(log, runningJobs, executing)
    ensures job in runningJobs <==> exists r :: r in executing && executing[r] == job
  {
    if r :| r in executing && executing[r] == job {
      assert RunsNow(log, executing, r, job);
    }
    match Current(log, job)
    case None =>
    case Some(r) => assert RunsNow(log, executing, r, job);
  }

  lemma TrackStart(log: seq<Event>, runningJobs: set<string>, executing: map<RunId, string>, run: RunId, job: string)
    requires Tracked(log, runningJobs, executing) && run !in executing && job !in runningJobs
    ensures Tracked(log + [Started(run, job)], runningJobs + {job}, executing[run := job])
  {
    var log', executing' := log + [Started(run, job)], executing[run := job];
    forall r, j
      ensures RunsNow(log', executing', r, j)
    {
      assert RunsNow(log, executing, r, j);
      CurrentGrows(log, Started(run, job), j);
    }
    forall j
      ensures j in runningJobs + {job} <==> Current(log + [Started(run, job)], j).Some?
    {
      CurrentGrows(log, Started(run, job), j);
    }
  }

  lemma TrackEnd(log: seq<Event>, runningJobs: set<string>, executing: map<RunId, string>, run: RunId, job: string)
    requires Tracked(log, runningJobs, executing) && run in executing && executing[run] == job
    ensures Tracked(log + [Ended(run, job)], runningJobs - {job}, executing - {run})
  {
    assert RunsNow(log, executing, run, job);
    var log', executing' := log + [Ended(run, job)], executing - {run};
    forall r, j
      ensures RunsNow(log', executing', r, j)
    {
      assert RunsNow(log, executing, r, j);
      CurrentGrows(log, Ended(run, job), j);
    }
    forall j
      ensures j in runningJobs - {job} <==> Current(log + [Ended(run, job)], j).Some?
    {
      CurrentGrows(log, Ended(run, job), j);
    }
  }
}
