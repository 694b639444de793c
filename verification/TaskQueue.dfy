/** The background task queue: its mutex-protected operations, one method per critical section. */
module TaskQueue {
  type Id = string

  datatype Status = Pending | Running | Success | Failed | Cancelled

  datatype Record = Record(session: string, status: Status, result: string, error: string,
                           startedAt: int, completedAt: int, duration: int)

  /** What a task's function returned; a panic counts as an error. */
  datatype Outcome = Returned(text: string) | ContextCanceled | Failure(error: string)

  predicate Live(st: Status) {
    st.Pending? || st.Running?
  }

  function Truncate(s: string, n: nat): string {
    if |s| <= n then s else s[..n]
  }

  /** The data behind the mutex. A record is named by its task ID; records outlive the list, because a running
      goroutine keeps its own. root tells whether the root context has been cancelled, signalled whose own contexts
      have. */
  datatype Core = Core(records: map<Id, Record>, tasks: seq<Id>, running: set<Id>, root: bool, signalled: set<Id>)

  /** What the function of a task sees when it looks at its context. */
  predicate ContextDone(c: Core, id: Id) {
    c.root || id in c.signalled
  }

  function NewRecord(session: string): Record {
    Record(session, Pending, "", "", 0, 0, 0)
  }

  function Stopped(r: Record, now: int): Record {
    r.(status := Cancelled, completedAt := now, duration := if r.startedAt > 0 then now - r.startedAt else r.duration)
  }

  function Ended(r: Record, o: Outcome, now: int): Record {
    var r' := r.(completedAt := now, duration := if r.startedAt > 0 then now - r.startedAt else r.duration);
    match o
    case ContextCanceled => r'.(status := Cancelled)
    case Failure(e) => r'.(status := Failed, error := Truncate(e, 2000))
    case Returned(text) => r'.(status := Success, result := Truncate(text, 2000))
  }

  function AfterSubmit(c: Core, id: Id, session: string): Core {
    c.(records := c.records[id := NewRecord(session)], tasks := c.tasks + [id])
  }

  /** The check after the semaphore: a task cancelled meanwhile is left alone, any other starts. */
  function AfterBegin(c: Core, id: Id, now: int): Core
    requires id in c.records
  {
    if c.records[id].status.Cancelled? then c
    else c.(records := c.records[id := c.records[id].(status := Running, startedAt := now)],
            running := c.running + {id})
  }

  function AfterEnd(c: Core, id: Id, o: Outcome, now: int): Core
    requires id in c.records
  {
    c.(records := c.records[id := Ended(c.records[id], o, now)], running := c.running - {id})
  }

  predicate IsPending(c: Core, id: Id) {
    id in c.tasks && id in c.records && c.records[id].status.Pending?
  }

  function AfterCancel(c: Core, id: Id, now: int): Core {
    if IsPending(c, id) then c.(records := c.records[id := c.records[id].(status := Cancelled, completedAt := now)])
    else if id in c.running && id in c.records then
      AfterStop(c, id, now)
    else c
  }

  predicate InSession(c: Core, id: Id, session: string) {
    id in c.records && c.records[id].session == session
  }

  function WhenStopped(c: Core, id: Id, session: string, now: int): Record
    requires id in c.records
  {
    if id in c.running && InSession(c, id, session) then Stopped(c.records[id], now) else c.records[id]
  }

  function WhenCancelled(c: Core, id: Id, session: string, now: int): Record
    requires id in c.records
  {
    if InSession(c, id, session) && IsPending(c, id) then c.records[id].(status := Cancelled, completedAt := now)
    else c.records[id]
  }

  /** The running tasks of a session. */
  function RunningIn(c: Core, session: string): set<Id> {
    set id | id in c.running && InSession(c, id, session)
  }

  function AfterCancelAll(c: Core, session: string, now: int): Core {
    Core(map id | id in c.records ::
           if id in c.running then WhenStopped(c, id, session, now) else WhenCancelled(c, id, session, now),
         c.tasks, c.running - RunningIn(c, session), c.root, c.signalled + RunningIn(c, session))
  }

  function AfterShutdown(c: Core, now: int): Core {
    Core(map id | id in c.records ::
           if id in c.running then Stopped(c.records[id], now).(error := "shutdown") else c.records[id],
         c.tasks, {}, true, c.signalled + c.running)
  }

  predicate Expired(r: Record, cutoff: int) {
    r.completedAt > 0 && r.completedAt < cutoff
  }

  function Unexpired(records: map<Id, Record>, tasks: seq<Id>, cutoff: int): seq<Id> {
    if tasks == [] then []
    else
      var id := tasks[|tasks| - 1];
      Unexpired(records, tasks[..|tasks| - 1], cutoff)
      + if id in records && Expired(records[id], cutoff) then [] else [id]
  }

  function AfterPrune(c: Core, cutoff: int): Core {
    c.(tasks := Unexpired(c.records, c.tasks, cutoff))
  }

  function Recovered(r: Record, now: int): Record {
    if Live(r.status) then r.(status := Failed, error := "interrupted by restart", completedAt := now) else r
  }

  /** Listed tasks have records, and the index holds exactly the records with status Running. */
  ghost predicate Consistent(c: Core) {
    && (forall id :: id in c.tasks ==> id in c.records)
    && (forall id :: id in c.running <==> id in c.records && c.records[id].status.Running?)
    && (forall id {:trigger c.records[id]} :: id in c.records && Live(c.records[id].status) ==>
          id in c.tasks && c.records[id].completedAt == 0)
  }

  ghost predicate StoppedOnly(c: Core, mid: Core, session: string, now: int) {
    mid == Core(map id | id in c.records :: WhenStopped(c, id, session, now), c.tasks,
                c.running - RunningIn(c, session), c.root, c.signalled + RunningIn(c, session))
  }

  /** Stopping the running tasks of a session and then cancelling its pending ones is one combined step. */
  lemma CancelAllRecords(c: Core, mid: Core, session: string, now: int)
    requires Consistent(c) && StoppedOnly(c, mid, session, now)
    ensures (map id | id in mid.records :: WhenCancelled(mid, id, session, now))
            == AfterCancelAll(c, session, now).records
  {
    forall id | id in c.records
      ensures WhenCancelled(mid, id, session, now)
              == if id in c.running then WhenStopped(c, id, session, now) else WhenCancelled(c, id, session, now)
    {
      assert mid.records[id] == WhenStopped(c, id, session, now);
    }
  }

  /** How long a task has run when it ends at now; one that never started keeps what it had. */
  ghost predicate TimedUntil(before: Record, after: Record, now: int) {
    && after.completedAt == now
    && after.duration == if before.startedAt > 0 then now - before.startedAt else before.duration
  }

  ghost predicate SameWork(before: Record, after: Record) {
    after.session == before.session && after.result == before.result && after.startedAt == before.startedAt
  }

  /** Submitting adds one pending record with nothing in it, last in the list. */
  lemma SubmitMeans(c: Core, id: Id, session: string)
    ensures var c' := AfterSubmit(c, id, session);
            && c'.tasks == c.tasks + [id] && c'.records - {id} == c.records - {id}
            && id in c'.records && c'.records[id] == Record(session, Pending, "", "", 0, 0, 0)
            && c'.running == c.running && c'.root == c.root && c'.signalled == c.signalled
  {
  }

  /** A task cancelled meanwhile is left as it is; any other is Running from now on, and nothing else changes. */
  lemma BeginMeans(c: Core, id: Id, now: int)
    requires id in c.records
    ensures var c', r := AfterBegin(c, id, now), c.records[id];
            if r.status.Cancelled? then c' == c
            else
              && id in c'.records && c'.records[id] == r.(status := Running, startedAt := now)
              && c'.records - {id} == c.records - {id} && c'.running == c.running + {id}
              && c'.tasks == c.tasks && c'.root == c.root && c'.signalled == c.signalled
  {
  }

  /** The first 2000 bytes. */
  ghost predicate CutTo2000(kept: string, text: string) {
    kept <= text && |kept| == if |text| < 2000 then |text| else 2000
  }

  /** What a function returned is what its record says: the text of a success, the error of a failure, cut to 2000 bytes
      each, or the cancellation; with the time, and out of the index. */
  lemma EndMeans(c: Core, id: Id, o: Outcome, now: int)
    requires id in c.records
    ensures var c', r := AfterEnd(c, id, o, now), c.records[id];
            && id in c'.records && c'.records - {id} == c.records - {id} && c'.running == c.running - {id}
            && c'.tasks == c.tasks && c'.root == c.root && c'.signalled == c.signalled
            && TimedUntil(r, c'.records[id], now)
            && c'.records[id].session == r.session && c'.records[id].startedAt == r.startedAt
    ensures var r, r' := c.records[id], AfterEnd(c, id, o, now).records[id];
            match o
            case Returned(text) => r'.status == Success && CutTo2000(r'.result, text) && r'.error == r.error
            case ContextCanceled => r'.status == Cancelled && r'.result == r.result && r'.error == r.error
            case Failure(e) => r'.status == Failed && CutTo2000(r'.error, e) && r'.result == r.result
  {
  }

  /** Cancelling ends a pending task, or stops a running one with its context; a task that is neither stays. */
  lemma CancelMeans(c: Core, id: Id, now: int)
    requires Consistent(c) && id in c.records
    ensures var c', r := AfterCancel(c, id, now), c.records[id];
            && c'.tasks == c.tasks && c'.root == c.root && id in c'.records && c'.records - {id} == c.records - {id}
            && (r.status.Pending? ==>
                  c'.records[id] == r.(status := Cancelled, completedAt := now) && c'.running == c.running)
            && (r.status.Running? ==>
                  && c'.records[id].status.Cancelled? && TimedUntil(r, c'.records[id], now)
                  && SameWork(r, c'.records[id]) && c'.running == c.running - {id} && ContextDone(c', id))
            && (!Live(r.status) ==> c' == c)
  {
  }

  /** Pruning drops exactly the tasks that ended before the cutoff and keeps the rest in their order. */
  lemma {:induction false} PruneMeans(records: map<Id, Record>, a: seq<Id>, b: seq<Id>, id: Id, cutoff: int)
    ensures Unexpired(records, a + b, cutoff) == Unexpired(records, a, cutoff) + Unexpired(records, b, cutoff)
    ensures Unexpired(records, [id], cutoff)
            == if id in records && 0 < records[id].completedAt < cutoff then [] else [id]
    decreases |b|
  {
    assert [id][..0] == [];
    if b == [] {
      assert a + b == a;
    } else {
      assert (a + b)[..|a + b| - 1] == a + b[..|b| - 1];
      PruneMeans(records, a, b[..|b| - 1], id, cutoff);
    }
  }

  /** A restart fails what was live, at the time of the restart, and keeps everything else. */
  lemma RecoveredMeans(r: Record, now: int)
    ensures var r' := Recovered(r, now);
            if r.status.Pending? || r.status.Running? then
              r'.status == Failed && r'.error == "interrupted by restart" && r'.completedAt == now
              && SameWork(r, r') && r'.duration == r.duration
            else r' == r
  {
  }

  /** Cancelling a session ends exactly its live tasks and touches nothing else. */
  lemma CancelAllMeans(c: Core, session: string, now: int, id: Id)
    requires Consistent(c) && id in c.records
    ensures var c', r := AfterCancelAll(c, session, now), c.records[id];
            && c'.tasks == c.tasks && id in c'.records
            && (if r.session == session && Live(r.status)
                then c'.records[id].status.Cancelled? && id !in c'.running && SameWork(r, c'.records[id])
                     && (r.status.Pending? ==> c'.records[id].completedAt == now)
                     && (r.status.Running? ==> TimedUntil(r, c'.records[id], now) && ContextDone(c', id))
                else c'.records[id] == r && (id in c'.running <==> id in c.running))
  {
  }

  /** Shutting down ends exactly the running tasks; a pending one may still start. */
  lemma ShutdownMeans(c: Core, now: int, id: Id)
    requires Consistent(c) && id in c.records
    ensures var c', r := AfterShutdown(c, now), c.records[id];
            && c'.tasks == c.tasks && c'.running == {} && id in c'.records
            && (if r.status.Running?
                then c'.records[id].status.Cancelled? && c'.records[id].error == "shutdown"
                     && SameWork(r, c'.records[id]) && TimedUntil(r, c'.records[id], now)
                else c'.records[id] == r)
            && forall any :: ContextDone(c', any)
  {
  }

  /** It ends each live task of the session exactly once. */
  lemma CancelAllCount(c: Core, mid: Core, session: string, now: int)
    requires Consistent(c) && StoppedOnly(c, mid, session, now)
    ensures |RunningIn(c, session)|
            + |set id | id in c.tasks && InSession(mid, id, session) && IsPending(mid, id)|
            == |set id | id in c.records && InSession(c, id, session) && Live(c.records[id].status)|
  {
    var run := RunningIn(c, session);
    var pend := set id | id in c.tasks && InSession(mid, id, session) && IsPending(mid, id);
    var live := set id | id in c.records && InSession(c, id, session) && Live(c.records[id].status);
    forall id
      ensures id in pend <==> id in c.records && InSession(c, id, session) && c.records[id].status.Pending?
    {
      if id in c.records {
        assert mid.records[id] == WhenStopped(c, id, session, now);
      }
    }
    SplitCount(live, run, pend);
  }

  lemma SplitCount(whole: set<Id>, a: set<Id>, b: set<Id>)
    requires forall x :: x in whole <==> x in a || x in b
    requires forall x :: x in a ==> x !in b
    ensures |whole| == |a| + |b|
  {
    assert whole == a + b && a * b == {};
  }

  /** What becomes of a pending record that is cancelled. */
  function CancelledForm(r: Record, now: int): Record {
    r.(status := Cancelled, completedAt := now)
  }

  /** Exactly the records in ids have been cancelled. */
  ghost predicate Changed(before: map<Id, Record>, now: map<Id, Record>, ids: set<Id>, t: int) {
    && now.Keys == before.Keys
    && forall id {:trigger now[id]} ::
         id in before ==> now[id] == if id in ids then CancelledForm(before[id], t) else before[id]
  }

  function PendingAmong(c: Core, ids: seq<Id>, session: string): set<Id> {
    set id | id in ids && InSession(c, id, session) && IsPending(c, id)
  }

  lemma OneMoreTask(c: Core, ids: seq<Id>, i: nat, session: string)
    requires i < |ids|
    ensures PendingAmong(c, ids[..i + 1], session)
            == if InSession(c, ids[i], session) && IsPending(c, ids[i]) && ids[i] !in PendingAmong(c, ids[..i], session)
               then PendingAmong(c, ids[..i], session) + {ids[i]} else PendingAmong(c, ids[..i], session)
  {
    assert ids[..i + 1] == ids[..i] + [ids[i]];
  }

  lemma ChangeOne(before: map<Id, Record>, now: map<Id, Record>, ids: set<Id>, t: int, id: Id)
    requires Changed(before, now, ids, t) && id in before && id !in ids
    ensures id in now && now[id] == before[id]
    ensures Changed(before, now[id := CancelledForm(now[id], t)], ids + {id}, t)
  {
  }

  lemma StopStep(c: Core, session: string, todo: set<Id>, id: Id)
    requires id in todo && todo <= c.running
    ensures RunningIn(c, session) - (todo - {id})
            == if InSession(c, id, session) then RunningIn(c, session) - todo + {id} else RunningIn(c, session) - todo
    ensures |RunningIn(c, session) - (todo - {id})|
            == |RunningIn(c, session) - todo| + if InSession(c, id, session) then 1 else 0
  {
  }

  /** One running task stopped: its context cancelled, its record ended, out of the index. */
  function AfterStop(c: Core, id: Id, now: int): Core
    requires id in c.records
  {
    c.(records := c.records[id := Stopped(c.records[id], now)], running := c.running - {id},
       signalled := c.signalled + {id})
  }

  /** All tasks in ids stopped. */
  function AllStopped(c: Core, ids: set<Id>, now: int): Core {
    c.(records := map id | id in c.records :: if id in ids then Stopped(c.records[id], now) else c.records[id],
       running := c.running - ids, signalled := c.signalled + ids)
  }

  lemma StopNext(c: Core, ids: set<Id>, now: int, id: Id)
    requires id in c.records && id !in ids
    ensures id in AllStopped(c, ids, now).records
    ensures AllStopped(c, ids, now).records[id] == c.records[id]
    ensures AfterStop(AllStopped(c, ids, now), id, now) == AllStopped(c, ids + {id}, now)
  {
    assert c.running - ids - {id} == c.running - (ids + {id});
    assert c.signalled + ids + {id} == c.signalled + (ids + {id});
    assert AfterStop(AllStopped(c, ids, now), id, now).records == AllStopped(c, ids + {id}, now).records;
  }

  lemma NoneStopped(c: Core, now: int)
    ensures AllStopped(c, {}, now) == c
  {
    assert AllStopped(c, {}, now).records == c.records;
  }

  lemma SessionStopped(c: Core, session: string, now: int)
    ensures StoppedOnly(c, AllStopped(c, RunningIn(c, session), now), session, now)
  {
    assert AllStopped(c, RunningIn(c, session), now).records
            == map id | id in c.records :: WhenStopped(c, id, session, now);
  }

  lemma StillPending(c: Core, now: map<Id, Record>, done: seq<Id>, session: string, t: int, id: Id)
    requires Changed(c.records, now, PendingAmong(c, done, session), t) && id in c.records && id in c.tasks
    ensures now[id].session == session && now[id].status.Pending? <==>
            InSession(c, id, session) && IsPending(c, id) && id !in PendingAmong(c, done, session)
    ensures id in PendingAmong(c, done, session) ==> InSession(c, id, session) && IsPending(c, id)
  {
  }

  lemma AllChanged(c: Core, now: map<Id, Record>, session: string, t: int)
    requires Changed(c.records, now, PendingAmong(c, c.tasks, session), t)
    ensures now == map id | id in c.records :: WhenCancelled(c, id, session, t)
  {
  }

  class Manager {
    var records: map<Id, Record>
    var tasks: seq<Id>
    var running: set<Id>
    var root: bool
    var signalled: set<Id>

    ghost function View(): Core
      reads this
    {
      Core(records, tasks, running, root, signalled)
    }

    /** Starts from the stored tasks; whatever was live when they were saved has been interrupted. */
    constructor (stored: map<Id, Record>, order: seq<Id>, now: int)
      requires forall id :: id in order <==> id in stored
      ensures View() == Core(map id | id in stored :: Recovered(stored[id], now), order, {}, false, {})
      ensures Consistent(View())
    {
      records, tasks, running, root, signalled := map[], order, {}, false, {};
      new;
      for i := 0 to |order|
        invariant tasks == order && running == {} && !root && signalled == {}
        invariant records == map id | id in order[..i] :: Recovered(stored[id], now)
      {
        var id := order[i];
        assert order[..i + 1] == order[..i] + [id];
        records := records[id := Recovered(stored[id], now)];
      }
      assert order[..|order|] == order;
    }

    method Submit(id: Id, session: string)
      requires id !in records
      modifies this
      ensures View() == AfterSubmit(old(View()), id, session)
    {
      records := records[id := NewRecord(session)];
      tasks := tasks + [id];
    }

    method Begin(id: Id, now: int) returns (started: bool)
      requires id in records
      modifies this
      ensures View() == AfterBegin(old(View()), id, now)
      ensures started <==> !old(records[id].status.Cancelled?)
    {
      if records[id].status.Cancelled? {
        return false;
      }
      records := records[id := records[id].(status := Running, startedAt := now)];
      running := running + {id};
      return true;
    }

    method Finish(id: Id, o: Outcome, now: int)
      requires id in records
      modifies this
      ensures View() == AfterEnd(old(View()), id, o, now)
    {
      running := running - {id};
      var r := records[id].(completedAt := now);
      if r.startedAt > 0 {
        r := r.(duration := now - r.startedAt);
      }
      match o {
        case ContextCanceled => r := r.(status := Cancelled);
        case Failure(e) => r := r.(status := Failed, error := Truncate(e, 2000));
        case Returned(text) => r := r.(status := Success, result := Truncate(text, 2000));
      }
      records := records[id := r];
    }

    method Cancel(id: Id, now: int) returns (found: bool)
      requires Consistent(View())
      modifies this
      ensures View() == AfterCancel(old(View()), id, now)
      ensures found <==> id in old(records) && Live(old(records[id].status))
    {
      for i := 0 to |tasks|
        invariant unchanged(this)
        invariant id in tasks[..i] ==> !records[id].status.Pending?
      {
        var t := tasks[i];
        assert t in tasks;
        if t == id && records[t].status.Pending? {
          records := records[id := records[id].(status := Cancelled, completedAt := now)];
          return true;
        }
        assert tasks[..i + 1] == tasks[..i] + [t];
      }
      assert tasks[..|tasks|] == tasks;
      if id !in running {
        return false;
      }
      StopOne(id, now);
      return true;
    }

    method StopOne(id: Id, now: int)
      requires id in records
      modifies this
      ensures View() == AfterStop(old(View()), id, now)
    {
      signalled := signalled + {id};
      records := records[id := Stopped(records[id], now)];
      running := running - {id};
    }

    /** The body of the loop over the running index; done holds those already stopped. */
    method StopIfIn(id: Id, session: string, now: int, ghost before: Core, ghost done: set<Id>) returns (hit: bool)
      requires View() == AllStopped(before, done, now) && id in before.records && id !in done
      modifies this
      ensures hit <==> InSession(before, id, session)
      ensures View() == AllStopped(before, if hit then done + {id} else done, now)
    {
      StopNext(before, done, now, id);
      hit := records[id].session == session;
      if hit {
        StopOne(id, now);
      }
    }

    /** The loop over the running index. */
    method StopRunning(session: string, now: int) returns (n: nat)
      requires forall id :: id in running ==> id in records
      modifies this
      ensures StoppedOnly(old(View()), View(), session, now)
      ensures n == |RunningIn(old(View()), session)|
    {
      n := 0;
      var todo := running;
      ghost var before := View();
      ghost var mine := RunningIn(before, session);
      NoneStopped(before, now);
      assert mine - todo == {};
      while todo != {}
        invariant todo <= before.running && n == |mine - todo|
        invariant View() == AllStopped(before, mine - todo, now)
        decreases todo
      {
        var id :| id in todo;
        StopStep(before, session, todo, id);
        var hit := StopIfIn(id, session, now, before, mine - todo);
        todo := todo - {id};
        if hit {
          n := n + 1;
        }
      }
      assert mine - todo == mine;
      SessionStopped(before, session, now);
    }

    /** The loop over the task list. */
    method CancelPending(session: string, now: int) returns (n: nat)
      requires forall id :: id in tasks ==> id in records
      modifies this`records
      ensures records == map id | id in old(records) :: WhenCancelled(old(View()), id, session, now)
      ensures n == |set id | id in tasks && InSession(old(View()), id, session) && IsPending(old(View()), id)|
    {
      n := 0;
      ghost var before, stopped: set<Id> := View(), {};
      for i := 0 to |tasks|
        invariant n == |stopped| && Changed(before.records, records, stopped, now)
        invariant stopped == PendingAmong(before, tasks[..i], session)
      {
        var t := tasks[i];
        assert t in tasks;
        OneMoreTask(before, tasks, i, session);
        StillPending(before, records, tasks[..i], session, now, t);
        if records[t].session == session && records[t].status.Pending? {
          ChangeOne(before.records, records, stopped, now, t);
          records := records[t := records[t].(status := Cancelled, completedAt := now)];
          stopped := stopped + {t};
          n := n + 1;
        }
      }
      assert tasks[..|tasks|] == tasks;
      AllChanged(before, records, session, now);
    }

    method CancelAll(session: string, now: int) returns (n: nat)
      requires Consistent(View())
      modifies this
      ensures View() == AfterCancelAll(old(View()), session, now)
      ensures n == |set id | id in old(records) && InSession(old(View()), id, session) && Live(old(records)[id].status)|
    {
      ghost var before := View();
      var stopped := StopRunning(session, now);
      ghost var mid := View();
      CancelAllRecords(before, mid, session, now);
      CancelAllCount(before, mid, session, now);
      var cancelled := CancelPending(session, now);
      n := stopped + cancelled;
    }

    /** The root context is cancelled first, which reaches every task context made from it. */
    method Shutdown(now: int)
      requires Consistent(View())
      modifies this
      ensures View() == AfterShutdown(old(View()), now)
    {
      root := true;
      var todo := running;
      while todo != {}
        invariant todo == running <= old(running) && tasks == old(tasks) && records.Keys == old(records).Keys && root
        invariant signalled == old(signalled) + (old(running) - todo)
        invariant forall id :: id in records ==>
                    (records[id]
                     == if id in old(running) && id !in todo then Stopped(old(records)[id], now).(error := "shutdown")
                        else old(records)[id])
        decreases todo
      {
        var id :| id in todo;
        todo := todo - {id};
        signalled := signalled + {id};
        records := records[id := Stopped(records[id], now).(error := "shutdown")];
        running := running - {id};
      }
      assert records == AfterShutdown(old(View()), now).records;
    }

    method Prune(cutoff: int)
      requires Consistent(View())
      modifies this
      ensures View() == AfterPrune(old(View()), cutoff)
    {
      var filtered := [];
      for i := 0 to |tasks|
        invariant unchanged(this)
        invariant filtered == Unexpired(records, tasks[..i], cutoff)
      {
        var t := tasks[i];
        assert t in tasks;
        assert tasks[..i + 1][..i] == tasks[..i];
        if !(records[t].completedAt > 0 && records[t].completedAt < cutoff) {
          filtered := filtered + [t];
        }
      }
      assert tasks[..|tasks|] == tasks;
      tasks := filtered;
    }
  }
}
