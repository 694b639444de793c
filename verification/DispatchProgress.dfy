/** The dispatcher always finishes: it never deadlocks and every run has a bounded number of its own steps. */
module DispatchProgress {
  import opened Sets
  import opened TaskGraph
  import opened TopoSort
  import opened Cancellation
  import opened DispatchMachine
  import opened DispatchRuns

  // ---------------------------------------------------------------- no deadlock

  ghost predicate CanStep(c: Config, s: State) {
    exists a :: !FromOutside(a) && Enabled(c, s, a)
  }

  /** The move a goroutine makes on its own, wherever it stands except in the two waits. */
  function OwnMove(pc: PC): Move {
    match pc
    case CheckCancelled => ReadCancelled
    case RecordUpstream => StoreUpstream
    case Interpolate => Start
    case Chatting => ChatReturns(Reply(""))
    case Replied(_) => FreeSlot
    case RecordResult(_) => StoreResult
    case MarkDownstream => Mark
    case CancelContext => CancelAll
    case RecordContext => StoreContext
    case Closing => Close
    case _ => ContextSeen
  }

  lemma OwnMovePossible(c: Config, s: State, t: Id)
    requires t in c.task && t in s.pc && t in s.results && TaskOk(c, s, t)
    requires !s.pc[t].NotSpawned? && !s.pc[t].WaitDep? && !s.pc[t].AcquireSlot? && !s.pc[t].Exited?
    requires s.pc[t].Replied? ==> s.held > 0
    ensures CanStep(c, s)
  {
    assert Enabled(c, s, Go(t, OwnMove(s.pc[t])));
  }

  lemma {:induction false} FirstUnfinished(c: Config, s: State, n: nat) returns (i: nat)
    requires n <= |c.order| && (forall j :: 0 <= j < |c.order| ==> c.order[j] in s.pc)
    requires exists j :: 0 <= j < n && !s.pc[c.order[j]].Exited?
    ensures i < n && !s.pc[c.order[i]].Exited?
    ensures forall j :: 0 <= j < i ==> s.pc[c.order[j]].Exited?
    decreases n
  {
    if j :| 0 <= j < n - 1 && !s.pc[c.order[j]].Exited? {
      i := FirstUnfinished(c, s, n - 1);
    } else {
      i := n - 1;
    }
  }

  /** Somebody holding a slot can always move on. */
  lemma HolderMoves(c: Config, s: State)
    requires Shape(c, s) && AllOk(c, s) && SlotsExact(c, s) && s.held > 0
    ensures CanStep(c, s)
  {
    var t :| t in Holders(s);
    assert TaskOk(c, s, t);
    OwnMovePossible(c, s, t);
  }

  /** The earliest unfinished task in the order is not stuck behind a dependency: when nothing can move it is
      waiting for a slot, every slot is held by others, and the context is alive. */
  lemma EarliestMoves(c: Config, s: State, i: nat)
    requires Shape(c, s) && SpawnExact(c, s) && AllOk(c, s) && SlotsExact(c, s) && Wired(c)
    requires DependenciesFirst(c.tasks, c.order)
    requires forall t, d :: t in c.task && d in Deps(c, t) ==> Edge(c.tasks, t, d)
    requires i < |c.order| && !s.pc[c.order[i]].Exited?
    requires forall j :: 0 <= j < i ==> s.pc[c.order[j]].Exited?
    ensures CanStep(c, s) || (s.others == c.cap && s.held == 0 && !s.ctxDone)
  {
    var t := c.order[i];
    var pc := s.pc[t];
    assert TaskOk(c, s, t);
    if pc.NotSpawned? {
      assert s.spawned == i by {
        assert i > 0 ==> s.pc[c.order[i - 1]].Exited?;
      }
      assert Enabled(c, s, Spawn);
    } else if pc.WaitDep? {
      var d := Deps(c, t)[pc.k];
      assert Edge(c.tasks, t, d);
      assert d in c.order[..i];
      assert TaskOk(c, s, d);
      assert Enabled(c, s, Go(t, DependencyDone));
    } else if pc.AcquireSlot? {
      if s.held > 0 {
        HolderMoves(c, s);
      } else if s.others < c.cap {
        assert Enabled(c, s, Go(t, TakeSlot));
      } else if s.ctxDone {
        assert Enabled(c, s, Go(t, ContextSeen));
      }
    } else {
      if pc.Replied? {
        assert t in Holders(s);
      }
      OwnMovePossible(c, s, t);
    }
  }

  /** The goroutine is through, or waits for a slot, or for a channel that is still open. */
  predicate Waits(c: Config, s: State, t: Id) {
    t in s.pc && match s.pc[t]
                 case Exited => true
                 case AcquireSlot => true
                 case WaitDep(k) => k < |Deps(c, t)| && Deps(c, t)[k] !in s.closed
                 case _ => false
  }

  /** Others hold every slot, the context lives, all goroutines have been started, and all wait. */
  ghost predicate Blocked(c: Config, s: State) {
    && s.others == c.cap && s.held == 0 && !s.ctxDone && s.spawned == |c.order|
    && forall t :: t in c.task ==> Waits(c, s, t)
  }

  lemma BlockedCannotStep(c: Config, s: State, a: Step)
    requires Blocked(c, s) && !FromOutside(a)
    ensures !Enabled(c, s, a)
  {
    if a.Go? && a.t in c.task {
      assert Waits(c, s, a.t);
    }
  }

  lemma WaitsIfStuck(c: Config, s: State, t: Id)
    requires Shape(c, s) && SpawnExact(c, s) && AllOk(c, s) && SlotsExact(c, s) && t in c.order && t in c.task
    requires !CanStep(c, s)
    ensures Waits(c, s, t) && s.spawned == |c.order|
  {
    assert TaskOk(c, s, t);
    assert s.spawned < |c.order| ==> Enabled(c, s, Spawn);
    if s.pc[t].WaitDep? && Deps(c, t)[s.pc[t].k] in s.closed {
      assert Enabled(c, s, Go(t, DependencyDone));
    } else if !s.pc[t].WaitDep? && !s.pc[t].AcquireSlot? && !s.pc[t].Exited? {
      assert s.pc[t].Replied? ==> t in Holders(s);
      OwnMovePossible(c, s, t);
    }
  }

  /** In an unfinished reachable state the dispatcher can step unless users outside hold all the slots of a shared
      limiter and every goroutine waits: those states, and no others, are blocked. With its own semaphore the
      dispatcher can always step. */
  lemma NeverStuck(c: Config, ss: seq<State>, acts: seq<Step>, k: nat)
    requires ValidConfig(c) && IsRun(c, ss, acts) && k <= |acts| && !Finished(c, ss[k])
    ensures CanStep(c, ss[k]) <==> !Blocked(c, ss[k])
    ensures !c.shared ==> CanStep(c, ss[k])
  {
    var s := ss[k];
    RunInv(c, ss, acts, k);
    ConfigWired(c);
    forall t, d | t in c.task && d in Deps(c, t)
      ensures Edge(c.tasks, t, d)
    {
      DepIsEdge(c, t, d);
    }
    var t :| t in c.task && !s.pc[t].Exited?;
    OrderHasTasks(c, ss, acts, k);
    var j :| 0 <= j < |c.order| && c.order[j] == t;
    var i := FirstUnfinished(c, s, |c.order|);
    EarliestMoves(c, s, i);
    if Blocked(c, s) {
      forall a | !FromOutside(a)
        ensures !Enabled(c, s, a)
      {
        BlockedCannotStep(c, s, a);
      }
    } else if !CanStep(c, s) {
      forall x | x in c.task
        ensures Waits(c, s, x) && s.spawned == |c.order|
      {
        WaitsIfStuck(c, s, x);
      }
    }
  }

  // ---------------------------------------------------------------- bounded runs

  function TotalRank(c: Config, pc: map<Id, PC>, order: seq<Id>): nat
    requires forall t :: t in order ==> t in pc
  {
    if order == [] then 0 else Rank(c, order[0], pc[order[0]]) + TotalRank(c, pc, order[1..])
  }

  lemma {:induction false} TotalRankFrame(c: Config, pc: map<Id, PC>, pc': map<Id, PC>, order: seq<Id>)
    requires forall t :: t in order ==> t in pc && t in pc' && pc'[t] == pc[t]
    ensures TotalRank(c, pc', order) == TotalRank(c, pc, order)
  {
    if order != [] {
      TotalRankFrame(c, pc, pc', order[1..]);
    }
  }

  lemma {:induction false} TotalRankFalls(c: Config, pc: map<Id, PC>, t: Id, x: PC, order: seq<Id>)
    requires NoDuplicates(order) && t in order && forall u :: u in order ==> u in pc
    requires Rank(c, t, x) < Rank(c, t, pc[t])
    ensures TotalRank(c, pc[t := x], order) < TotalRank(c, pc, order)
  {
    if order[0] == t {
      TotalRankFrame(c, pc, pc[t := x], order[1..]);
    } else {
      TotalRankFalls(c, pc, t, x, order[1..]);
    }
  }

  ghost predicate InOrder(c: Config, s: State) {
    forall t :: t in c.order ==> t in s.pc
  }

  lemma SpawnLowersTotal(c: Config, s: State)
    requires Shape(c, s) && SpawnExact(c, s) && NoDuplicates(c.order) && InOrder(c, s) && Enabled(c, s, Spawn)
    ensures InOrder(c, Apply(c, s, Spawn))
    ensures TotalRank(c, Apply(c, s, Spawn).pc, c.order) < TotalRank(c, s.pc, c.order)
  {
    var t := c.order[s.spawned];
    assert s.pc[t].NotSpawned?;
    TotalRankFalls(c, s.pc, t, AfterWait(c, t, 0), c.order);
  }

  lemma MoveLowersTotal(c: Config, s: State, t: Id, m: Move)
    requires NoDuplicates(c.order) && InOrder(c, s) && t in c.order && Enabled(c, s, Go(t, m))
    ensures InOrder(c, Apply(c, s, Go(t, m)))
    ensures TotalRank(c, Apply(c, s, Go(t, m)).pc, c.order) < TotalRank(c, s.pc, c.order)
  {
    MoveLowersRank(c, s, t, s.pc[t], m);
    TotalRankFalls(c, s.pc, t, NextPc(c, s, t, s.pc[t], m), c.order);
  }

  lemma OrderHasTasks(c: Config, ss: seq<State>, acts: seq<Step>, k: nat)
    requires ValidConfig(c) && IsRun(c, ss, acts) && k <= |acts|
    ensures InOrder(c, ss[k]) && Shape(c, ss[k]) && SpawnExact(c, ss[k])
    ensures forall t :: t in c.task ==> t in c.order
  {
    RunInv(c, ss, acts, k);
    assert (set x | x in c.order) == Ids(c.tasks);
  }

  /** Each step of the dispatcher's own lowers the total; steps from outside leave it alone. */
  lemma StepLowersTotal(c: Config, ss: seq<State>, acts: seq<Step>, k: nat)
    requires ValidConfig(c) && IsRun(c, ss, acts) && k < |acts|
    ensures InOrder(c, ss[k]) && InOrder(c, ss[k + 1])
    ensures TotalRank(c, ss[k + 1].pc, c.order)
            + (if FromOutside(acts[k]) then 0 else 1) <= TotalRank(c, ss[k].pc, c.order)
  {
    OrderHasTasks(c, ss, acts, k);
    assert Enabled(c, ss[k], acts[k]);
    match acts[k] {
      case Spawn => SpawnLowersTotal(c, ss[k]);
      case Go(t, m) => MoveLowersTotal(c, ss[k], t, m);
      case _ =>
    }
  }

  /** How many of the steps are the dispatcher's own. */
  function OwnSteps(acts: seq<Step>): nat {
    if acts == [] then 0
    else OwnSteps(acts[..|acts| - 1]) + if FromOutside(acts[|acts| - 1]) then 0 else 1
  }

  function EdgeCount(c: Config, order: seq<Id>): nat {
    if order == [] then 0 else |Deps(c, order[0])| + EdgeCount(c, order[1..])
  }

  lemma {:induction false} InitialRank(c: Config, pc: map<Id, PC>, order: seq<Id>)
    requires forall t :: t in order ==> t in pc && pc[t].NotSpawned?
    ensures TotalRank(c, pc, order) == 13 * |order| + EdgeCount(c, order)
  {
    if order != [] {
      InitialRank(c, pc, order[1..]);
    }
  }

  lemma {:induction false} RunSpendsRank(c: Config, ss: seq<State>, acts: seq<Step>, k: nat)
    requires ValidConfig(c) && IsRun(c, ss, acts) && k <= |acts|
    ensures InOrder(c, ss[0]) && InOrder(c, ss[k])
    ensures OwnSteps(acts[..k]) + TotalRank(c, ss[k].pc, c.order) <= TotalRank(c, ss[0].pc, c.order)
    decreases k
  {
    if k == 0 {
      OrderHasTasks(c, ss, acts, 0);
    } else {
      RunSpendsRank(c, ss, acts, k - 1);
      StepLowersTotal(c, ss, acts, k - 1);
      OwnStepsOf(acts, k);
    }
  }

  lemma OwnStepsOf(acts: seq<Step>, k: nat)
    requires 0 < k <= |acts|
    ensures OwnSteps(acts[..k]) == OwnSteps(acts[..k - 1]) + if FromOutside(acts[k - 1]) then 0 else 1
  {
    assert acts[..k][..k - 1] == acts[..k - 1];
  }

  /** A dispatch takes at most 13 steps per task and one per dependency, whatever the interleaving. */
  lemma RunsAreBounded(c: Config, ss: seq<State>, acts: seq<Step>)
    requires ValidConfig(c) && IsRun(c, ss, acts)
    ensures OwnSteps(acts) <= 13 * |c.order| + EdgeCount(c, c.order)
  {
    RunSpendsRank(c, ss, acts, |acts|);
    assert acts[..|acts|] == acts;
    assert (set x | x in c.order) == Ids(c.tasks);
    InitialRank(c, ss[0].pc, c.order);
  }

  /** When it stops, everything is settled: all channels closed, all statuses final, no slot held. */
  lemma FinishedIsSettled(c: Config, ss: seq<State>, acts: seq<Step>, k: nat)
    requires ValidConfig(c) && IsRun(c, ss, acts) && k <= |acts| && Finished(c, ss[k])
    ensures ss[k].closed == c.task.Keys && ss[k].held == 0
    ensures forall t :: t in c.task ==> Settled(ss[k], t)
  {
    var s := ss[k];
    RunInv(c, ss, acts, k);
    forall t | t in c.task
      ensures t in s.closed && Settled(s, t)
    {
      assert TaskOk(c, s, t);
    }
    assert Holders(s) == {};
  }

  lemma RunningHolds(c: Config, s: State, t: Id)
    requires t in c.task && t in s.pc && t in s.results && TaskOk(c, s, t)
    requires s.results[t].status.Running? && !s.pc[t].RecordResult?
    ensures t in Holders(s)
  {
  }

  /** At most cap tasks run at any moment. */
  lemma ConcurrencyBounded(c: Config, ss: seq<State>, acts: seq<Step>, k: nat)
    requires ValidConfig(c) && IsRun(c, ss, acts) && k <= |acts|
    ensures |set t | t in ss[k].results && ss[k].results[t].status.Running?
                     && t in ss[k].pc && !ss[k].pc[t].RecordResult?|
            + ss[k].others <= c.cap
  {
    var s := ss[k];
    RunInv(c, ss, acts, k);
    var running := set t | t in s.results && s.results[t].status.Running? && t in s.pc && !s.pc[t].RecordResult?;
    forall t | t in running
      ensures t in Holders(s)
    {
      RunTask(c, ss, acts, k, t);
      RunningHolds(c, s, t);
    }
    SubsetSize(running, Holders(s));
  }

  // ---------------------------------------------------------------- before and after the goroutines

  datatype Prepared = Ready(config: Config) | Rejected(why: GraphError) | Cycle(involved: set<Id>)

  /** Execute up to the first goroutine: validation, lookup table, topological order, concurrency default. */
  method Prepare(tasks: seq<Task>, agents: set<string>, maxConcurrent: int, limiter: int) returns (p: Prepared)
    ensures p.Ready? <==> ValidGraph(tasks, agents) && !Cyclic(tasks)
    ensures p.Ready? ==> ValidConfig(p.config) && p.config.tasks == tasks && p.config.shared == (limiter > 0)
                         && p.config.cap
                            == if limiter > 0 then limiter else if maxConcurrent > 0 then maxConcurrent else 5
    ensures p.Rejected? ==> Blames(tasks, agents, p.why)
    ensures p.Cycle? ==> p.involved == set t | t in Ids(tasks) && ReachesCycle(tasks, t)
  {
    var maxC := maxConcurrent;
    if maxC <= 0 {
      maxC := 5;
    }
    var err := Validate(tasks, agents);
    if !err.Accepted? {
      return Rejected(err);
    }
    var taskMap: map<Id, Task> := map[];
    for i := 0 to |tasks|
      invariant taskMap.Keys == Ids(tasks[..i])
      invariant forall j :: 0 <= j < i ==> tasks[j].id in taskMap && taskMap[tasks[j].id] == tasks[j]
    {
      IdsGrow(tasks, i);
      taskMap := taskMap[tasks[i].id := tasks[i]];
    }
    assert tasks[..|tasks|] == tasks;
    var sorted := TopoSort.TopoSort(tasks);
    match sorted {
      case CycleDetected(involved) => return Cycle(involved);
      case Sorted(order) =>
        return Ready(Config(tasks, taskMap, order, if limiter > 0 then limiter else maxC, limiter > 0));
    }
  }

  /** Execute after the last goroutine: the results in the order of the graph. */
  method Collect(c: Config, s: State) returns (rs: seq<TaskResult>)
    requires ValidConfig(c) && Shape(c, s)
    ensures |rs| == |c.tasks|
    ensures forall i :: 0 <= i < |rs| ==> rs[i] == s.results[c.tasks[i].id]
  {
    rs := [];
    for i := 0 to |c.tasks|
      invariant |rs| == i
      invariant forall j :: 0 <= j < i ==> rs[j] == s.results[c.tasks[j].id]
    {
      assert c.tasks[i].id in Ids(c.tasks);
      rs := rs + [s.results[c.tasks[i].id]];
    }
  }
}
