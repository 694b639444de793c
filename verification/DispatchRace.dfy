/** When a dependent of a blocking failure can outrun it. If the caller cancels the dispatch first, the tasks between
    the two leave through the context and open their channels; only a direct dependency still holds the dependent
    back. */
module DispatchRace {
  import opened Sets
  import opened TaskGraph
  import opened TopoSort
  import opened Cancellation
  import opened DispatchMachine
  import opened DispatchRuns

  // ---------------------------------------------------------------- growing a run

  ghost predicate Reachable(c: Config, s: State) {
    exists ss, acts :: IsRun(c, ss, acts) && ss[|acts|] == s
  }

  lemma Extend(c: Config, ss: seq<State>, acts: seq<Step>, a: Step)
    requires IsRun(c, ss, acts) && Enabled(c, ss[|acts|], a)
    ensures IsRun(c, ss + [Apply(c, ss[|acts|], a)], acts + [a])
  {
    var ss', acts' := ss + [Apply(c, ss[|acts|], a)], acts + [a];
    forall i | 0 <= i < |acts'|
      ensures Enabled(c, ss'[i], acts'[i]) && ss'[i + 1] == Apply(c, ss'[i], acts'[i])
    {
      assert i < |acts| ==> Enabled(c, ss[i], acts[i]);
    }
  }

  lemma ReachNext(c: Config, s: State, a: Step)
    requires Reachable(c, s) && Enabled(c, s, a)
    ensures Reachable(c, Apply(c, s, a))
  {
    var ss, acts :| IsRun(c, ss, acts) && ss[|acts|] == s;
    Extend(c, ss, acts, a);
    assert (ss + [Apply(c, s, a)])[|acts + [a]|] == Apply(c, s, a);
  }

  /** The context is cancelled, nothing has been entered in the table, and held slots are taken. */
  ghost predicate Calm(c: Config, s: State, held: nat) {
    && s.pc.Keys == c.task.Keys && s.results.Keys == c.task.Keys
    && s.cancelled == {} && s.ctxDone && s.held == held && s.others == 0
  }

  /** From s to s' only t has moved, to pc. */
  ghost predicate OnlyMoved(c: Config, s: State, s': State, t: Id, pc: PC) {
    && s.pc.Keys == c.task.Keys && s'.pc.Keys == c.task.Keys && t in c.task && s'.pc[t] == pc
    && forall x {:trigger s'.pc[x]} :: x in c.task && x != t ==> s'.pc[x] == s.pc[x]
  }

  lemma CalmMove(c: Config, s: State, held: nat, t: Id, m: Move)
    requires Calm(c, s, held) && t in c.task && CanMove(c, s, t, s.pc[t], m) && !m.Mark?
    ensures Enabled(c, s, Go(t, m))
    ensures var s' := Apply(c, s, Go(t, m));
            && Calm(c, s', if m.TakeSlot? then held + 1 else if m.FreeSlot? then held - 1 else held)
            && OnlyMoved(c, s, s', t, NextPc(c, s, t, s.pc[t], m))
            && s'.results == s.results[t := NextResult(c, s, t, s.pc[t], s.results[t], m)]
            && s'.closed == if m.Close? then s.closed + {t} else s.closed
  {
  }

  /** One more move of a goroutine. */
  lemma Advance(c: Config, s: State, held: nat, t: Id, m: Move) returns (s': State)
    requires Reachable(c, s) && Calm(c, s, held) && t in c.task && CanMove(c, s, t, s.pc[t], m) && !m.Mark?
    ensures Reachable(c, s')
    ensures Calm(c, s', if m.TakeSlot? then held + 1 else if m.FreeSlot? then held - 1 else held)
    ensures OnlyMoved(c, s, s', t, NextPc(c, s, t, s.pc[t], m))
    ensures s'.results[t] == NextResult(c, s, t, s.pc[t], s.results[t], m)
    ensures s'.closed == if m.Close? then s.closed + {t} else s.closed
  {
    CalmMove(c, s, held, t, m);
    ReachNext(c, s, Go(t, m));
    s' := Apply(c, s, Go(t, m));
  }

  // ---------------------------------------------------------------- everybody starts, the caller cancels

  function StartPc(c: Config, spawned: set<Id>): map<Id, PC> {
    map t | t in c.task.Keys :: if t in spawned then AfterWait(c, t, 0) else NotSpawned
  }

  function FirstOf(order: seq<Id>, n: nat): set<Id>
    requires n <= |order|
  {
    set i | 0 <= i < n :: order[i]
  }

  lemma SpawnOne(c: Config, pc: map<Id, PC>, n: nat)
    requires n < |c.order| && c.order[n] in c.task && pc == StartPc(c, FirstOf(c.order, n))
    ensures pc[c.order[n] := AfterWait(c, c.order[n], 0)] == StartPc(c, FirstOf(c.order, n + 1))
  {
    assert FirstOf(c.order, n + 1) == FirstOf(c.order, n) + {c.order[n]};
  }

  lemma InitialState(c: Config) returns (s: State)
    ensures Reachable(c, s) && IsInit(c, s) && !s.ctxDone && s.others == 0
  {
    s := State(0, map t | t in c.task.Keys :: NotSpawned, map t | t in c.task.Keys :: TaskResult(Pending, ""),
               map[], map[], {}, {}, false, 0, 0);
    assert IsRun(c, [s], []);
  }

  /** The first n goroutines have been started and nothing else has happened. */
  ghost predicate Started(c: Config, s: State, n: nat)
    requires n <= |c.order|
  {
    && s.spawned == n && s.pc == StartPc(c, FirstOf(c.order, n)) && s.results.Keys == c.task.Keys
    && s.cancelled == {} && !s.ctxDone && s.closed == {} && s.held == 0 && s.others == 0
  }

  lemma {:induction false} SpawnSome(c: Config, n: nat) returns (s: State)
    requires n <= |c.order| && forall i :: 0 <= i < |c.order| ==> c.order[i] in c.task
    ensures Reachable(c, s) && Started(c, s, n)
  {
    if n == 0 {
      s := InitialState(c);
      assert FirstOf(c.order, 0) == {};
    } else {
      var before := SpawnSome(c, n - 1);
      SpawnOne(c, before.pc, n - 1);
      ReachNext(c, before, Spawn);
      s := Apply(c, before, Spawn);
    }
  }

  lemma OrderIsKeys(c: Config)
    requires ValidConfig(c)
    ensures forall i :: 0 <= i < |c.order| ==> c.order[i] in c.task
    ensures FirstOf(c.order, |c.order|) == c.task.Keys
  {
    assert forall i :: 0 <= i < |c.order| ==> c.order[i] in (set x | x in c.order);
    assert FirstOf(c.order, |c.order|) == (set x | x in c.order);
  }

  lemma CancelledEarly(c: Config) returns (s: State)
    requires ValidConfig(c)
    ensures Reachable(c, s) && Calm(c, s, 0) && s.pc == StartPc(c, c.task.Keys) && s.closed == {}
  {
    OrderIsKeys(c);
    var before := SpawnSome(c, |c.order|);
    ReachNext(c, before, ParentCancels);
    s := Apply(c, before, ParentCancels);
  }

  // ---------------------------------------------------------------- leaving through the context

  /** From either wait a goroutine can leave. */
  lemma Leave(c: Config, s: State, t: Id) returns (s': State)
    requires Reachable(c, s) && Calm(c, s, 0) && t in c.task && t !in s.closed
    requires s.pc[t].WaitDep? || s.pc[t].AcquireSlot?
    ensures Reachable(c, s') && Calm(c, s', 0) && OnlyMoved(c, s, s', t, Exited) && s'.closed == s.closed + {t}
  {
    s' := Advance(c, s, 0, t, ContextSeen);
    s' := Advance(c, s', 0, t, StoreContext);
    s' := Advance(c, s', 0, t, Close);
  }

  /** The goroutines of done have left, the others stand where they started. */
  ghost predicate LeftBehind(c: Config, s: State, done: set<Id>) {
    && Calm(c, s, 0) && s.closed == done
    && forall t {:trigger s.pc[t]} :: t in c.task ==> s.pc[t] == if t in done then Exited else AfterWait(c, t, 0)
  }

  lemma MovedTwice(c: Config, s: State, s1: State, s2: State, t: Id, p: PC, q: PC)
    requires OnlyMoved(c, s, s1, t, p) && OnlyMoved(c, s1, s2, t, q)
    ensures OnlyMoved(c, s, s2, t, q)
  {
  }

  lemma LeftOneMore(c: Config, s: State, s': State, done: set<Id>, t: Id)
    requires LeftBehind(c, s, done) && t in c.task && OnlyMoved(c, s, s', t, Exited)
    requires Calm(c, s', 0) && s'.closed == s.closed + {t}
    ensures LeftBehind(c, s', done + {t})
  {
  }

  lemma LeaveFromStart(c: Config, s: State, done: set<Id>, t: Id) returns (s': State)
    requires Reachable(c, s) && LeftBehind(c, s, done) && t in c.task && t !in done
    ensures Reachable(c, s') && LeftBehind(c, s', done + {t})
  {
    if s.pc[t].CheckCancelled? {
      var waiting := Advance(c, s, 0, t, ReadCancelled);
      s' := Leave(c, waiting, t);
      MovedTwice(c, s, waiting, s', t, AcquireSlot, Exited);
    } else {
      s' := Leave(c, s, t);
    }
    LeftOneMore(c, s, s', done, t);
  }

  ghost predicate CanLeave(c: Config, who: set<Id>) {
    exists s :: Reachable(c, s) && LeftBehind(c, s, who)
  }

  lemma NobodyLeft(c: Config)
    requires ValidConfig(c)
    ensures CanLeave(c, {})
  {
    var s := CancelledEarly(c);
  }

  lemma OneMoreLeaves(c: Config, done: set<Id>, t: Id)
    requires CanLeave(c, done) && t in c.task && t !in done
    ensures CanLeave(c, done + {t})
  {
    var s :| Reachable(c, s) && LeftBehind(c, s, done);
    var s' := LeaveFromStart(c, s, done, t);
  }

  /** What holds of no goroutine and survives one more holds of any set of them. */
  lemma {:induction false} OneByOne(all: set<Id>, who: set<Id>, holds: set<Id> -> bool)
    requires holds({}) && who <= all
    requires forall done, t {:trigger holds(done + {t})} :: holds(done) && t in all && t !in done ==> holds(done + {t})
    ensures holds(who)
    decreases |who|
  {
    if who != {} {
      var t :| t in who;
      var rest := who - {t};
      SubsetSize(rest, who);
      OneByOne(all, rest, holds);
      assert who == rest + {t};
    }
  }

  lemma LeaveAll(c: Config, who: set<Id>)
    requires ValidConfig(c) && who <= c.task.Keys
    ensures CanLeave(c, who)
  {
    NobodyLeft(c);
    forall done, t | CanLeave(c, done) && t in c.task.Keys && t !in done
      ensures CanLeave(c, done + {t})
    {
      OneMoreLeaves(c, done, t);
    }
    OneByOne(c.task.Keys, who, done => CanLeave(c, done));
  }

  // ---------------------------------------------------------------- running a task after all

  /** With its dependencies closed a goroutine gets through its wait, whatever the context. */
  lemma {:induction false} WaitOut(c: Config, s: State, held: nat, t: Id, k: nat) returns (s': State)
    requires Reachable(c, s) && Calm(c, s, held) && t in c.task && k <= |Deps(c, t)|
    requires s.pc[t] == AfterWait(c, t, k) && forall d :: d in Deps(c, t) ==> d in s.closed
    ensures Reachable(c, s') && Calm(c, s', held) && OnlyMoved(c, s, s', t, CheckCancelled) && s'.closed == s.closed
    decreases |Deps(c, t)| - k
  {
    s' := s;
    if k < |Deps(c, t)| {
      s' := Advance(c, s, held, t, DependencyDone);
      s' := WaitOut(c, s', held, t, k + 1);
    }
  }

  /** From the end of the wait into Running. */
  lemma StartTask(c: Config, s: State, t: Id) returns (s': State)
    requires Reachable(c, s) && Calm(c, s, 0) && t in c.task && c.cap > 0 && s.pc[t].CheckCancelled?
    ensures Reachable(c, s') && Calm(c, s', 1) && OnlyMoved(c, s, s', t, Chatting) && s'.closed == s.closed
    ensures s'.results[t].status.Running?
  {
    s' := Advance(c, s, 0, t, ReadCancelled);
    s' := Advance(c, s', 0, t, TakeSlot);
    s' := Advance(c, s', 1, t, Start);
  }

  /** A running blocking task fails and is about to mark what depends on it. */
  lemma FailTask(c: Config, s: State, f: Id) returns (s': State)
    requires Reachable(c, s) && Calm(c, s, 1) && f in c.task && c.task[f].blocking && s.pc[f].Chatting?
    ensures Reachable(c, s') && Calm(c, s', 0) && OnlyMoved(c, s, s', f, MarkDownstream) && s'.closed == s.closed
  {
    s' := Advance(c, s, 1, f, ChatReturns(ChatError(false)));
    s' := Advance(c, s', 1, f, FreeSlot);
    s' := Advance(c, s', 0, f, StoreResult);
  }

  // ---------------------------------------------------------------- the condition

  lemma NoSelfDependency(c: Config, t: Id)
    requires ValidConfig(c) && t in c.task
    ensures !DependsOn(c.tasks, t, t)
  {
    assert t in (set x | x in c.order);
    OrderedAvoidsCycles(c.tasks, c.order, t);
  }

  /** With f before d but not directly, nothing d or f waits for is d or f. */
  lemma DependenciesElsewhere(c: Config, f: Id, d: Id)
    requires ValidConfig(c) && DependsOn(c.tasks, d, f) && !Edge(c.tasks, d, f) && f in c.task && d in c.task
    ensures forall x :: x in Deps(c, d) ==> x in c.task.Keys - {f, d}
    ensures forall x :: x in Deps(c, f) ==> x in c.task.Keys - {f, d}
  {
    ConfigWired(c);
    NoSelfDependency(c, f);
    NoSelfDependency(c, d);
    forall t, x | t in {f, d} && x in Deps(c, t)
      ensures x in c.task && DependsOn(c.tasks, t, x) && Edge(c.tasks, t, x)
    {
      DepIsEdge(c, t, x);
      EdgeIsDependency(c.tasks, t, x);
    }
    if d in Deps(c, f) {
      DependsOnTransitive(c.tasks, f, d, f);
    }
  }

  lemma EndsAreTasks(c: Config, d: Id, f: Id)
    requires ValidConfig(c) && DependsOn(c.tasks, d, f)
    ensures d in c.task && f in c.task
  {
    ConfigWired(c);
    var first := FirstEdge(c.tasks, d, f);
    var n: nat :| n > 0 && Reach(c.tasks, d, f, n);
    var last := LastEdge(c.tasks, d, f, n);
  }

  /** f has failed and is about to mark its dependents, and d is running. */
  ghost predicate Outran(s: State, f: Id, d: Id) {
    f in s.pc && f in s.results && s.pc[f].MarkDownstream? && d in s.pc && s.pc[d].Chatting? && IsRunning(s, d)
  }

  /** The first part of the run: everybody but f and d leaves, f runs and fails. */
  ghost predicate FailedFirst(c: Config, s: State, f: Id, d: Id) {
    && Reachable(c, s) && Calm(c, s, 0) && f in c.task && s.pc[f].MarkDownstream?
    && d in c.task && s.pc[d] == AfterWait(c, d, 0) && c.task.Keys - {f, d} <= s.closed
  }

  lemma FailFirst(c: Config, f: Id, d: Id) returns (s: State)
    requires ValidConfig(c) && f in c.task && d in c.task && c.task[f].blocking && d != f
    requires forall x :: x in Deps(c, f) ==> x in c.task.Keys - {f, d}
    ensures FailedFirst(c, s, f, d)
  {
    var others := c.task.Keys - {f, d};
    LeaveAll(c, others);
    s :| Reachable(c, s) && LeftBehind(c, s, others);
    s := WaitOut(c, s, 0, f, 0);
    s := StartTask(c, s, f);
    s := FailTask(c, s, f);
  }

  /** The second part: d runs. */
  lemma RunSecond(c: Config, s: State, f: Id, d: Id) returns (s': State)
    requires FailedFirst(c, s, f, d) && c.cap > 0 && d != f
    requires forall x :: x in Deps(c, d) ==> x in c.task.Keys - {f, d}
    ensures Reachable(c, s') && Outran(s', f, d)
  {
    s' := WaitOut(c, s, 0, d, 0);
    s' := StartTask(c, s', d);
  }

  lemma Outrun(c: Config, f: Id, d: Id) returns (s: State)
    requires ValidConfig(c) && f in c.task && d in c.task && c.task[f].blocking
    requires DependsOn(c.tasks, d, f) && !Edge(c.tasks, d, f)
    ensures Reachable(c, s) && Outran(s, f, d)
  {
    DependenciesElsewhere(c, f, d);
    NoSelfDependency(c, f);
    s := FailFirst(c, f, d);
    s := RunSecond(c, s, f, d);
  }

  ghost predicate IsRunning(s: State, t: Id) {
    t in s.results && s.results[t].status.Running?
  }

  /** In some run d is running at the moment f marks its dependents. */
  ghost predicate CanRunDuringMark(c: Config, f: Id, d: Id) {
    exists ss, acts, i :: IsRun(c, ss, acts) && MarksAt(acts, i, f) && IsRunning(ss[i], d)
  }

  ghost predicate MarksAt(acts: seq<Step>, i: nat, f: Id) {
    i < |acts| && acts[i] == Go(f, Mark)
  }

  /** In some run f marks its dependents and d is running at some moment. */
  ghost predicate CanRunDespiteMark(c: Config, f: Id, d: Id) {
    exists ss, acts, i, k: nat :: IsRun(c, ss, acts) && MarksAt(acts, i, f) && k <= |acts| && IsRunning(ss[k], d)
  }

  /** The run that ends with the marking. */
  lemma MarkedRun(c: Config, s: State, f: Id, d: Id) returns (ss: seq<State>, acts: seq<Step>)
    requires Reachable(c, s) && Outran(s, f, d) && f in c.task
    ensures IsRun(c, ss, acts) && |acts| > 0 && MarksAt(acts, |acts| - 1, f) && IsRunning(ss[|acts| - 1], d)
    ensures ss[|acts|] == Apply(c, s, Go(f, Mark))
  {
    ss, acts :| IsRun(c, ss, acts) && ss[|acts|] == s;
    Extend(c, ss, acts, Go(f, Mark));
    ss, acts := ss + [Apply(c, s, Go(f, Mark))], acts + [Go(f, Mark)];
  }

  lemma OutrunByIndirect(c: Config, f: Id, d: Id)
    requires ValidConfig(c) && DependsOn(c.tasks, d, f) && f in c.task && c.task[f].blocking && !Edge(c.tasks, d, f)
    ensures CanRunDuringMark(c, f, d)
  {
    EndsAreTasks(c, d, f);
    var s := Outrun(c, f, d);
    var ss, acts := MarkedRun(c, s, f, d);
  }

  lemma DuringIsDespite(c: Config, f: Id, d: Id)
    ensures CanRunDuringMark(c, f, d) ==> CanRunDespiteMark(c, f, d)
  {
  }

  lemma DirectNeverRuns(c: Config, f: Id, d: Id)
    requires ValidConfig(c) && Edge(c.tasks, d, f)
    ensures !CanRunDespiteMark(c, f, d)
  {
    forall ss, acts, i, k: nat | IsRun(c, ss, acts) && MarksAt(acts, i, f) && k <= |acts|
      ensures !IsRunning(ss[k], d)
    {
      BlockingFailureStopsDirectDependents(c, ss, acts, i, f, d, k);
    }
  }

  /** A dependent of a blocking task can run in a dispatch in which that task fails, even at the very moment the
      failure is marked, if and only if it does not name the task among its own dependencies. */
  lemma OutrunsExactlyIfIndirect(c: Config, f: Id, d: Id)
    requires ValidConfig(c) && f in c.task && c.task[f].blocking && DependsOn(c.tasks, d, f)
    ensures CanRunDespiteMark(c, f, d) <==> !Edge(c.tasks, d, f)
    ensures CanRunDuringMark(c, f, d) <==> !Edge(c.tasks, d, f)
  {
    if Edge(c.tasks, d, f) {
      DirectNeverRuns(c, f, d);
      DuringIsDespite(c, f, d);
    } else {
      OutrunByIndirect(c, f, d);
      DuringIsDespite(c, f, d);
    }
  }

  // ---------------------------------------------------------------- a graph the dispatcher accepts

  const FIRST := Task("a", "researcher", "collect sources", [], true, 0)
  const MIDDLE := Task("b", "writer", "draft: {{a.output}}", ["a"], false, 0)
  const LAST := Task("c", "editor", "polish: {{b.output}}", ["b"], false, 0)

  /** c depends on b, b on a; a is blocking. */
  function Chain(): Config {
    Config([FIRST, MIDDLE, LAST], map["a" := FIRST, "b" := MIDDLE, "c" := LAST], ["a", "b", "c"], 1, false)
  }

  lemma ChainIds()
    ensures Ids(Chain().tasks) == {"a", "b", "c"}
    ensures (set x | x in Chain().order) == {"a", "b", "c"}
  {
    var ts := Chain().tasks;
    assert ts[0].id == "a" && ts[1].id == "b" && ts[2].id == "c";
    var order := Chain().order;
    assert order[0] == "a" && order[1] == "b" && order[2] == "c";
  }

  lemma ChainIsOrdered()
    ensures IsTopologicalOrder(Chain().tasks, Chain().order)
  {
    ChainIds();
    var order := Chain().order;
    assert order[..1] == ["a"] && order[..2] == ["a", "b"];
    forall k, d | 0 <= k < |order| && Edge(Chain().tasks, order[k], d)
      ensures d in order[..k]
    {
      var i :| 0 <= i < 3 && Chain().tasks[i].id == order[k] && d in Chain().tasks[i].dependsOn;
    }
  }

  lemma ChainIsAccepted(agents: set<string>)
    requires {"researcher", "writer", "editor"} <= agents
    ensures ValidGraph(Chain().tasks, agents)
  {
    ChainKnowsDeps();
    assert "researcher" in agents && "writer" in agents && "editor" in agents;
  }

  lemma ChainLookup()
    ensures Chain().task.Keys == {"a", "b", "c"}
    ensures forall i :: 0 <= i < |Chain().tasks| ==>
              Chain().tasks[i].id in Chain().task && Chain().task[Chain().tasks[i].id] == Chain().tasks[i]
  {
  }

  lemma ChainIsValid()
    ensures ValidConfig(Chain())
  {
    ChainIds();
    ChainLookup();
    ChainKnowsDeps();
    ChainIsOrdered();
  }

  lemma ChainKnowsDeps()
    ensures UniqueIds(Chain().tasks) && KnownDeps(Chain().tasks)
  {
    ChainIds();
  }

  lemma ChainDepends()
    ensures DependsOn(Chain().tasks, "c", "a") && !Edge(Chain().tasks, "c", "a")
  {
    var ts := Chain().tasks;
    assert ts[2].id == "c" && "b" in ts[2].dependsOn && ts[1].id == "b" && "a" in ts[1].dependsOn;
    EdgeIsDependency(ts, "b", "a");
    EdgeIsDependency(ts, "c", "b");
    DependsOnTransitive(ts, "c", "b", "a");
  }

  /** In this dispatch, with a single slot, c runs while the failure of a is marked, and is in the table then. */
  lemma FailureMarkedAfterDependentStarted(agents: set<string>) returns (ss: seq<State>, acts: seq<Step>)
    requires {"researcher", "writer", "editor"} <= agents
    ensures ValidGraph(Chain().tasks, agents) && ValidConfig(Chain())
    ensures DependsOn(Chain().tasks, "c", "a") && Chain().task["a"].blocking
    ensures IsRun(Chain(), ss, acts) && |acts| > 0 && acts[|acts| - 1] == Go("a", Mark)
    ensures "c" in ss[|acts|].pc && ss[|acts|].pc["c"].Chatting? && "c" in ss[|acts|].cancelled
  {
    ChainIsAccepted(agents);
    ChainIsValid();
    ChainDepends();
    var s := Outrun(Chain(), "a", "c");
    ss, acts := MarkedRun(Chain(), s, "a", "c");
    assert "c" in Downstream(Chain().tasks, "a") by {
      ChainIds();
    }
  }
}
