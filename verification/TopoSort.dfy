/** Kahn's algorithm over the dependency relation of a task graph. */
module TopoSort {
  import opened TaskGraph

  datatype SortResult = Sorted(order: seq<Id>) | CycleDetected(involved: set<Id>)

  ghost predicate NoDuplicates(s: seq<Id>) {
    forall i, j :: 0 <= i < j < |s| ==> s[i] != s[j]
  }

  /** Every dependency of an entry stands before it. */
  ghost predicate DependenciesFirst(ts: seq<Task>, order: seq<Id>) {
    forall k, d :: 0 <= k < |order| && Edge(ts, order[k], d) ==> d in order[..k]
  }

  ghost predicate IsTopologicalOrder(ts: seq<Task>, order: seq<Id>) {
    && NoDuplicates(order)
    && (set x | x in order) == Ids(ts)
    && DependenciesFirst(ts, order)
  }

  /** t is on a cycle or depends on a task that is. */
  ghost predicate ReachesCycle(ts: seq<Task>, t: Id) {
    exists c :: (t == c || DependsOn(ts, t, c)) && DependsOn(ts, c, c)
  }

  /** Occurrences in deps that are not yet in done. */
  function Waiting(deps: seq<Id>, done: seq<Id>): nat {
    if deps == [] then 0
    else Waiting(deps[1..], done) + (if deps[0] in done then 0 else 1)
  }

  function Lookup(m: map<Id, seq<Id>>, k: Id): seq<Id> {
    if k in m then m[k] else []
  }

  lemma {:induction false} WaitingZero(deps: seq<Id>, done: seq<Id>)
    ensures Waiting(deps, done) == 0 <==> forall d :: d in deps ==> d in done
  {
    if deps != [] {
      WaitingZero(deps[1..], done);
      assert forall d :: d in deps <==> d == deps[0] || d in deps[1..];
    }
  }

  lemma {:induction false} WaitingStart(deps: seq<Id>)
    ensures Waiting(deps, []) == |deps|
  {
    if deps != [] {
      WaitingStart(deps[1..]);
    }
  }

  lemma {:induction false} WaitingStep(deps: seq<Id>, done: seq<Id>, x: Id)
    requires x !in done
    ensures Waiting(deps, done) == Waiting(deps, done + [x]) + multiset(deps)[x]
  {
    if deps != [] {
      WaitingStep(deps[1..], done, x);
      assert deps == [deps[0]] + deps[1..];
    }
  }

  lemma {:induction false} DistinctCount(s: seq<Id>, universe: set<Id>)
    requires NoDuplicates(s) && forall x :: x in s ==> x in universe
    ensures |s| <= |universe|
    ensures |s| == |universe| ==> (set x | x in s) == universe
  {
    if s == [] {
      assert (set x | x in s) == {};
    } else {
      var init, last := s[..|s| - 1], s[|s| - 1];
      assert s == init + [last];
      assert last !in init;
      DistinctCount(init, universe - {last});
      assert (set x | x in s) == (set x | x in init) + {last};
    }
  }

  /** In an order that puts dependencies first, positions fall along every dependency. */
  lemma {:induction false} DependencyIsEarlier(ts: seq<Task>, order: seq<Id>, k: nat, d: Id, n: nat)
    requires DependenciesFirst(ts, order) && k < |order|
    requires n > 0 && Reach(ts, order[k], d, n)
    ensures d in order[..k]
    decreases n
  {
    var m :| Edge(ts, order[k], m) && Reach(ts, m, d, n - 1);
    var j :| 0 <= j < k && order[j] == m;
    if n > 1 {
      DependencyIsEarlier(ts, order, j, d, n - 1);
      assert order[..j] <= order[..k];
    }
  }

  /** No member of such an order reaches a cycle. */
  lemma OrderedAvoidsCycles(ts: seq<Task>, order: seq<Id>, t: Id)
    requires DependenciesFirst(ts, order) && NoDuplicates(order) && t in order
    ensures !ReachesCycle(ts, t)
  {
    if ReachesCycle(ts, t) {
      var c :| (t == c || DependsOn(ts, t, c)) && DependsOn(ts, c, c);
      var k :| 0 <= k < |order| && order[k] == t;
      if t != c {
        var n: nat :| n > 0 && Reach(ts, t, c, n);
        DependencyIsEarlier(ts, order, k, c, n);
      }
      var j :| 0 <= j < |order| && order[j] == c;
      var n: nat :| n > 0 && Reach(ts, c, c, n);
      DependencyIsEarlier(ts, order, j, c, n);
      assert false;
    }
  }

  ghost predicate WaitsFor(ts: seq<Task>, x: Id, left: set<Id>) {
    exists y :: y in left && Edge(ts, x, y)
  }

  /** A task left over when every leftover waits for a leftover reaches a cycle. */
  lemma LeftoverReachesCycle(ts: seq<Task>, left: set<Id>, t: Id)
    requires t in left
    requires forall x {:trigger WaitsFor(ts, x, left)} :: x in left ==> WaitsFor(ts, x, left)
    ensures ReachesCycle(ts, t)
  {
    var r := set x | x in left && (x == t || DependsOn(ts, t, x));
    assert t in r;
    forall x | x in r
      ensures DependsOnMember(ts, x, r)
    {
      assert WaitsFor(ts, x, left);
      var y :| y in left && Edge(ts, x, y);
      EdgeIsDependency(ts, x, y);
      if x != t {
        DependsOnTransitive(ts, t, x, y);
      }
      assert y in r;
    }
    var c := EndlessSetHasCycle(ts, r);
  }

  function Count(dependents: map<Id, seq<Id>>, d: Id, x: Id): nat {
    multiset(Lookup(dependents, d))[x]
  }

  /** now lists id once more under each of its dependencies, as often as deps says, and is otherwise as before. */
  ghost predicate Listed(before: map<Id, seq<Id>>, now: map<Id, seq<Id>>, id: Id, deps: multiset<Id>) {
    forall d, x {:trigger Count(now, d, x)} :: Count(now, d, x) == Count(before, d, x) + if x == id then deps[d] else 0
  }

  lemma CountAfter(now: map<Id, seq<Id>>, dep: Id, id: Id, d: Id, x: Id)
    ensures Count(now[dep := Lookup(now, dep) + [id]], d, x) == Count(now, d, x) + if x == id && d == dep then 1 else 0
  {
  }

  lemma ListOneMore(before: map<Id, seq<Id>>, now: map<Id, seq<Id>>, id: Id, deps: multiset<Id>, dep: Id)
    requires Listed(before, now, id, deps)
    ensures Listed(before, now[dep := Lookup(now, dep) + [id]], id, deps + multiset{dep})
  {
    var after := now[dep := Lookup(now, dep) + [id]];
    forall d, x
      ensures Count(after, d, x) == Count(before, d, x) + if x == id then (deps + multiset{dep})[d] else 0
    {
      CountAfter(now, dep, id, d, x);
    }
  }

  lemma OneDependencyMore(deps: seq<Id>, k: nat)
    requires k < |deps|
    ensures multiset(deps[..k + 1]) == multiset(deps[..k]) + multiset{deps[k]}
  {
    assert deps[..k + 1] == deps[..k] + [deps[k]];
  }

  /** The body of the table-building loop for one task. */
  method AddTask(t: Task, inDegree: map<Id, int>, dependents: map<Id, seq<Id>>)
    returns (inDegree': map<Id, int>, dependents': map<Id, seq<Id>>)
    requires t.id !in inDegree
    ensures inDegree' == inDegree[t.id := |t.dependsOn|]
    ensures Listed(dependents, dependents', t.id, multiset(t.dependsOn))
  {
    inDegree', dependents' := inDegree, dependents;
    if t.id !in inDegree' {
      inDegree' := inDegree'[t.id := 0];
    }
    for k := 0 to |t.dependsOn|
      invariant inDegree' == inDegree[t.id := k]
      invariant Listed(dependents, dependents', t.id, multiset(t.dependsOn[..k]))
    {
      var dep := t.dependsOn[k];
      ListOneMore(dependents, dependents', t.id, multiset(t.dependsOn[..k]), dep);
      OneDependencyMore(t.dependsOn, k);
      inDegree' := inDegree'[t.id := inDegree'[t.id] + 1];
      dependents' := dependents'[dep := Lookup(dependents', dep) + [t.id]];
    }
    assert t.dependsOn[..|t.dependsOn|] == t.dependsOn;
  }

  /** The in-degree table and the reversed adjacency lists, duplicates counted. */
  ghost predicate Tables(ts: seq<Task>, inDegree: map<Id, int>, dependents: map<Id, seq<Id>>) {
    && inDegree.Keys == Ids(ts)
    && (forall i :: 0 <= i < |ts| ==> inDegree[ts[i].id] == |ts[i].dependsOn|)
    && (forall d, x :: Count(dependents, d, x) > 0 ==> x in Ids(ts))
    && (forall d, i :: 0 <= i < |ts| ==> Count(dependents, d, ts[i].id) == multiset(ts[i].dependsOn)[d])
  }

  lemma IdsOfPrefix(ts: seq<Task>, n: nat)
    requires UniqueIds(ts) && n < |ts|
    ensures Ids(ts[..n + 1]) == Ids(ts[..n]) + {ts[n].id} && ts[n].id !in Ids(ts[..n])
  {
    assert ts[..n + 1][n] == ts[n];
    assert forall i :: 0 <= i < n ==> ts[..n + 1][i] == ts[..n][i];
  }

  method BuildTables(tasks: seq<Task>) returns (inDegree: map<Id, int>, dependents: map<Id, seq<Id>>)
    requires UniqueIds(tasks)
    ensures Tables(tasks, inDegree, dependents)
  {
    inDegree, dependents := map[], map[];
    for n := 0 to |tasks|
      invariant Tables(tasks[..n], inDegree, dependents)
    {
      IdsOfPrefix(tasks, n);
      inDegree, dependents := AddTask(tasks[n], inDegree, dependents);
      assert tasks[..n + 1] == tasks[..n] + [tasks[n]];
    }
    assert tasks[..|tasks|] == tasks;
  }

  /** The tasks with no dependency, in task order. */
  method InitialQueue(tasks: seq<Task>, inDegree: map<Id, int>) returns (queue: seq<Id>)
    requires UniqueIds(tasks) && inDegree.Keys == Ids(tasks)
    ensures NoDuplicates(queue)
    ensures forall x :: x in queue <==> x in Ids(tasks) && inDegree[x] == 0
  {
    queue := [];
    for n := 0 to |tasks|
      invariant NoDuplicates(queue)
      invariant forall x :: x in queue <==> exists i :: 0 <= i < n && tasks[i].id == x && inDegree[x] == 0
    {
      if inDegree[tasks[n].id] == 0 {
        queue := queue + [tasks[n].id];
      }
    }
  }

  ghost predicate Accounted(ts: seq<Task>, inDegree: map<Id, int>, order: seq<Id>, queue: seq<Id>, owed: multiset<Id>)
    requires inDegree.Keys == Ids(ts)
  {
    && NoDuplicates(order + queue)
    && (forall x :: x in order + queue ==> x in Ids(ts))
    && (forall i :: 0 <= i < |ts| ==>
          inDegree[ts[i].id] == Waiting(ts[i].dependsOn, order) + owed[ts[i].id])
    && (forall x :: x in Ids(ts) ==> (x in order + queue <==> inDegree[x] == 0))
  }

  /** Moving the head of the queue to the order turns its incoming edges into debts. */
  lemma TakeHead(ts: seq<Task>, inDegree: map<Id, int>, order: seq<Id>, queue: seq<Id>, succ: seq<Id>)
    requires UniqueIds(ts) && inDegree.Keys == Ids(ts) && queue != []
    requires Accounted(ts, inDegree, order, queue, multiset{})
    requires DependenciesFirst(ts, order)
    requires forall i :: 0 <= i < |ts| ==> multiset(succ)[ts[i].id] == multiset(ts[i].dependsOn)[queue[0]]
    ensures Accounted(ts, inDegree, order + [queue[0]], queue[1..], multiset(succ))
    ensures DependenciesFirst(ts, order + [queue[0]])
  {
    var node, order' := queue[0], order + [queue[0]];
    assert order' + queue[1..] == order + queue;
    assert (order + queue)[|order|] == node;
    assert node !in order by {
      forall k | 0 <= k < |order|
        ensures order[k] != node
      {
        assert (order + queue)[k] == order[k];
      }
    }
    forall i | 0 <= i < |ts|
      ensures inDegree[ts[i].id] == Waiting(ts[i].dependsOn, order') + multiset(succ)[ts[i].id]
    {
      WaitingStep(ts[i].dependsOn, order, node);
    }
    forall k, d | 0 <= k < |order'| && Edge(ts, order'[k], d)
      ensures d in order'[..k]
    {
      if k == |order| {
        var i :| 0 <= i < |ts| && ts[i].id == node && d in ts[i].dependsOn;
        assert node in order + queue;
        WaitingZero(ts[i].dependsOn, order);
        assert order'[..k] == order;
      } else {
        assert order'[..k] == order[..k];
      }
    }
  }

  /** Paying one debt of the first successor, as the inner loop does. */
  lemma PayDebt(ts: seq<Task>, inDegree: map<Id, int>, order: seq<Id>, queue: seq<Id>, succ: seq<Id>,
                inDegree': map<Id, int>, queue': seq<Id>)
    requires UniqueIds(ts) && inDegree.Keys == Ids(ts) && succ != [] && succ[0] in Ids(ts)
    requires Accounted(ts, inDegree, order, queue, multiset(succ))
    requires inDegree' == inDegree[succ[0] := inDegree[succ[0]] - 1]
    requires queue' == if inDegree'[succ[0]] == 0 then queue + [succ[0]] else queue
    ensures inDegree'.Keys == Ids(ts)
    ensures Accounted(ts, inDegree', order, queue', multiset(succ[1..]))
  {
    var dep := succ[0];
    assert multiset(succ) == multiset(succ[1..]) + multiset{dep} by {
      assert succ == [dep] + succ[1..];
    }
    OwedIsPositive(ts, inDegree, order, queue, multiset(succ), dep);
    QueueGrows(order, queue, queue', dep);
  }

  lemma OwedIsPositive(ts: seq<Task>, inDegree: map<Id, int>, order: seq<Id>, queue: seq<Id>, owed: multiset<Id>,
                       dep: Id)
    requires inDegree.Keys == Ids(ts) && dep in Ids(ts) && owed[dep] > 0
    requires Accounted(ts, inDegree, order, queue, owed)
    ensures inDegree[dep] > 0 && dep !in order + queue
  {
    var i :| 0 <= i < |ts| && ts[i].id == dep;
  }

  lemma QueueGrows(order: seq<Id>, queue: seq<Id>, queue': seq<Id>, dep: Id)
    requires NoDuplicates(order + queue) && dep !in order + queue
    requires queue' == queue || queue' == queue + [dep]
    ensures NoDuplicates(order + queue')
    ensures forall x :: x in order + queue' <==> x in order + queue || (x == dep && queue' != queue)
  {
    if queue' != queue {
      assert order + queue' == (order + queue) + [dep];
    }
  }

  /** The inner loop: every successor of the node just ordered loses one incoming edge. */
  method ReleaseSuccessors(ghost ts: seq<Task>, inDegree: map<Id, int>, ghost order: seq<Id>, queue: seq<Id>,
                           succ: seq<Id>)
    returns (inDegree': map<Id, int>, queue': seq<Id>)
    requires UniqueIds(ts) && inDegree.Keys == Ids(ts)
    requires forall x :: x in succ ==> x in Ids(ts)
    requires Accounted(ts, inDegree, order, queue, multiset(succ))
    ensures inDegree'.Keys == Ids(ts)
    ensures Accounted(ts, inDegree', order, queue', multiset{})
  {
    inDegree', queue' := inDegree, queue;
    for j := 0 to |succ|
      invariant inDegree'.Keys == Ids(ts)
      invariant Accounted(ts, inDegree', order, queue', multiset(succ[j..]))
    {
      var dep := succ[j];
      ghost var before, queued := inDegree', queue';
      inDegree' := inDegree'[dep := inDegree'[dep] - 1];
      if inDegree'[dep] == 0 {
        queue' := queue' + [dep];
      }
      assert succ[j..][1..] == succ[j + 1..];
      PayDebt(ts, before, order, queued, succ[j..], inDegree', queue');
    }
    assert succ[|succ|..] == [];
  }

  method TopoSort(tasks: seq<Task>) returns (r: SortResult)
    requires UniqueIds(tasks) && KnownDeps(tasks)
    ensures r.Sorted? <==> !Cyclic(tasks)
    ensures r.Sorted? ==> IsTopologicalOrder(tasks, r.order)
    ensures r.CycleDetected? ==> r.involved == set t | t in Ids(tasks) && ReachesCycle(tasks, t)
  {
    var inDegree, dependents := BuildTables(tasks);
    var queue := InitialQueue(tasks, inDegree);
    var order: seq<Id> := [];
    StartAccounts(tasks, inDegree, queue);
    while queue != []
      invariant inDegree.Keys == Ids(tasks)
      invariant Accounted(tasks, inDegree, order, queue, multiset{})
      invariant DependenciesFirst(tasks, order)
      decreases |tasks| - |order|
    {
      IdCount(tasks);
      DistinctCount(order + queue, Ids(tasks));
      var node := queue[0];
      var succ := Lookup(dependents, node);
      assert forall x :: x in succ ==> Count(dependents, node, x) > 0;
      assert forall i :: 0 <= i < |tasks| ==> Count(dependents, node, tasks[i].id) == multiset(succ)[tasks[i].id];
      TakeHead(tasks, inDegree, order, queue, succ);
      queue := queue[1..];
      order := order + [node];
      inDegree, queue := ReleaseSuccessors(tasks, inDegree, order, queue, succ);
    }
    Leftovers(tasks, inDegree, order);
    if |order| != |tasks| {
      var cycleNodes := set id | id in inDegree && inDegree[id] > 0;
      return CycleDetected(cycleNodes);
    }
    return Sorted(order);
  }

  lemma StartAccounts(ts: seq<Task>, inDegree: map<Id, int>, queue: seq<Id>)
    requires UniqueIds(ts) && inDegree.Keys == Ids(ts)
    requires forall i :: 0 <= i < |ts| ==> inDegree[ts[i].id] == |ts[i].dependsOn|
    requires NoDuplicates(queue) && forall x :: x in queue <==> x in Ids(ts) && inDegree[x] == 0
    ensures Accounted(ts, inDegree, [], queue, multiset{})
  {
    assert [] + queue == queue;
    forall i | 0 <= i < |ts|
      ensures inDegree[ts[i].id] == Waiting(ts[i].dependsOn, [])
    {
      WaitingStart(ts[i].dependsOn);
    }
  }

  /** Every task outside the final order waits for another one outside it. */
  lemma LeftoversWait(ts: seq<Task>, inDegree: map<Id, int>, order: seq<Id>, left: set<Id>)
    requires UniqueIds(ts) && KnownDeps(ts) && inDegree.Keys == Ids(ts)
    requires Accounted(ts, inDegree, order, [], multiset{})
    requires left == set t | t in Ids(ts) && t !in order
    ensures forall x {:trigger WaitsFor(ts, x, left)} :: x in left ==> WaitsFor(ts, x, left)
  {
    assert order + [] == order;
    forall x | x in left
      ensures WaitsFor(ts, x, left)
    {
      var i :| 0 <= i < |ts| && ts[i].id == x;
      WaitingZero(ts[i].dependsOn, order);
      var y :| y in ts[i].dependsOn && y !in order;
      assert y in left && Edge(ts, x, y);
    }
  }

  /** When the queue is empty, exactly the tasks outside the order reach a cycle. */
  lemma LeftoversReachCycles(ts: seq<Task>, inDegree: map<Id, int>, order: seq<Id>)
    requires UniqueIds(ts) && KnownDeps(ts) && inDegree.Keys == Ids(ts)
    requires Accounted(ts, inDegree, order, [], multiset{}) && DependenciesFirst(ts, order)
    ensures forall t :: t in Ids(ts) ==> (inDegree[t] > 0 <==> ReachesCycle(ts, t))
    ensures forall t :: t in Ids(ts) ==> (t in order <==> !ReachesCycle(ts, t))
  {
    assert order + [] == order;
    var left := set t | t in Ids(ts) && t !in order;
    LeftoversWait(ts, inDegree, order, left);
    forall t | t in Ids(ts)
      ensures inDegree[t] > 0 <==> ReachesCycle(ts, t)
      ensures t in order <==> !ReachesCycle(ts, t)
    {
      var i :| 0 <= i < |ts| && ts[i].id == t;
      if t in order {
        OrderedAvoidsCycles(ts, order, t);
      } else {
        LeftoverReachesCycle(ts, left, t);
      }
    }
  }

  lemma CycleIsReached(ts: seq<Task>)
    ensures Cyclic(ts) <==> exists t :: t in Ids(ts) && ReachesCycle(ts, t)
  {
    if Cyclic(ts) {
      var t :| DependsOn(ts, t, t);
      var m := FirstEdge(ts, t, t);
      assert t in Ids(ts) && ReachesCycle(ts, t);
    }
  }

  /** An order as long as the graph holds every task; a shorter one misses some. */
  lemma OrderLength(ts: seq<Task>, order: seq<Id>)
    requires UniqueIds(ts) && NoDuplicates(order) && forall x :: x in order ==> x in Ids(ts)
    ensures |order| == |ts| <==> (set x | x in order) == Ids(ts)
  {
    IdCount(ts);
    DistinctCount(order, Ids(ts));
    SetOfDistinct(order);
  }

  lemma Leftovers(ts: seq<Task>, inDegree: map<Id, int>, order: seq<Id>)
    requires UniqueIds(ts) && KnownDeps(ts) && inDegree.Keys == Ids(ts)
    requires Accounted(ts, inDegree, order, [], multiset{}) && DependenciesFirst(ts, order)
    ensures forall t :: t in Ids(ts) ==> (inDegree[t] > 0 <==> ReachesCycle(ts, t))
    ensures Cyclic(ts) <==> |order| != |ts|
    ensures |order| == |ts| ==> IsTopologicalOrder(ts, order)
  {
    assert order + [] == order;
    LeftoversReachCycles(ts, inDegree, order);
    CycleIsReached(ts);
    OrderLength(ts, order);
    assert (set x | x in order) == Ids(ts) <==> forall t :: t in Ids(ts) ==> t in order;
  }

  lemma {:induction false} SetOfDistinct(s: seq<Id>)
    requires NoDuplicates(s)
    ensures |set x | x in s| == |s|
  {
    if s == [] {
      assert (set x | x in s) == {};
    } else {
      var init, last := s[..|s| - 1], s[|s| - 1];
      assert s == init + [last];
      SetOfDistinct(init);
      assert (set x | x in s) == (set x | x in init) + {last};
    }
  }
}
