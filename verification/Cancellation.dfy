/** Validation of a task graph and the cancellation of everything downstream of a failed task. */
module Cancellation {
  import opened Sets
  import opened TaskGraph

  datatype GraphError =
    | Accepted
    | EmptyGraph
    | MissingId(index: nat)
    | MissingAgent(index: nat)
    | MissingMessage(index: nat)
    | DuplicateId(index: nat)
    | UnknownAgent(index: nat)
    | UnknownDependency(index: nat, dep: Id)

  /** What a task needs apart from its dependencies. */
  ghost predicate WellFormedTask(ts: seq<Task>, agents: set<string>, i: nat)
    requires i < |ts|
  {
    && ts[i].id != "" && ts[i].agent != "" && ts[i].message != ""
    && ts[i].id !in Ids(ts[..i])
    && ts[i].agent in agents
  }

  ghost predicate ValidGraph(ts: seq<Task>, agents: set<string>) {
    && ts != [] && UniqueIds(ts) && KnownDeps(ts)
    && forall i :: 0 <= i < |ts| ==>
         ts[i].id != "" && ts[i].agent != "" && ts[i].message != "" && ts[i].agent in agents
  }

  /** The error names the first task that has a defect, and the first defect of that task. */
  ghost predicate Blames(ts: seq<Task>, agents: set<string>, e: GraphError) {
    match e
    case Accepted => false
    case EmptyGraph => ts == []
    case UnknownDependency(i, dep) =>
      && i < |ts| && (forall j :: 0 <= j < |ts| ==> WellFormedTask(ts, agents, j))
      && dep in ts[i].dependsOn && dep !in Ids(ts)
      && forall j, d :: 0 <= j < i && d in ts[j].dependsOn ==> d in Ids(ts)
    case _ =>
      && e.index < |ts| && (forall j :: 0 <= j < e.index ==> WellFormedTask(ts, agents, j))
      && var t := ts[e.index];
         if t.id == "" then e.MissingId?
         else if t.agent == "" then e.MissingAgent?
         else if t.message == "" then e.MissingMessage?
         else if t.id in Ids(ts[..e.index]) then e.DuplicateId?
         else t.agent !in agents && e.UnknownAgent?
  }

  method Validate(ts: seq<Task>, agents: set<string>) returns (e: GraphError)
    ensures e.Accepted? <==> ValidGraph(ts, agents)
    ensures !e.Accepted? ==> Blames(ts, agents, e)
  {
    if |ts| == 0 {
      return EmptyGraph;
    }
    var ids: set<Id> := {};
    for i := 0 to |ts|
      invariant ids == Ids(ts[..i])
      invariant forall j :: 0 <= j < i ==> WellFormedTask(ts, agents, j)
    {
      var t := ts[i];
      IdsGrow(ts, i);
      if t.id == "" {
        return MissingId(i);
      }
      if t.agent == "" {
        return MissingAgent(i);
      }
      if t.message == "" {
        return MissingMessage(i);
      }
      if t.id in ids {
        DuplicateBreaksUniqueness(ts, i);
        return DuplicateId(i);
      }
      ids := ids + {t.id};
      if t.agent !in agents {
        return UnknownAgent(i);
      }
    }
    assert ts[..|ts|] == ts;
    for i := 0 to |ts|
      invariant forall j, d :: 0 <= j < i && d in ts[j].dependsOn ==> d in ids
    {
      for k := 0 to |ts[i].dependsOn|
        invariant forall d :: d in ts[i].dependsOn[..k] ==> d in ids
      {
        var dep := ts[i].dependsOn[k];
        if dep !in ids {
          return UnknownDependency(i, dep);
        }
        assert ts[i].dependsOn[..k + 1] == ts[i].dependsOn[..k] + [dep];
      }
      assert ts[i].dependsOn[..|ts[i].dependsOn|] == ts[i].dependsOn;
    }
    forall i | 0 <= i < |ts|
      ensures ts[i].id != "" && ts[i].agent != "" && ts[i].message != "" && ts[i].agent in agents
    {
      assert WellFormedTask(ts, agents, i);
    }
    assert UniqueIds(ts) by {
      forall i, j | 0 <= i < j < |ts|
        ensures ts[i].id != ts[j].id
      {
        assert WellFormedTask(ts, agents, j);
        assert ts[..j][i] == ts[i];
      }
    }
    return Accepted;
  }

  lemma IdsGrow(ts: seq<Task>, n: nat)
    requires n < |ts|
    ensures Ids(ts[..n + 1]) == Ids(ts[..n]) + {ts[n].id}
  {
    assert ts[..n + 1][n] == ts[n];
    assert forall i :: 0 <= i < n ==> ts[..n + 1][i] == ts[..n][i];
  }

  lemma DuplicateBreaksUniqueness(ts: seq<Task>, i: nat)
    requires i < |ts| && ts[i].id in Ids(ts[..i])
    ensures !UniqueIds(ts)
  {
    var j :| 0 <= j < i && ts[..i][j].id == ts[i].id;
    assert ts[j].id == ts[i].id;
  }

  /** The transitive dependents of a task: what a blocking failure takes down. */
  ghost function Downstream(ts: seq<Task>, f: Id): set<Id> {
    set t | t in Ids(ts) && DependsOn(ts, t, f)
  }

  /** Members of s outside open have all their direct dependents in s. */
  ghost predicate ClosedExcept(ts: seq<Task>, s: set<Id>, open: set<Id>) {
    forall x, t :: x in s && x !in open && Edge(ts, t, x) ==> t in s
  }

  /** A set closed under direct dependents that holds those of f holds everything downstream of f. */
  lemma {:induction false} ClosureReaches(ts: seq<Task>, s: set<Id>, f: Id, x: Id, n: nat)
    requires ClosedExcept(ts, s, {}) && (forall t :: Edge(ts, t, f) ==> t in s)
    requires n > 0 && Reach(ts, x, f, n)
    ensures x in s
    decreases n
  {
    var m :| Edge(ts, x, m) && Reach(ts, m, f, n - 1);
    if n > 1 {
      ClosureReaches(ts, s, f, m, n - 1);
    }
  }

  lemma DownstreamClosed(ts: seq<Task>, f: Id)
    ensures ClosedExcept(ts, Downstream(ts, f), {})
  {
    forall x, t | x in Downstream(ts, f) && Edge(ts, t, x)
      ensures t in Downstream(ts, f)
    {
      EdgeIsDependency(ts, t, x);
      DependsOnTransitive(ts, t, x, f);
    }
  }

  /** The dispatcher's table of cancelled tasks and the depth-first walk that fills it. */
  class CancelTable {
    const tasks: seq<Task>
    var cancelled: set<Id>

    constructor (ts: seq<Task>)
      ensures tasks == ts && cancelled == {}
    {
      tasks, cancelled := ts, {};
    }

    /** open holds the tasks whose own walk is still on the call stack. */
    method Walk(failed: Id, ghost open: set<Id>)
      requires cancelled <= Ids(tasks)
      requires ClosedExcept(tasks, cancelled, open + {failed})
      modifies this`cancelled
      ensures GrownBy(tasks, old(cancelled), cancelled, failed)
      ensures forall t :: Edge(tasks, t, failed) ==> t in cancelled
      ensures ClosedExcept(tasks, cancelled, open)
      decreases |Ids(tasks) - cancelled|, 1
    {
      for i := 0 to |tasks|
        invariant GrownBy(tasks, old(cancelled), cancelled, failed)
        invariant forall j :: 0 <= j < i && failed in tasks[j].dependsOn ==> tasks[j].id in cancelled
        invariant ClosedExcept(tasks, cancelled, open + {failed})
      {
        var t := tasks[i];
        for k := 0 to |t.dependsOn|
          invariant GrownBy(tasks, old(cancelled), cancelled, failed)
          invariant forall j :: 0 <= j < i && failed in tasks[j].dependsOn ==> tasks[j].id in cancelled
          invariant failed in t.dependsOn[..k] ==> t.id in cancelled
          invariant ClosedExcept(tasks, cancelled, open + {failed})
        {
          if t.dependsOn[k] == failed {
            if t.id !in cancelled {
              assert Edge(tasks, t.id, failed);
              SubsetSize(Ids(tasks) - cancelled, Ids(tasks) - old(cancelled));
              Enter(t.id, failed, open);
            }
          }
          assert t.dependsOn[..k + 1] == t.dependsOn[..k] + [t.dependsOn[k]];
        }
        assert t.dependsOn[..|t.dependsOn|] == t.dependsOn;
      }
    }

    /** The innermost branch of the walk: a direct dependent not in the table yet. */
    method Enter(t: Id, failed: Id, ghost open: set<Id>)
      requires cancelled <= Ids(tasks) && t in Ids(tasks) && t !in cancelled && Edge(tasks, t, failed)
      requires ClosedExcept(tasks, cancelled, open + {failed})
      modifies this`cancelled
      ensures t in cancelled && GrownBy(tasks, old(cancelled), cancelled, failed)
      ensures ClosedExcept(tasks, cancelled, open + {failed})
      decreases |Ids(tasks) - cancelled|, 0
    {
      EdgeIsDependency(tasks, t, failed);
      ghost var before := cancelled;
      cancelled := cancelled + {t};
      SubsetSize(Ids(tasks) - cancelled, Ids(tasks) - before);
      Walk(t, open + {failed});
      forall x | x in cancelled && x !in before + {t}
        ensures DependsOn(tasks, x, failed)
      {
        DependsOnTransitive(tasks, x, t, failed);
      }
    }

    /** What the dispatcher does on a blocking failure, with the table closed under dependents. */
    method MarkCancelled(failed: Id)
      requires cancelled <= Ids(tasks) && ClosedExcept(tasks, cancelled, {})
      modifies this`cancelled
      ensures cancelled == old(cancelled) + Downstream(tasks, failed)
      ensures cancelled <= Ids(tasks) && ClosedExcept(tasks, cancelled, {})
    {
      Walk(failed, {});
      forall x | x in Downstream(tasks, failed)
        ensures x in cancelled
      {
        var n: nat :| n > 0 && Reach(tasks, x, failed, n);
        ClosureReaches(tasks, cancelled, failed, x, n);
      }
    }
  }

  /** The table has grown by dependents of f only. */
  ghost predicate GrownBy(ts: seq<Task>, before: set<Id>, now: set<Id>, f: Id) {
    before <= now <= Ids(ts) && forall x :: x in now && x !in before ==> DependsOn(ts, x, f)
  }
}
