/** Task graphs as the dispatcher receives them, and the dependency relation they induce. */
module TaskGraph {
  type Id = string

  datatype Task = Task(id: Id, agent: string, message: string, dependsOn: seq<Id>,
                       blocking: bool, timeoutSeconds: int)

  ghost predicate UniqueIds(ts: seq<Task>) {
    forall i, j :: 0 <= i < j < |ts| ==> ts[i].id != ts[j].id
  }

  function Ids(ts: seq<Task>): set<Id> {
    set i | 0 <= i < |ts| :: ts[i].id
  }

  ghost predicate KnownDeps(ts: seq<Task>) {
    forall i, d :: 0 <= i < |ts| && d in ts[i].dependsOn ==> d in Ids(ts)
  }

  /** Task t names d in its depends_on list. */
  ghost predicate Edge(ts: seq<Task>, t: Id, d: Id) {
    exists i :: 0 <= i < |ts| && ts[i].id == t && d in ts[i].dependsOn
  }

  /** Following n edges from t can end in d. */
  ghost predicate Reach(ts: seq<Task>, t: Id, d: Id, n: nat)
    decreases n
  {
    if n == 0 then t == d else exists m :: Edge(ts, t, m) && Reach(ts, m, d, n - 1)
  }

  /** t depends on d through one or more edges. */
  ghost predicate DependsOn(ts: seq<Task>, t: Id, d: Id) {
    exists n: nat :: n > 0 && Reach(ts, t, d, n)
  }

  ghost predicate Cyclic(ts: seq<Task>) {
    exists t :: DependsOn(ts, t, t)
  }

  lemma {:induction false} ReachCompose(ts: seq<Task>, a: Id, b: Id, c: Id, m: nat, n: nat)
    requires Reach(ts, a, b, m) && Reach(ts, b, c, n)
    ensures Reach(ts, a, c, m + n)
    decreases m
  {
    if m > 0 {
      var x :| Edge(ts, a, x) && Reach(ts, x, b, m - 1);
      ReachCompose(ts, x, b, c, m - 1, n);
    }
  }

  lemma DependsOnTransitive(ts: seq<Task>, a: Id, b: Id, c: Id)
    requires DependsOn(ts, a, b) && DependsOn(ts, b, c)
    ensures DependsOn(ts, a, c)
  {
    var m: nat :| m > 0 && Reach(ts, a, b, m);
    var n: nat :| n > 0 && Reach(ts, b, c, n);
    ReachCompose(ts, a, b, c, m, n);
  }

  lemma EdgeIsDependency(ts: seq<Task>, t: Id, d: Id)
    requires Edge(ts, t, d)
    ensures DependsOn(ts, t, d)
  {
    assert Reach(ts, d, d, 0);
    assert Reach(ts, t, d, 1);
  }

  /** A dependency is an edge, or an edge followed by a dependency. */
  lemma FirstEdge(ts: seq<Task>, t: Id, d: Id) returns (m: Id)
    requires DependsOn(ts, t, d)
    ensures Edge(ts, t, m) && (m == d || DependsOn(ts, m, d))
  {
    var n: nat :| n > 0 && Reach(ts, t, d, n);
    m :| Edge(ts, t, m) && Reach(ts, m, d, n - 1);
  }

  /** A dependency is an edge, or a dependency followed by an edge. */
  lemma {:induction false} LastEdge(ts: seq<Task>, t: Id, d: Id, n: nat) returns (m: Id)
    requires n > 0 && Reach(ts, t, d, n)
    ensures Edge(ts, m, d) && (t == m || DependsOn(ts, t, m))
    decreases n
  {
    var x :| Edge(ts, t, x) && Reach(ts, x, d, n - 1);
    if n == 1 {
      m := t;
    } else {
      m := LastEdge(ts, x, d, n - 1);
      EdgeIsDependency(ts, t, x);
      if x != m {
        DependsOnTransitive(ts, t, x, m);
      }
    }
  }

  ghost predicate DependsOnMember(ts: seq<Task>, x: Id, r: set<Id>) {
    exists y :: y in r && DependsOn(ts, x, y)
  }

  ghost predicate Endless(ts: seq<Task>, r: set<Id>) {
    forall x {:trigger DependsOnMember(ts, x, r)} :: x in r ==> DependsOnMember(ts, x, r)
  }

  /** If every member of a finite nonempty set depends on a member, some member is on a cycle. */
  lemma {:induction false} EndlessSetHasCycle(ts: seq<Task>, r: set<Id>) returns (c: Id)
    requires r != {} && Endless(ts, r)
    ensures c in r && DependsOn(ts, c, c)
    decreases |r|
  {
    var x :| x in r;
    assert DependsOnMember(ts, x, r);
    var y :| y in r && DependsOn(ts, x, y);
    if x == y {
      c := x;
    } else {
      var rest := r - {x};
      assert y in rest;
      forall z | z in rest
        ensures DependsOnMember(ts, z, rest)
      {
        assert DependsOnMember(ts, z, r);
        var w :| w in r && DependsOn(ts, z, w);
        if w == x {
          DependsOnTransitive(ts, z, x, y);
        } else {
          assert w in rest;
        }
      }
      c := EndlessSetHasCycle(ts, rest);
    }
  }

  lemma {:induction false} IdCount(ts: seq<Task>)
    requires UniqueIds(ts)
    ensures |Ids(ts)| == |ts|
  {
    if ts == [] {
      assert Ids(ts) == {};
    } else {
      var init := ts[..|ts| - 1];
      var last := ts[|ts| - 1].id;
      IdCount(init);
      assert Ids(ts) == Ids(init) + {last} by {
        forall x | x in Ids(ts)
          ensures x in Ids(init) + {last}
        {
          var i :| 0 <= i < |ts| && ts[i].id == x;
          assert i < |ts| - 1 ==> init[i].id == x;
        }
        forall x | x in Ids(init)
          ensures x in Ids(ts)
        {
          var i :| 0 <= i < |init| && init[i].id == x;
          assert ts[i].id == x;
        }
      }
      assert last !in Ids(init);
    }
  }
}
