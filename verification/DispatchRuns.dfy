/** Whole runs of the dispatcher: what every interleaving guarantees. */
module DispatchRuns {
  import opened TaskGraph
  import opened TopoSort
  import opened Cancellation
  import opened DispatchMachine
  import Interpolation

  ghost predicate IsRun(c: Config, ss: seq<State>, acts: seq<Step>) {
    && |ss| == |acts| + 1 && IsInit(c, ss[0])
    && forall i :: 0 <= i < |acts| ==> Enabled(c, ss[i], acts[i]) && ss[i + 1] == Apply(c, ss[i], acts[i])
  }

  lemma {:induction false} RunInv(c: Config, ss: seq<State>, acts: seq<Step>, k: nat)
    requires ValidConfig(c) && IsRun(c, ss, acts) && k <= |acts|
    ensures Inv(c, ss[k])
    decreases k
  {
    if k == 0 {
      InitInv(c, ss[0]);
    } else {
      RunInv(c, ss, acts, k - 1);
      StepKeepsInv(c, ss[k - 1], acts[k - 1]);
    }
  }

  /** What holds of one task at any moment of a run. */
  lemma RunTask(c: Config, ss: seq<State>, acts: seq<Step>, k: nat, t: Id)
    requires ValidConfig(c) && IsRun(c, ss, acts) && k <= |acts| && t in c.task
    ensures t in ss[k].pc && t in ss[k].results && TaskOk(c, ss[k], t)
  {
    RunInv(c, ss, acts, k);
  }

  /** What one step of a run does to one task: its own move, its spawning, or nothing. */
  lemma RunStep(c: Config, ss: seq<State>, acts: seq<Step>, k: nat, t: Id)
    requires ValidConfig(c) && IsRun(c, ss, acts) && k < |acts| && t in c.task
    ensures t in ss[k].pc && t in ss[k].results && t in ss[k + 1].pc && t in ss[k + 1].results
    ensures StepOnTask(c, ss[k], acts[k], ss[k + 1], t)
  {
    RunInv(c, ss, acts, k);
    assert Enabled(c, ss[k], acts[k]);
    StepOn(c, ss[k], acts[k], t);
  }

  ghost predicate StepOnTask(c: Config, s: State, a: Step, s': State, t: Id)
    requires t in c.task && t in s.pc && t in s.results && t in s'.pc && t in s'.results
  {
    if a.Go? && a.t == t then
      && CanMove(c, s, t, s.pc[t], a.move)
      && s'.pc[t] == NextPc(c, s, t, s.pc[t], a.move)
      && s'.results[t] == NextResult(c, s, t, s.pc[t], s.results[t], a.move)
    else
      && s'.results[t] == s.results[t]
      && (s'.pc[t] == s.pc[t] || (a.Spawn? && s.pc[t].NotSpawned? && s'.pc[t] == AfterWait(c, t, 0)))
  }

  lemma StepOn(c: Config, s: State, a: Step, t: Id)
    requires Shape(c, s) && SpawnExact(c, s) && Enabled(c, s, a) && t in c.task
    ensures var s' := Apply(c, s, a);
            && t in s.pc && t in s.results && t in s'.pc && t in s'.results
            && StepOnTask(c, s, a, s', t)
  {
  }

  ghost predicate Finished(c: Config, s: State) {
    forall t :: t in c.task ==> t in s.pc && s.pc[t].Exited?
  }

  /** The dependency relation as the dispatcher's lookup table sees it. */
  ghost predicate Wired(c: Config) {
    forall t, d {:trigger Edge(c.tasks, t, d)} ::
      Edge(c.tasks, t, d) ==> t in c.task && d in c.task && d in Deps(c, t)
  }

  lemma ConfigWired(c: Config)
    requires ValidConfig(c)
    ensures Wired(c)
  {
    forall t, d | Edge(c.tasks, t, d)
      ensures t in c.task && d in c.task && d in Deps(c, t)
    {
      var i :| 0 <= i < |c.tasks| && c.tasks[i].id == t && d in c.tasks[i].dependsOn;
      assert c.task[c.tasks[i].id] == c.tasks[i];
    }
  }

  lemma DepIsEdge(c: Config, t: Id, d: Id)
    requires ValidConfig(c) && d in Deps(c, t)
    ensures Edge(c.tasks, t, d)
  {
    var i :| 0 <= i < |c.tasks| && c.tasks[i].id == t;
    assert c.task[c.tasks[i].id] == c.tasks[i];
  }

  // ---------------------------------------------------------------- order of execution

  /** While the context lives, a goroutine past its wait has every transitive dependency closed. */
  lemma {:induction false} PastWaitClosed(c: Config, s: State, t: Id, d: Id, n: nat)
    requires Wired(c) && Shape(c, s) && AllOk(c, s) && !s.ctxDone && t in c.task
    requires !s.pc[t].NotSpawned? && !s.pc[t].WaitDep?
    requires n > 0 && Reach(c.tasks, t, d, n)
    ensures d in s.closed
    decreases n
  {
    var m :| Edge(c.tasks, t, m) && Reach(c.tasks, m, d, n - 1);
    assert TaskOk(c, s, t);
    assert m in s.closed;
    if n > 1 {
      assert TaskOk(c, s, m);
      PastWaitClosed(c, s, m, d, n - 1);
    }
  }

  lemma RunPastWait(c: Config, ss: seq<State>, acts: seq<Step>, k: nat, t: Id, d: Id)
    requires ValidConfig(c) && IsRun(c, ss, acts) && k <= |acts| && !ss[k].ctxDone && DependsOn(c.tasks, t, d)
    ensures t in c.task && t in ss[k].pc
    ensures d in ss[k].closed || ss[k].pc[t].NotSpawned? || ss[k].pc[t].WaitDep?
  {
    RunInv(c, ss, acts, k);
    ConfigWired(c);
    var m := FirstEdge(c.tasks, t, d);
    if !ss[k].pc[t].NotSpawned? && !ss[k].pc[t].WaitDep? {
      var n: nat :| n > 0 && Reach(c.tasks, t, d, n);
      PastWaitClosed(c, ss[k], t, d, n);
    }
  }

  /** A closed channel belongs to a task whose status is final. */
  lemma ClosedIsTerminal(c: Config, ss: seq<State>, acts: seq<Step>, k: nat, d: Id)
    requires ValidConfig(c) && IsRun(c, ss, acts) && k <= |acts| && d in ss[k].closed
    ensures d in c.task && d in ss[k].pc && d in ss[k].results
    ensures ss[k].pc[d].Exited? && Terminal(ss[k].results[d].status)
  {
    RunInv(c, ss, acts, k);
    assert TaskOk(c, ss[k], d);
  }

  ghost predicate Settled(s: State, d: Id) {
    d in s.closed && d in s.results && Terminal(s.results[d].status)
  }

  lemma StartMeansPast(c: Config, ss: seq<State>, acts: seq<Step>, k: nat, t: Id)
    requires ValidConfig(c) && IsRun(c, ss, acts) && k < |acts| && acts[k] == Go(t, Start)
    ensures t in c.task && t in ss[k].pc && ss[k].pc[t].Interpolate?
    ensures DepsClosed(c, ss[k].closed, t, |Deps(c, t)|)
    ensures t in ss[k + 1].results && ss[k + 1].results[t].status.Running?
  {
    assert Enabled(c, ss[k], acts[k]);
    RunTask(c, ss, acts, k, t);
    RunStep(c, ss, acts, k, t);
  }

  /** A task enters Running only behind finished dependencies, and behind all transitive ones unless the
      context was cancelled. */
  lemma StartFollowsDependencies(c: Config, ss: seq<State>, acts: seq<Step>, k: nat, t: Id)
    requires ValidConfig(c) && IsRun(c, ss, acts) && k < |acts| && acts[k] == Go(t, Start)
    ensures forall d :: Edge(c.tasks, t, d) ==> Settled(ss[k], d)
    ensures !ss[k].ctxDone ==> forall d :: DependsOn(c.tasks, t, d) ==> Settled(ss[k], d)
    ensures t in ss[k + 1].results && ss[k + 1].results[t].status.Running?
  {
    StartMeansPast(c, ss, acts, k, t);
    ConfigWired(c);
    forall d | Edge(c.tasks, t, d)
      ensures Settled(ss[k], d)
    {
      var j :| 0 <= j < |Deps(c, t)| && Deps(c, t)[j] == d;
      ClosedIsTerminal(c, ss, acts, k, d);
    }
    if !ss[k].ctxDone {
      forall d | DependsOn(c.tasks, t, d)
        ensures Settled(ss[k], d)
      {
        RunPastWait(c, ss, acts, k, t, d);
        ClosedIsTerminal(c, ss, acts, k, d);
      }
    }
  }

  /** At every moment outputs maps exactly the successful tasks, each to its own text. */
  lemma OutputsAreSuccesses(c: Config, ss: seq<State>, acts: seq<Step>, k: nat)
    requires ValidConfig(c) && IsRun(c, ss, acts) && k <= |acts|
    ensures forall t :: t in ss[k].outputs <==> t in ss[k].results && ss[k].results[t].status.Success?
    ensures forall t :: t in ss[k].outputs ==> ss[k].outputs[t] == ss[k].results[t].output
  {
    RunInv(c, ss, acts, k);
    forall t
      ensures t in ss[k].outputs <==> t in ss[k].results && ss[k].results[t].status.Success?
      ensures t in ss[k].outputs ==> ss[k].outputs[t] == ss[k].results[t].output
    {
      if t in c.task {
        assert TaskOk(c, ss[k], t);
      }
    }
  }

  // ---------------------------------------------------------------- what a task's chat leaves behind

  /** The status that a chat's outcome calls for. */
  ghost predicate Deserves(c: Config, t: Id, o: Outcome, r: TaskResult)
    requires t in c.task
  {
    match o
    case Reply(x) => r == TaskResult(Success, x)
    case ChatError(deadline) =>
      r == TaskResult(if deadline && c.task[t].timeoutSeconds > 0 then TimedOut else Failed, "")
  }

  /** The chat of t has returned o: it is on its way to the result, or there. */
  ghost predicate Carries(c: Config, s: State, t: Id, o: Outcome) {
    && t in c.task && t in s.pc && t in s.results
    && match s.pc[t] {
         case Replied(x) => x == o && s.results[t] == TaskResult(Running, "")
         case RecordResult(x) => x == o && s.results[t] == TaskResult(Running, "")
         case MarkDownstream | CancelContext | Closing | Exited => Deserves(c, t, o, s.results[t])
         case _ => false
       }
  }

  /** The chat of t has not returned: no result but a cancellation. */
  ghost predicate CarriesNone(c: Config, s: State, t: Id) {
    && t in c.task && t in s.pc && t in s.results && s.results[t].output == ""
    && match s.pc[t] {
         case Replied(_) | RecordResult(_) | MarkDownstream | CancelContext => false
         case Closing | Exited => s.results[t].status.Cancelled?
         case _ => true
       }
  }

  lemma CarriesStep(c: Config, s: State, a: Step, s': State, t: Id, o: Outcome)
    requires t in c.task && t in s.pc && t in s.results && t in s'.pc && t in s'.results
    requires StepOnTask(c, s, a, s', t) && Carries(c, s, t, o)
    ensures Carries(c, s', t, o)
  {
  }

  lemma CarriesNoneStep(c: Config, s: State, a: Step, s': State, t: Id)
    requires t in c.task && t in s.pc && t in s.results && t in s'.pc && t in s'.results
    requires StepOnTask(c, s, a, s', t) && CarriesNone(c, s, t) && StatusFits(c, t, s.pc[t], s.results[t])
    ensures if a.Go? && a.t == t && a.move.ChatReturns? then Carries(c, s', t, a.move.outcome)
            else CarriesNone(c, s', t)
  {
  }

  /** t has made no ChatReturns move among the first k steps. */
  ghost predicate ChatOpen(acts: seq<Step>, k: nat, t: Id) {
    forall j :: 0 <= j < k && j < |acts| && acts[j].Go? && acts[j].t == t ==> !acts[j].move.ChatReturns?
  }

  lemma {:induction false} BeforeTheChat(c: Config, ss: seq<State>, acts: seq<Step>, k: nat, t: Id)
    requires ValidConfig(c) && IsRun(c, ss, acts) && k <= |acts| && t in c.task && ChatOpen(acts, k, t)
    ensures CarriesNone(c, ss[k], t)
    decreases k
  {
    if k > 0 {
      BeforeTheChat(c, ss, acts, k - 1, t);
      RunTask(c, ss, acts, k - 1, t);
      RunStep(c, ss, acts, k - 1, t);
      CarriesNoneStep(c, ss[k - 1], acts[k - 1], ss[k], t);
    }
  }

  lemma AtTheChat(c: Config, ss: seq<State>, acts: seq<Step>, j: nat, t: Id, o: Outcome)
    requires ValidConfig(c) && IsRun(c, ss, acts) && j < |acts| && acts[j] == Go(t, ChatReturns(o))
    ensures Carries(c, ss[j + 1], t, o)
  {
    assert Enabled(c, ss[j], acts[j]);
    forall i | 0 <= i < j && acts[i].Go? && acts[i].t == t
      ensures !acts[i].move.ChatReturns?
    {
      MovesHappenOnce(c, ss, acts, i, j, t);
    }
    BeforeTheChat(c, ss, acts, j, t);
    RunTask(c, ss, acts, j, t);
    RunStep(c, ss, acts, j, t);
    CarriesNoneStep(c, ss[j], acts[j], ss[j + 1], t);
  }

  lemma {:induction false} CarriesStays(c: Config, ss: seq<State>, acts: seq<Step>, j: nat, k: nat, t: Id, o: Outcome)
    requires ValidConfig(c) && IsRun(c, ss, acts) && j <= k <= |acts| && t in c.task && Carries(c, ss[j], t, o)
    ensures Carries(c, ss[k], t, o)
    decreases k - j
  {
    if j < k {
      RunStep(c, ss, acts, j, t);
      CarriesStep(c, ss[j], acts[j], ss[j + 1], t, o);
      CarriesStays(c, ss, acts, j + 1, k, t, o);
    }
  }

  /** What a task's chat returned is what its result and the outputs hold once its channel is closed: the text of a
      reply with Success, a missed deadline of a task with a timeout as TimedOut, any other error as Failed. */
  lemma ResultIsTheChats(c: Config, ss: seq<State>, acts: seq<Step>, j: nat, k: nat, t: Id, o: Outcome)
    requires ValidConfig(c) && IsRun(c, ss, acts) && j < k <= |acts|
    requires acts[j] == Go(t, ChatReturns(o)) && t in ss[k].closed
    ensures t in c.task && t in ss[k].results
    ensures o.Reply? ==> ss[k].results[t] == TaskResult(Success, o.text)
    ensures o.Reply? ==> t in ss[k].outputs && ss[k].outputs[t] == o.text
    ensures o.ChatError? ==> t !in ss[k].outputs && ss[k].results[t].output == ""
    ensures o.ChatError? ==> ss[k].results[t].status
                             == if o.deadlineExceeded && c.task[t].timeoutSeconds > 0 then TimedOut else Failed
  {
    AtTheChat(c, ss, acts, j, t, o);
    CarriesStays(c, ss, acts, j + 1, k, t, o);
    ClosedIsTerminal(c, ss, acts, k, t);
    OutputsAreSuccesses(c, ss, acts, k);
  }

  /** A task whose chat never returned ends Cancelled, without a text. */
  lemma NoChatMeansCancelled(c: Config, ss: seq<State>, acts: seq<Step>, k: nat, t: Id)
    requires ValidConfig(c) && IsRun(c, ss, acts) && k <= |acts| && t in ss[k].closed
    requires forall j :: 0 <= j < k && acts[j].Go? && acts[j].t == t ==> !acts[j].move.ChatReturns?
    ensures t in ss[k].results && ss[k].results[t] == TaskResult(Cancelled, "") && t !in ss[k].outputs
  {
    ClosedIsTerminal(c, ss, acts, k, t);
    BeforeTheChat(c, ss, acts, k, t);
    OutputsAreSuccesses(c, ss, acts, k);
  }

  /** A marked failure waits for nobody who is in the table only because of others: x is in the table exactly
      when some marked failure has x downstream. */
  lemma TableIsDownstreamOfFailures(c: Config, ss: seq<State>, acts: seq<Step>, k: nat, x: Id)
    requires ValidConfig(c) && IsRun(c, ss, acts) && k <= |acts|
    ensures x in ss[k].cancelled <==> exists f :: Marked(c, ss[k], f) && x in Downstream(c.tasks, f)
  {
    var s := ss[k];
    RunInv(c, ss, acts, k);
    var behind := BehindFailure(c, s, x);
    assert x in s.cancelled <==> x in c.task && behind;
    if x in s.cancelled {
      var f :| Marked(c, s, f) && DependsOn(c.tasks, x, f);
      assert x in Downstream(c.tasks, f);
    } else {
      forall f | Marked(c, s, f)
        ensures x !in Downstream(c.tasks, f)
      {
      }
    }
  }

  /** The depth-first walk always starts from a table closed under dependents. */
  lemma TableIsClosed(c: Config, ss: seq<State>, acts: seq<Step>, k: nat)
    requires ValidConfig(c) && IsRun(c, ss, acts) && k <= |acts|
    ensures ss[k].cancelled <= Ids(c.tasks) && ClosedExcept(c.tasks, ss[k].cancelled, {})
  {
    forall x | x in ss[k].cancelled
      ensures x in Ids(c.tasks) && forall t :: Edge(c.tasks, t, x) ==> t in ss[k].cancelled
    {
      TableIsDownstreamOfFailures(c, ss, acts, k, x);
      var f :| Marked(c, ss[k], f) && x in Downstream(c.tasks, f);
      DownstreamClosed(c.tasks, f);
      forall t | Edge(c.tasks, t, x)
        ensures t in ss[k].cancelled
      {
        TableIsDownstreamOfFailures(c, ss, acts, k, t);
      }
    }
  }

  // ---------------------------------------------------------------- goroutines only move forward

  /** Steps a goroutine can still make, at most. */
  function Rank(c: Config, t: Id, pc: PC): nat {
    match pc
    case NotSpawned => 13 + |Deps(c, t)|
    case WaitDep(k) => 12 + if k < |Deps(c, t)| then |Deps(c, t)| - k else 0
    case CheckCancelled => 11
    case AcquireSlot => 10
    case Interpolate => 9
    case Chatting => 8
    case Replied(_) => 7
    case RecordResult(_) => 6
    case MarkDownstream => 5
    case CancelContext => 4
    case RecordContext => 3
    case RecordUpstream => 2
    case Closing => 1
    case Exited => 0
  }

  lemma MoveLowersRank(c: Config, s: State, t: Id, pc: PC, m: Move)
    requires t in c.task && CanMove(c, s, t, pc, m)
    ensures Rank(c, t, NextPc(c, s, t, pc, m)) < Rank(c, t, pc)
  {
  }

  lemma {:induction false} RankFalls(c: Config, ss: seq<State>, acts: seq<Step>, j: nat, k: nat, t: Id)
    requires ValidConfig(c) && IsRun(c, ss, acts) && j <= k <= |acts| && t in c.task
    ensures t in ss[j].pc && t in ss[k].pc && Rank(c, t, ss[k].pc[t]) <= Rank(c, t, ss[j].pc[t])
    ensures j < k && acts[j].Go? && acts[j].t == t ==> Rank(c, t, ss[k].pc[t]) < Rank(c, t, ss[j].pc[t])
    decreases k - j
  {
    RunTask(c, ss, acts, j, t);
    if j < k {
      RunStep(c, ss, acts, j, t);
      if acts[j].Go? && acts[j].t == t {
        MoveLowersRank(c, ss[j], t, ss[j].pc[t], acts[j].move);
      }
      RankFalls(c, ss, acts, j + 1, k, t);
    }
  }

  /** A task starts once at most, its chat returns once at most, and its done channel is never closed again. */
  lemma MovesHappenOnce(c: Config, ss: seq<State>, acts: seq<Step>, j: nat, k: nat, t: Id)
    requires ValidConfig(c) && IsRun(c, ss, acts) && j < k < |acts|
    requires acts[j].Go? && acts[j].t == t && acts[k].Go? && acts[k].t == t
    ensures !(acts[j].move.Close? && acts[k].move.Close?)
    ensures !(acts[j].move.Start? && acts[k].move.Start?)
    ensures !(acts[j].move.ChatReturns? && acts[k].move.ChatReturns?)
  {
    assert Enabled(c, ss[j], acts[j]) && Enabled(c, ss[k], acts[k]);
    RankFalls(c, ss, acts, j, k, t);
  }

  /** What has been recorded for an exited task never changes. */
  lemma {:induction false} ExitedIsFinal(c: Config, ss: seq<State>, acts: seq<Step>, j: nat, k: nat, t: Id)
    requires ValidConfig(c) && IsRun(c, ss, acts) && j <= k <= |acts| && t in ss[j].closed
    ensures t in ss[k].closed && t in ss[j].results && t in ss[k].results && ss[k].results[t] == ss[j].results[t]
    decreases k - j
  {
    ClosedIsTerminal(c, ss, acts, j, t);
    if j < k {
      RunStep(c, ss, acts, j, t);
      EarlierFacts(c, ss, acts, j, j + 1);
      ExitedIsFinal(c, ss, acts, j + 1, k, t);
    }
  }

  lemma {:induction false} EarlierFacts(c: Config, ss: seq<State>, acts: seq<Step>, j: nat, k: nat)
    requires IsRun(c, ss, acts) && j <= k <= |acts|
    ensures ss[j].closed <= ss[k].closed && (ss[j].ctxDone ==> ss[k].ctxDone) && ss[j].cancelled <= ss[k].cancelled
    decreases k - j
  {
    if j < k {
      assert Enabled(c, ss[j], acts[j]);
      EarlierFacts(c, ss, acts, j + 1, k);
    }
  }

  lemma PromptStep(c: Config, s: State, a: Step, t: Id)
    requires Enabled(c, s, a) && t in s.prompts && a != Go(t, Start)
    ensures t in Apply(c, s, a).prompts && Apply(c, s, a).prompts[t] == s.prompts[t]
  {
  }

  lemma PromptSet(c: Config, s: State, a: Step, t: Id)
    requires Enabled(c, s, a) && a == Go(t, Start)
    ensures t in c.task && t in Apply(c, s, a).prompts && Apply(c, s, a).prompts[t] == Prompt(c, t, s.outputs)
  {
  }

  lemma {:induction false} PromptKept(c: Config, ss: seq<State>, acts: seq<Step>, j: nat, k: nat, t: Id)
    requires ValidConfig(c) && IsRun(c, ss, acts) && j < k <= |acts| && acts[j] == Go(t, Start)
    ensures t in c.task && t in ss[k].prompts && ss[k].prompts[t] == Prompt(c, t, ss[j].outputs)
    decreases k
  {
    if k == j + 1 {
      PromptSet(c, ss[j], acts[j], t);
    } else {
      PromptKept(c, ss, acts, j, k - 1, t);
      assert Enabled(c, ss[k - 1], acts[k - 1]);
      if acts[k - 1] == Go(t, Start) {
        MovesHappenOnce(c, ss, acts, j, k - 1, t);
      }
      PromptStep(c, ss[k - 1], acts[k - 1], t);
    }
  }

  /** The message a task was sent is its own message with the outputs known at its start, and for every
      direct dependency that snapshot already holds the final word. */
  lemma PromptUsesFinalOutputs(c: Config, ss: seq<State>, acts: seq<Step>, j: nat, k: nat, t: Id)
    requires ValidConfig(c) && IsRun(c, ss, acts) && j < k <= |acts| && acts[j] == Go(t, Start)
    ensures t in c.task && t in ss[k].prompts
    ensures ss[k].prompts[t]
            == Interpolation.RenderAll(Interpolation.Parse(c.task[t].message), ss[j].outputs, 4000)
    ensures forall d :: Edge(c.tasks, t, d) ==>
              && d in ss[k].results
              && (d in ss[j].outputs <==> ss[k].results[d].status.Success?)
              && (d in ss[j].outputs ==> ss[j].outputs[d] == ss[k].results[d].output)
  {
    PromptKept(c, ss, acts, j, k, t);
    StartFollowsDependencies(c, ss, acts, j, t);
    OutputsAreSuccesses(c, ss, acts, j);
    forall d | Edge(c.tasks, t, d)
      ensures d in ss[k].results
      ensures d in ss[j].outputs <==> ss[k].results[d].status.Success?
      ensures d in ss[j].outputs ==> ss[j].outputs[d] == ss[k].results[d].output
    {
      assert Settled(ss[j], d);
      ExitedIsFinal(c, ss, acts, j, k, d);
    }
  }

  // ---------------------------------------------------------------- blocking failures

  /** In the table and not beyond the point where the table is read. */
  ghost predicate Doomed(c: Config, s: State, d: Id) {
    && d in s.cancelled && d in s.pc && d in s.results
    && match s.pc[d] {
         case NotSpawned | WaitDep(_) | CheckCancelled | RecordUpstream | RecordContext => s.results[d].status.Pending?
         case Closing | Exited => s.results[d].status.Cancelled?
         case _ => false
       }
  }

  lemma DoomedStep(c: Config, s: State, a: Step, s': State, d: Id)
    requires d in c.task && d in s.pc && d in s.results && d in s'.pc && d in s'.results
    requires StepOnTask(c, s, a, s', d) && Doomed(c, s, d) && s.cancelled <= s'.cancelled
    ensures Doomed(c, s', d)
  {
  }

  lemma {:induction false} DoomedStays(c: Config, ss: seq<State>, acts: seq<Step>, j: nat, k: nat, d: Id)
    requires ValidConfig(c) && IsRun(c, ss, acts) && j <= k <= |acts|
    requires d in c.task && Doomed(c, ss[j], d)
    ensures Doomed(c, ss[k], d)
    decreases k - j
  {
    if j < k {
      RunStep(c, ss, acts, j, d);
      EarlierFacts(c, ss, acts, j, j + 1);
      DoomedStep(c, ss[j], acts[j], ss[j + 1], d);
      DoomedStays(c, ss, acts, j + 1, k, d);
    }
  }

  /** Marking a failure enters each of its dependents in the table. */
  lemma MarkEnters(c: Config, ss: seq<State>, acts: seq<Step>, i: nat, f: Id, d: Id)
    requires ValidConfig(c) && IsRun(c, ss, acts) && i < |acts| && acts[i] == Go(f, Mark) && DependsOn(c.tasks, d, f)
    ensures d in c.task && d in ss[i + 1].cancelled && f in c.task && f !in ss[i].closed && d != f
  {
    assert Enabled(c, ss[i], acts[i]);
    RunTask(c, ss, acts, i, f);
    ConfigWired(c);
    var m := FirstEdge(c.tasks, d, f);
    assert d in Downstream(c.tasks, f);
    if d == f {
      var k :| 0 <= k < |c.order| && c.order[k] == f;
      var n: nat :| n > 0 && Reach(c.tasks, d, f, n);
      DependencyIsEarlier(c.tasks, c.order, k, f, n);
    }
  }

  /** A blocking failure marked while the context lives: in every interleaving no transitive dependent ever
      runs, before or after, and each one that finishes ends Cancelled. */
  lemma BlockingFailureStopsDownstream(c: Config, ss: seq<State>, acts: seq<Step>, i: nat, f: Id, d: Id, k: nat)
    requires ValidConfig(c) && IsRun(c, ss, acts) && i < |acts| && k <= |acts|
    requires acts[i] == Go(f, Mark) && !ss[i].ctxDone && DependsOn(c.tasks, d, f)
    ensures d in ss[k].pc && d in ss[k].results
    ensures !ss[k].pc[d].Chatting? && !ss[k].results[d].status.Running?
    ensures ss[k].pc[d].Exited? ==> ss[k].results[d].status.Cancelled?
  {
    MarkEnters(c, ss, acts, i, f, d);
    if k <= i {
      EarlierFacts(c, ss, acts, k, i);
      RunPastWait(c, ss, acts, k, d, f);
      RunTask(c, ss, acts, k, d);
    } else {
      RunPastWait(c, ss, acts, i, d, f);
      RunTask(c, ss, acts, i, d);
      RunStep(c, ss, acts, i, d);
      assert Doomed(c, ss[i + 1], d);
      DoomedStays(c, ss, acts, i + 1, k, d);
    }
  }

  /** d waits for its dependencies, or has left through the cancelled context. */
  ghost predicate Waits(s: State, d: Id) {
    && d in s.pc && d in s.results
    && match s.pc[d] {
         case NotSpawned | WaitDep(_) | RecordContext => s.results[d].status.Pending?
         case Closing | Exited => s.results[d].status.Cancelled?
         case _ => false
       }
  }

  lemma WaitsStep(c: Config, s: State, a: Step, s': State, d: Id, f: Id)
    requires d in c.task && d in s.pc && d in s.results && d in s'.pc && d in s'.results
    requires StepOnTask(c, s, a, s', d) && Waits(s, d) && WaitFits(c, s', d, s'.pc[d])
    requires f in Deps(c, d) && f !in s'.closed
    ensures Waits(s', d)
  {
    var j :| 0 <= j < |Deps(c, d)| && Deps(c, d)[j] == f;
    assert !DepsClosed(c, s'.closed, d, |Deps(c, d)|);
  }

  lemma UnspawnedWaits(c: Config, s: State, d: Id)
    requires IsInit(c, s) && d in c.task
    ensures Waits(s, d)
  {
  }

  /** While f is open, a direct dependent of f waits or has left through the cancelled context. */
  lemma {:induction false} DirectDependentWaits(c: Config, ss: seq<State>, acts: seq<Step>, i: nat, d: Id, f: Id)
    requires ValidConfig(c) && IsRun(c, ss, acts) && i <= |acts|
    requires f !in ss[i].closed && d in c.task && f in Deps(c, d)
    ensures Waits(ss[i], d)
    decreases i
  {
    if i == 0 {
      UnspawnedWaits(c, ss[0], d);
    } else {
      RunTask(c, ss, acts, i, d);
      EarlierFacts(c, ss, acts, i - 1, i);
      DirectDependentWaits(c, ss, acts, i - 1, d, f);
      RunStep(c, ss, acts, i - 1, d);
      WaitsStep(c, ss[i - 1], acts[i - 1], ss[i], d, f);
    }
  }

  /** A direct dependent of a marked failure never runs, even if the context was cancelled earlier. */
  lemma BlockingFailureStopsDirectDependents(c: Config, ss: seq<State>, acts: seq<Step>, i: nat, f: Id, d: Id, k: nat)
    requires ValidConfig(c) && IsRun(c, ss, acts) && i < |acts| && k <= |acts|
    requires acts[i] == Go(f, Mark) && Edge(c.tasks, d, f)
    ensures d in ss[k].pc && d in ss[k].results
    ensures !ss[k].pc[d].Chatting? && !ss[k].results[d].status.Running?
    ensures ss[k].pc[d].Exited? ==> ss[k].results[d].status.Cancelled?
  {
    ConfigWired(c);
    EdgeIsDependency(c.tasks, d, f);
    MarkEnters(c, ss, acts, i, f, d);
    if k <= i {
      EarlierFacts(c, ss, acts, k, i);
      DirectDependentWaits(c, ss, acts, k, d, f);
    } else {
      DirectDependentWaits(c, ss, acts, i, d, f);
      RunStep(c, ss, acts, i, d);
      assert Doomed(c, ss[i + 1], d);
      DoomedStays(c, ss, acts, i + 1, k, d);
    }
  }

  /** With a living context nothing is cancelled: no status, and nobody found in the table. */
  ghost predicate CancelledWithCause(c: Config, s: State, t: Id)
    requires t in s.results && t in s.pc
  {
    s.ctxDone || (!s.results[t].status.Cancelled? && !s.pc[t].RecordUpstream?)
  }

  /** Alive, the only way towards Cancelled is to be found in the table. */
  lemma CancelledThroughTable(c: Config, s: State, a: Step, s': State, t: Id)
    requires t in c.task && t in s.pc && t in s.results && t in s'.pc && t in s'.results
    requires StepOnTask(c, s, a, s', t) && WaitFits(c, s, t, s.pc[t])
    requires !s.ctxDone && CancelledWithCause(c, s, t)
    requires s.pc[t].NotSpawned? || s.pc[t].WaitDep? || t !in s.cancelled
    ensures CancelledWithCause(c, s', t)
  {
  }

  /** A dispatch whose failures are all non-blocking, and whose caller does not cancel, runs every task to
      its own outcome. */
  lemma {:induction false} NothingCancelledWithoutCause(c: Config, ss: seq<State>, acts: seq<Step>, k: nat, t: Id)
    requires ValidConfig(c) && IsRun(c, ss, acts) && k <= |acts| && t in c.task
    ensures t in ss[k].results && t in ss[k].pc && CancelledWithCause(c, ss[k], t)
    decreases k
  {
    RunTask(c, ss, acts, k, t);
    if k > 0 && !ss[k].ctxDone {
      EarlierFacts(c, ss, acts, k - 1, k);
      NothingCancelledWithoutCause(c, ss, acts, k - 1, t);
      RunTask(c, ss, acts, k - 1, t);
      RunStep(c, ss, acts, k - 1, t);
      NotInTableAlive(c, ss, acts, k - 1, t);
      CancelledThroughTable(c, ss[k - 1], acts[k - 1], ss[k], t);
    }
  }

  lemma NotInTableAlive(c: Config, ss: seq<State>, acts: seq<Step>, k: nat, t: Id)
    requires ValidConfig(c) && IsRun(c, ss, acts) && k <= |acts| && !ss[k].ctxDone
    requires t in ss[k].pc
    ensures ss[k].pc[t].NotSpawned? || ss[k].pc[t].WaitDep? || t !in ss[k].cancelled
  {
    TableIsDownstreamOfFailures(c, ss, acts, k, t);
    if t in ss[k].cancelled && !ss[k].pc[t].NotSpawned? && !ss[k].pc[t].WaitDep? {
      var f :| Marked(c, ss[k], f) && t in Downstream(c.tasks, f);
      RunPastWait(c, ss, acts, k, t, f);
      RunTask(c, ss, acts, k, f);
      assert false;
    }
  }
}
