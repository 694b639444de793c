/** The dispatcher's goroutines as a step machine: one atomic step per channel operation or critical section. */
module DispatchMachine {
  import opened TaskGraph
  import opened TopoSort
  import opened Cancellation
  import Interpolation

  datatype Status = Pending | Running | Success | Failed | Cancelled | TimedOut

  datatype TaskResult = TaskResult(status: Status, output: string)

  /** What Chat returned: a reply, or an error and whether the task's own context had passed its deadline. */
  datatype Outcome = Reply(text: string) | ChatError(deadlineExceeded: bool)

  /** Where a task's goroutine stands. */
  datatype PC =
    | NotSpawned
    | WaitDep(k: nat)          // blocked on the done channel of dependency k
    | CheckCancelled           // about to read the cancelled table
    | RecordUpstream           // found itself in the table
    | AcquireSlot              // blocked on the semaphore
    | Interpolate              // holds a slot, not yet Running
    | Chatting                 // Running, inside Chat
    | Replied(outcome: Outcome)
    | RecordResult(outcome: Outcome)   // slot given back
    | MarkDownstream           // recorded a blocking failure
    | CancelContext
    | RecordContext            // saw the context cancelled
    | Closing
    | Exited

  datatype Config = Config(tasks: seq<Task>, task: map<Id, Task>, order: seq<Id>, cap: nat, shared: bool)

  ghost predicate ValidConfig(c: Config) {
    && UniqueIds(c.tasks) && KnownDeps(c.tasks)
    && c.task.Keys == Ids(c.tasks)
    && (forall i :: 0 <= i < |c.tasks| ==> c.task[c.tasks[i].id] == c.tasks[i])
    && IsTopologicalOrder(c.tasks, c.order)
    && c.cap > 0
  }

  /** held counts the slots of this dispatch, others those taken by other users of a shared limiter. */
  datatype State = State(
    spawned: nat,
    pc: map<Id, PC>,
    results: map<Id, TaskResult>,
    outputs: map<Id, string>,
    prompts: map<Id, string>,
    cancelled: set<Id>,
    closed: set<Id>,
    ctxDone: bool,
    held: nat,
    others: nat)

  ghost predicate IsInit(c: Config, s: State) {
    && s.spawned == 0
    && s.pc == (map t | t in c.task.Keys :: NotSpawned)
    && s.results == (map t | t in c.task.Keys :: TaskResult(Pending, ""))
    && s.outputs == map[] && s.prompts == map[] && s.cancelled == {} && s.closed == {}
    && s.held == 0 && s.others <= c.cap && (!c.shared ==> s.others == 0)
  }

  /** One atomic move of a task's goroutine. */
  datatype Move =
    | DependencyDone
    | ContextSeen
    | ReadCancelled
    | StoreUpstream
    | TakeSlot
    | StoreContext
    | Start
    | ChatReturns(outcome: Outcome)
    | FreeSlot
    | StoreResult
    | Mark
    | CancelAll
    | Close

  /** Spawn is the scheduling loop starting the next goroutine; the last three come from outside. */
  datatype Step = Spawn | Go(t: Id, move: Move) | ParentCancels | OthersTake | OthersFree

  predicate FromOutside(a: Step) {
    a.ParentCancels? || a.OthersTake? || a.OthersFree?
  }

  function Deps(c: Config, t: Id): seq<Id> {
    if t in c.task then c.task[t].dependsOn else []
  }

  function AfterWait(c: Config, t: Id, k: nat): PC {
    if k < |Deps(c, t)| then WaitDep(k) else CheckCancelled
  }

  function StatusOf(c: Config, t: Id, o: Outcome): Status
    requires t in c.task
  {
    match o
    case Reply(_) => Success
    case ChatError(deadline) => if deadline && c.task[t].timeoutSeconds > 0 then TimedOut else Failed
  }

  /** The goroutine of t, standing at pc, can make the move. */
  predicate CanMove(c: Config, s: State, t: Id, pc: PC, m: Move) {
    match m
    case DependencyDone => pc.WaitDep? && pc.k < |Deps(c, t)| && Deps(c, t)[pc.k] in s.closed
    case ContextSeen => (pc.WaitDep? || pc.AcquireSlot?) && s.ctxDone
    case ReadCancelled => pc.CheckCancelled?
    case StoreUpstream => pc.RecordUpstream?
    case TakeSlot => pc.AcquireSlot? && s.held + s.others < c.cap
    case StoreContext => pc.RecordContext?
    case Start => pc.Interpolate?
    case ChatReturns(_) => pc.Chatting?
    case FreeSlot => pc.Replied? && s.held > 0
    case StoreResult => pc.RecordResult?
    case Mark => pc.MarkDownstream?
    case CancelAll => pc.CancelContext?
    case Close => pc.Closing? && t !in s.closed
  }

  function NextPc(c: Config, s: State, t: Id, pc: PC, m: Move): (pc': PC)
    requires t in c.task && CanMove(c, s, t, pc, m)
    ensures !pc'.NotSpawned?
  {
    match m
    case DependencyDone => AfterWait(c, t, pc.k + 1)
    case ContextSeen => RecordContext
    case ReadCancelled => if t in s.cancelled then RecordUpstream else AcquireSlot
    case StoreUpstream => Closing
    case TakeSlot => Interpolate
    case StoreContext => Closing
    case Start => Chatting
    case ChatReturns(o) => Replied(o)
    case FreeSlot => RecordResult(pc.outcome)
    case StoreResult => if !pc.outcome.Reply? && c.task[t].blocking then MarkDownstream else Closing
    case Mark => CancelContext
    case CancelAll => Closing
    case Close => Exited
  }

  function NextResult(c: Config, s: State, t: Id, pc: PC, r: TaskResult, m: Move): TaskResult
    requires t in c.task && CanMove(c, s, t, pc, m)
  {
    match m
    case StoreUpstream => r.(status := Cancelled)
    case StoreContext => if r.status.Pending? then r.(status := Cancelled) else r
    case Start => r.(status := Running)
    case StoreResult =>
      TaskResult(StatusOf(c, t, pc.outcome), if pc.outcome.Reply? then pc.outcome.text else r.output)
    case _ => r
  }

  function Prompt(c: Config, t: Id, outputs: map<Id, string>): string
    requires t in c.task
  {
    Interpolation.RenderAll(Interpolation.Parse(c.task[t].message), outputs, Interpolation.DEFAULT_MAX_LEN)
  }

  ghost function Moved(c: Config, s: State, t: Id, m: Move): State
    requires t in c.task && t in s.pc && t in s.results && CanMove(c, s, t, s.pc[t], m)
  {
    var pc, r := s.pc[t], s.results[t];
    s.(pc := s.pc[t := NextPc(c, s, t, pc, m)],
       results := s.results[t := NextResult(c, s, t, pc, r, m)],
       outputs := if m.StoreResult? && pc.outcome.Reply? then s.outputs[t := pc.outcome.text] else s.outputs,
       prompts := if m.Start? then s.prompts[t := Prompt(c, t, s.outputs)] else s.prompts,
       cancelled := if m.Mark? then s.cancelled + Downstream(c.tasks, t) else s.cancelled,
       closed := if m.Close? then s.closed + {t} else s.closed,
       ctxDone := s.ctxDone || m.CancelAll?,
       held := if m.TakeSlot? then s.held + 1 else if m.FreeSlot? then s.held - 1 else s.held)
  }

  predicate Enabled(c: Config, s: State, a: Step) {
    match a
    case Spawn => s.spawned < |c.order| && c.order[s.spawned] in s.pc
    case Go(t, m) => t in c.task && t in s.pc && t in s.results && CanMove(c, s, t, s.pc[t], m)
    case ParentCancels => !s.ctxDone
    case OthersTake => c.shared && s.held + s.others < c.cap
    case OthersFree => c.shared && s.others > 0
  }

  ghost function Apply(c: Config, s: State, a: Step): State
    requires Enabled(c, s, a)
  {
    match a
    case Spawn => s.(spawned := s.spawned + 1, pc := s.pc[c.order[s.spawned] := AfterWait(c, c.order[s.spawned], 0)])
    case Go(t, m) => Moved(c, s, t, m)
    case ParentCancels => s.(ctxDone := true)
    case OthersTake => s.(others := s.others + 1)
    case OthersFree => s.(others := s.others - 1)
  }

  // ---------------------------------------------------------------- invariants

  predicate Terminal(st: Status) {
    st.Success? || st.Failed? || st.Cancelled? || st.TimedOut?
  }

  predicate Unsuccessful(st: Status) {
    st.Failed? || st.TimedOut?
  }

  predicate HoldsSlot(pc: PC) {
    pc.Interpolate? || pc.Chatting? || pc.Replied?
  }

  /** Past the wait for dependencies without having left through the context. */
  predicate PastWait(pc: PC) {
    !pc.NotSpawned? && !pc.WaitDep? && !pc.RecordContext? && !pc.Closing? && !pc.Exited?
  }

  predicate StatusFits(c: Config, t: Id, pc: PC, r: TaskResult)
    requires t in c.task
  {
    if pc.Chatting? || pc.Replied? || pc.RecordResult? then r.status.Running?
    else if pc.MarkDownstream? || pc.CancelContext? then Unsuccessful(r.status) && c.task[t].blocking
    else if pc.Closing? || pc.Exited? then Terminal(r.status)
    else r.status.Pending?
  }

  /** The first k dependencies of t have closed their done channels. */
  ghost predicate DepsClosed(c: Config, closed: set<Id>, t: Id, k: nat)
    requires k <= |Deps(c, t)|
  {
    forall j :: 0 <= j < k ==> Deps(c, t)[j] in closed
  }

  ghost predicate WaitFits(c: Config, s: State, t: Id, pc: PC) {
    var n := |Deps(c, t)|;
    && (pc.WaitDep? ==> pc.k < n && DepsClosed(c, s.closed, t, pc.k))
    && (PastWait(pc) ==> DepsClosed(c, s.closed, t, n))
    && ((pc.Closing? || pc.Exited?) && !s.ctxDone ==> DepsClosed(c, s.closed, t, n))
    && (pc.RecordContext? ==> s.ctxDone)
  }

  /** Blocking failures whose downstream tasks have been entered in the table. */
  predicate Marked(c: Config, s: State, f: Id) {
    && f in c.task && f in s.pc && f in s.results && c.task[f].blocking && Unsuccessful(s.results[f].status)
    && (s.pc[f].CancelContext? || s.pc[f].Closing? || s.pc[f].Exited?)
  }

  ghost predicate TaskOk(c: Config, s: State, t: Id)
    requires t in c.task && t in s.pc && t in s.results
  {
    && StatusFits(c, t, s.pc[t], s.results[t])
    && WaitFits(c, s, t, s.pc[t])
    && (t in s.closed <==> s.pc[t].Exited?)
    && (t in s.outputs <==> s.results[t].status.Success?)
    && (t in s.outputs ==> s.outputs[t] == s.results[t].output)
    && (Marked(c, s, t) && !s.pc[t].CancelContext? ==> s.ctxDone)
  }

  ghost predicate Shape(c: Config, s: State) {
    && s.pc.Keys == c.task.Keys && s.results.Keys == c.task.Keys
    && s.closed <= c.task.Keys && s.outputs.Keys <= c.task.Keys && s.prompts.Keys <= c.task.Keys
  }

  /** Exactly the first spawned entries of the order have been started. */
  ghost predicate SpawnExact(c: Config, s: State)
    requires Shape(c, s)
  {
    && s.spawned <= |c.order|
    && (forall i :: 0 <= i < |c.order| ==> c.order[i] in c.task)
    && (forall i :: 0 <= i < |c.order| ==> (s.pc[c.order[i]].NotSpawned? <==> i >= s.spawned))
  }

  ghost predicate AllOk(c: Config, s: State)
    requires Shape(c, s)
  {
    forall t {:trigger TaskOk(c, s, t)} :: t in c.task ==> TaskOk(c, s, t)
  }

  /** x waits, through one or more dependencies, for a marked failure. */
  ghost predicate BehindFailure(c: Config, s: State, x: Id) {
    exists f :: Marked(c, s, f) && DependsOn(c.tasks, x, f)
  }

  ghost predicate TableExact(c: Config, s: State) {
    forall x {:trigger BehindFailure(c, s, x)} :: x in s.cancelled <==> x in c.task && BehindFailure(c, s, x)
  }

  ghost function Holders(s: State): set<Id> {
    set t | t in s.pc && HoldsSlot(s.pc[t])
  }

  ghost predicate SlotsExact(c: Config, s: State) {
    && s.held == |Holders(s)|
    && s.held + s.others <= c.cap
    && (!c.shared ==> s.others == 0)
  }

  ghost predicate Inv(c: Config, s: State) {
    && ValidConfig(c)
    && Shape(c, s) && SpawnExact(c, s) && AllOk(c, s) && TableExact(c, s) && SlotsExact(c, s)
  }

  lemma InitInv(c: Config, s: State)
    requires ValidConfig(c) && IsInit(c, s)
    ensures Inv(c, s)
  {
    assert forall i :: 0 <= i < |c.order| ==> c.order[i] in (set x | x in c.order);
    assert Holders(s) == {};
  }

  lemma StepKeepsShape(c: Config, s: State, a: Step)
    requires Shape(c, s) && Enabled(c, s, a)
    ensures Shape(c, Apply(c, s, a))
  {
  }

  lemma StepKeepsSpawned(c: Config, s: State, a: Step)
    requires Shape(c, s) && SpawnExact(c, s) && AllOk(c, s) && NoDuplicates(c.order)
    requires Enabled(c, s, a) && Shape(c, Apply(c, s, a))
    ensures SpawnExact(c, Apply(c, s, a))
  {
    if a.Go? {
      assert !s.pc[a.t].NotSpawned? && !Apply(c, s, a).pc[a.t].NotSpawned?;
    }
  }

  /** A goroutine that does not move keeps its facts: closed channels and a cancelled context stay so. */
  lemma OthersKeepFacts(c: Config, s: State, s': State, t: Id)
    requires t in c.task && t in s.pc && t in s.results && t in s'.pc && t in s'.results
    requires TaskOk(c, s, t)
    requires s'.pc[t] == s.pc[t] && s'.results[t] == s.results[t]
    requires s.closed <= s'.closed && (s.ctxDone ==> s'.ctxDone)
    requires t in s'.closed <==> t in s.closed
    requires t in s'.outputs <==> t in s.outputs
    requires t in s.outputs ==> s'.outputs[t] == s.outputs[t]
    ensures TaskOk(c, s', t)
  {
  }

  lemma MoverKeepsFacts(c: Config, s: State, t: Id, m: Move)
    requires t in c.task && t in s.pc && t in s.results && CanMove(c, s, t, s.pc[t], m)
    requires TaskOk(c, s, t)
    ensures TaskOk(c, Moved(c, s, t, m), t)
  {
  }

  lemma StepKeepsFacts(c: Config, s: State, a: Step)
    requires Shape(c, s) && SpawnExact(c, s) && AllOk(c, s) && Enabled(c, s, a) && Shape(c, Apply(c, s, a))
    ensures AllOk(c, Apply(c, s, a))
  {
    var s' := Apply(c, s, a);
    forall t | t in c.task
      ensures TaskOk(c, s', t)
    {
      assert TaskOk(c, s, t);
      if a.Go? && t == a.t {
        MoverKeepsFacts(c, s, t, a.move);
      } else if a.Spawn? && t == c.order[s.spawned] {
      } else {
        OthersKeepFacts(c, s, s', t);
      }
    }
  }

  /** Marking a failure is the only move that changes who is marked. */
  lemma MoveMarks(c: Config, s: State, t: Id, m: Move)
    requires t in c.task && t in s.pc && t in s.results && CanMove(c, s, t, s.pc[t], m) && TaskOk(c, s, t)
    ensures forall f :: Marked(c, Moved(c, s, t, m), f) <==> Marked(c, s, f) || (m.Mark? && f == t)
  {
  }

  /** The table stays exact when new holds the tasks behind the one failure that became marked, if any. */
  lemma TableGrows(c: Config, s: State, s': State, extra: set<Id>)
    requires TableExact(c, s) && c.task.Keys == Ids(c.tasks)
    requires |extra| <= 1
    requires forall f :: Marked(c, s', f) <==> Marked(c, s, f) || f in extra
    requires forall x :: x in s'.cancelled <==>
                           x in s.cancelled || (exists f :: f in extra && x in Downstream(c.tasks, f))
    ensures TableExact(c, s')
  {
    forall x
      ensures x in s'.cancelled <==> x in c.task && BehindFailure(c, s', x)
    {
      if BehindFailure(c, s, x) {
        var f :| Marked(c, s, f) && DependsOn(c.tasks, x, f);
        assert Marked(c, s', f);
      }
      if BehindFailure(c, s', x) {
        var f :| Marked(c, s', f) && DependsOn(c.tasks, x, f);
        assert Marked(c, s, f) || f in extra;
      }
    }
  }

  lemma StepKeepsTable(c: Config, s: State, a: Step)
    requires Shape(c, s) && SpawnExact(c, s) && AllOk(c, s) && TableExact(c, s) && Enabled(c, s, a)
    requires c.task.Keys == Ids(c.tasks)
    ensures TableExact(c, Apply(c, s, a))
  {
    var s' := Apply(c, s, a);
    if a.Go? {
      assert TaskOk(c, s, a.t);
      MoveMarks(c, s, a.t, a.move);
      var extra := if a.move.Mark? then {a.t} else {};
      TableGrows(c, s, s', extra);
    } else {
      TableGrows(c, s, s', {});
    }
  }

  lemma MoveHolders(c: Config, s: State, t: Id, m: Move)
    requires t in c.task && t in s.pc && t in s.results && CanMove(c, s, t, s.pc[t], m)
    ensures var s' := Moved(c, s, t, m);
            Holders(s')
            == if m.TakeSlot? then Holders(s) + {t} else if m.FreeSlot? then Holders(s) - {t} else Holders(s)
    ensures t in Holders(s) <==> m.Start? || m.ChatReturns? || m.FreeSlot?
  {
    var s' := Moved(c, s, t, m);
    assert HoldsSlot(s'.pc[t]) <==> m.TakeSlot? || m.Start? || m.ChatReturns?;
    assert HoldsSlot(s.pc[t]) <==> m.Start? || m.ChatReturns? || m.FreeSlot?;
    assert forall x :: x in s'.pc && x != t ==> x in s.pc && s'.pc[x] == s.pc[x];
    assert s'.pc.Keys == s.pc.Keys;
  }

  lemma StepKeepsSlots(c: Config, s: State, a: Step)
    requires Shape(c, s) && SpawnExact(c, s) && SlotsExact(c, s) && Enabled(c, s, a)
    ensures SlotsExact(c, Apply(c, s, a))
  {
    if a.Go? {
      MoveHolders(c, s, a.t, a.move);
    } else {
      assert Holders(Apply(c, s, a)) == Holders(s);
    }
  }

  lemma StepKeepsInv(c: Config, s: State, a: Step)
    requires Inv(c, s) && Enabled(c, s, a)
    ensures Inv(c, Apply(c, s, a))
  {
    StepKeepsShape(c, s, a);
    StepKeepsSpawned(c, s, a);
    StepKeepsFacts(c, s, a);
    StepKeepsTable(c, s, a);
    StepKeepsSlots(c, s, a);
  }
}
