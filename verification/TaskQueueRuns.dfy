/** The task queue under every interleaving of its goroutines with submit, cancel, shutdown and prune. */
module TaskQueueRuns {
  import opened Sets
  import opened TaskQueue

  /** Where the goroutine of a submitted task stands. ran tells whether its function was called. */
  datatype PC =
    | WaitingSlot
    | HasSlot
    | Executing
    | Back(outcome: Outcome)       // the function has returned
    | Recorded(outcome: Outcome)   // the result is stored, the callback is next
    | Leaving(ran: bool)
    | Gone(ran: bool)

  /** runs and calls count the executions of the task's function and of its callback. */
  datatype State = State(core: Core, pc: map<Id, PC>, slots: nat, others: nat, runs: map<Id, nat>, calls: map<Id, nat>)

  datatype Step =
    | Submit(id: Id, session: string)
    | TakeSlot(id: Id)
    | Begin(id: Id, now: int)
    | FunctionReturns(id: Id, outcome: Outcome)
    | Finish(id: Id, now: int)
    | Callback(id: Id)
    | FreeSlot(id: Id)
    | Cancel(id: Id, now: int)
    | CancelAll(session: string, now: int)
    | Shutdown(now: int)
    | Prune(cutoff: int)
    | OthersTake
    | OthersFree

  predicate At(s: State, id: Id) {
    id in s.pc && id in s.core.records && id in s.runs && id in s.calls
  }

  predicate Enabled(s: State, a: Step, cap: nat) {
    match a
    case Submit(id, _) => id !in s.core.records
    case TakeSlot(id) => At(s, id) && s.pc[id].WaitingSlot? && s.slots + s.others < cap
    case Begin(id, _) => At(s, id) && s.pc[id].HasSlot?
    case FunctionReturns(id, _) => At(s, id) && s.pc[id].Executing?
    case Finish(id, _) => At(s, id) && s.pc[id].Back?
    case Callback(id) => At(s, id) && s.pc[id].Recorded?
    case FreeSlot(id) => At(s, id) && s.pc[id].Leaving? && s.slots > 0
    case OthersTake => s.slots + s.others < cap
    case OthersFree => s.others > 0
    case _ => true
  }

  function Apply(s: State, a: Step, cap: nat): State
    requires Enabled(s, a, cap)
  {
    match a
    case Submit(id, session) =>
      s.(core := AfterSubmit(s.core, id, session), pc := s.pc[id := WaitingSlot], runs := s.runs[id := 0],
         calls := s.calls[id := 0])
    case TakeSlot(id) => s.(pc := s.pc[id := HasSlot], slots := s.slots + 1)
    case Begin(id, now) =>
      if s.core.records[id].status.Cancelled? then s.(pc := s.pc[id := Leaving(false)])
      else s.(core := AfterBegin(s.core, id, now), pc := s.pc[id := Executing], runs := s.runs[id := s.runs[id] + 1])
    case FunctionReturns(id, o) => s.(pc := s.pc[id := Back(o)])
    case Finish(id, now) => s.(core := AfterEnd(s.core, id, s.pc[id].outcome, now),
                               pc := s.pc[id := Recorded(s.pc[id].outcome)])
    case Callback(id) => s.(pc := s.pc[id := Leaving(true)], calls := s.calls[id := s.calls[id] + 1])
    case FreeSlot(id) => s.(pc := s.pc[id := Gone(s.pc[id].ran)], slots := s.slots - 1)
    case Cancel(id, now) => s.(core := AfterCancel(s.core, id, now))
    case CancelAll(session, now) => s.(core := AfterCancelAll(s.core, session, now))
    case Shutdown(now) => s.(core := AfterShutdown(s.core, now))
    case Prune(cutoff) => s.(core := AfterPrune(s.core, cutoff))
    case OthersTake => s.(others := s.others + 1)
    case OthersFree => s.(others := s.others - 1)
  }

  ghost predicate IsInit(s: State) {
    && Consistent(s.core) && s.core.running == {} && !s.core.root && s.core.signalled == {}
    && (forall id :: id in s.core.records ==> !Live(s.core.records[id].status))
    && s.pc == map[] && s.runs == map[] && s.calls == map[] && s.slots == 0 && s.others == 0
  }

  // ---------------------------------------------------------------- invariants

  predicate HoldsSlot(pc: PC) {
    !pc.WaitingSlot? && !pc.Gone?
  }

  /** Status and counters of a task fit the place its goroutine is at. */
  predicate Fits(st: Status, pc: PC, runs: nat, calls: nat) {
    match pc
    case WaitingSlot | HasSlot => (st.Pending? || st.Cancelled?) && runs == 0 && calls == 0
    case Executing | Back(_) => (st.Running? || st.Cancelled?) && runs == 1 && calls == 0
    case Recorded(_) => !Live(st) && runs == 1 && calls == 0
    case Leaving(ran) => !Live(st) && (!ran ==> st.Cancelled?) && runs == (if ran then 1 else 0) && calls == runs
    case Gone(ran) => !Live(st) && (!ran ==> st.Cancelled?) && runs == (if ran then 1 else 0) && calls == runs
  }

  ghost predicate TaskOk(s: State, id: Id) {
    && (id in s.pc ==> At(s, id) && Fits(s.core.records[id].status, s.pc[id], s.runs[id], s.calls[id]))
    && (id in s.core.records && id !in s.pc ==> !Live(s.core.records[id].status))
  }

  ghost predicate AllOk(s: State) {
    forall id {:trigger TaskOk(s, id)} :: TaskOk(s, id)
  }

  function HoldersOf(pc: map<Id, PC>): set<Id> {
    set id | id in pc && HoldsSlot(pc[id])
  }

  function Holders(s: State): set<Id> {
    HoldersOf(s.pc)
  }

  ghost predicate Inv(s: State, cap: nat) {
    && Consistent(s.core) && AllOk(s)
    && s.slots == |Holders(s)| && s.slots + s.others <= cap
  }

  /** A record after an operation on the data alone: it stays as it is, or a live one ends Cancelled. */
  ghost predicate OnlyCancels(before: Core, after: Core, id: Id) {
    && (id in before.records <==> id in after.records)
    && (id in before.records ==>
          after.records[id].status == before.records[id].status
          || (Live(before.records[id].status) && after.records[id].status.Cancelled?))
  }

  predicate DataOnly(a: Step) {
    a.Cancel? || a.CancelAll? || a.Shutdown? || a.Prune?
  }

  lemma {:induction false} UnexpiredKeeps(records: map<Id, Record>, tasks: seq<Id>, cutoff: int, id: Id)
    ensures id in Unexpired(records, tasks, cutoff) <==> id in tasks && !(id in records && Expired(records[id], cutoff))
  {
    if tasks != [] {
      var init := tasks[..|tasks| - 1];
      UnexpiredKeeps(records, init, cutoff, id);
      assert tasks == init + [tasks[|tasks| - 1]];
    }
  }

  /** Pruning never drops a live task. */
  lemma PruneKeepsLive(c: Core, cutoff: int, id: Id)
    requires Consistent(c) && id in c.records && Live(c.records[id].status)
    ensures id in AfterPrune(c, cutoff).tasks
  {
    UnexpiredKeeps(c.records, c.tasks, cutoff, id);
  }

  lemma PruneConsistent(c: Core, cutoff: int)
    requires Consistent(c)
    ensures Consistent(AfterPrune(c, cutoff))
  {
    var c' := AfterPrune(c, cutoff);
    forall id
      ensures id in c'.tasks ==> id in c.tasks
      ensures id in c.records && Live(c.records[id].status) ==> id in c'.tasks
    {
      UnexpiredKeeps(c.records, c.tasks, cutoff, id);
    }
  }

  /** What an operation on the data alone keeps. */
  ghost predicate DataKept(before: Core, after: Core) {
    Consistent(after) && forall id {:trigger OnlyCancels(before, after, id)} :: OnlyCancels(before, after, id)
  }

  lemma CancelKeeps(c: Core, id: Id, now: int)
    requires Consistent(c)
    ensures DataKept(c, AfterCancel(c, id, now))
  {
  }

  lemma CancelAllKeeps(c: Core, session: string, now: int)
    requires Consistent(c)
    ensures DataKept(c, AfterCancelAll(c, session, now))
  {
  }

  lemma ShutdownKeeps(c: Core, now: int)
    requires Consistent(c)
    ensures DataKept(c, AfterShutdown(c, now))
  {
  }

  lemma DataStepConsistent(s: State, a: Step, cap: nat)
    requires Consistent(s.core) && DataOnly(a) && Enabled(s, a, cap)
    ensures DataKept(s.core, Apply(s, a, cap).core)
  {
    match a
    case Cancel(id, now) => CancelKeeps(s.core, id, now);
    case CancelAll(session, now) => CancelAllKeeps(s.core, session, now);
    case Shutdown(now) => ShutdownKeeps(s.core, now);
    case Prune(cutoff) => PruneConsistent(s.core, cutoff);
  }

  lemma TaskStepConsistent(s: State, a: Step, cap: nat)
    requires Consistent(s.core) && Enabled(s, a, cap) && !DataOnly(a)
    requires (a.Begin? || a.Finish?) ==> TaskOk(s, a.id)
    ensures Consistent(Apply(s, a, cap).core)
  {
  }

  /** A step of some task's goroutine, or its creation. */
  predicate TaskStep(a: Step) {
    !DataOnly(a) && !a.OthersTake? && !a.OthersFree?
  }

  function Mover(a: Step): Id
    requires TaskStep(a)
  {
    match a
    case Submit(x, _) => x
    case TakeSlot(x) => x
    case Begin(x, _) => x
    case FunctionReturns(x, _) => x
    case Finish(x, _) => x
    case Callback(x) => x
    case FreeSlot(x) => x
  }

  predicate Moves(a: Step, id: Id) {
    TaskStep(a) && Mover(a) == id
  }

  lemma MoverFits(s: State, a: Step, cap: nat, id: Id)
    requires Enabled(s, a, cap) && Moves(a, id) && TaskOk(s, id)
    ensures TaskOk(Apply(s, a, cap), id)
  {
  }

  /** A step that does not move the goroutine of id leaves its place and counters; its record can only be
      cancelled. */
  lemma OthersUntouched(s: State, a: Step, cap: nat, id: Id)
    requires Enabled(s, a, cap) && !Moves(a, id) && !DataOnly(a)
    ensures var s' := Apply(s, a, cap);
            && (id in s'.pc <==> id in s.pc) && (id in s.pc ==> s'.pc[id] == s.pc[id])
            && (id in s'.runs <==> id in s.runs) && (id in s.runs ==> s'.runs[id] == s.runs[id])
            && (id in s'.calls <==> id in s.calls) && (id in s.calls ==> s'.calls[id] == s.calls[id])
            && (id in s'.core.records <==> id in s.core.records)
            && (id in s.core.records ==> s'.core.records[id] == s.core.records[id])
  {
  }

  lemma StepKeepsOk(s: State, a: Step, cap: nat)
    requires Consistent(s.core) && AllOk(s) && Enabled(s, a, cap)
    ensures AllOk(Apply(s, a, cap))
  {
    var s' := Apply(s, a, cap);
    forall id
      ensures TaskOk(s', id)
    {
      assert TaskOk(s, id);
      if Moves(a, id) {
        MoverFits(s, a, cap, id);
      } else if DataOnly(a) {
        DataStepConsistent(s, a, cap);
        assert OnlyCancels(s.core, s'.core, id);
      } else {
        OthersUntouched(s, a, cap, id);
      }
    }
  }

  lemma HoldersAfter(pc: map<Id, PC>, id: Id, p: PC)
    ensures HoldersOf(pc[id := p]) == if HoldsSlot(p) then HoldersOf(pc) + {id} else HoldersOf(pc) - {id}
  {
  }

  lemma MoverSlots(s: State, a: Step, cap: nat)
    requires Enabled(s, a, cap) && TaskStep(a)
    ensures var id, s' := Mover(a), Apply(s, a, cap);
            && id in s'.pc && s'.pc == s.pc[id := s'.pc[id]] && s'.others == s.others
            && (HoldsSlot(s'.pc[id]) <==> !a.Submit? && !a.FreeSlot?)
            && s'.slots == (if a.TakeSlot? then s.slots + 1 else if a.FreeSlot? then s.slots - 1 else s.slots)
    ensures a.Submit? || (Mover(a) in s.pc && (HoldsSlot(s.pc[Mover(a)]) <==> !a.TakeSlot?))
  {
  }

  lemma StepKeepsSlots(s: State, a: Step, cap: nat)
    requires AllOk(s) && Enabled(s, a, cap) && s.slots == |Holders(s)| && s.slots + s.others <= cap
    ensures var s' := Apply(s, a, cap); s'.slots == |Holders(s')| && s'.slots + s'.others <= cap
  {
    if TaskStep(a) {
      var id, s' := Mover(a), Apply(s, a, cap);
      assert TaskOk(s, id);
      MoverSlots(s, a, cap);
      HoldersAfter(s.pc, id, s'.pc[id]);
      assert a.Submit? || id in Holders(s) <==> !a.TakeSlot?;
      OneMoreOrLess(Holders(s), id);
    }
  }

  lemma StepKeepsInv(s: State, a: Step, cap: nat)
    requires Inv(s, cap) && Enabled(s, a, cap)
    ensures Inv(Apply(s, a, cap), cap)
  {
    if DataOnly(a) {
      DataStepConsistent(s, a, cap);
    } else {
      if a.Begin? || a.Finish? {
        assert TaskOk(s, a.id);
      }
      TaskStepConsistent(s, a, cap);
    }
    StepKeepsOk(s, a, cap);
    StepKeepsSlots(s, a, cap);
  }

  // ---------------------------------------------------------------- whole runs

  ghost predicate IsRun(ss: seq<State>, acts: seq<Step>, cap: nat) {
    && |ss| == |acts| + 1 && IsInit(ss[0])
    && forall i :: 0 <= i < |acts| ==> Enabled(ss[i], acts[i], cap) && ss[i + 1] == Apply(ss[i], acts[i], cap)
  }

  lemma {:induction false} RunInv(ss: seq<State>, acts: seq<Step>, cap: nat, k: nat)
    requires IsRun(ss, acts, cap) && k <= |acts|
    ensures Inv(ss[k], cap)
    decreases k
  {
    if k == 0 {
      assert Holders(ss[0]) == {};
    } else {
      RunInv(ss, acts, cap, k - 1);
      assert Enabled(ss[k - 1], acts[k - 1], cap);
      StepKeepsInv(ss[k - 1], acts[k - 1], cap);
    }
  }

  /** The running index holds exactly the tasks with status Running, and every live task is listed. */
  lemma IndexIsExact(ss: seq<State>, acts: seq<Step>, cap: nat, k: nat)
    requires IsRun(ss, acts, cap) && k <= |acts|
    ensures var c := ss[k].core;
            && (forall id :: id in c.running <==> id in c.records && c.records[id].status.Running?)
            && (forall id {:trigger c.records[id]} :: id in c.records && Live(c.records[id].status) ==> id in c.tasks)
  {
    RunInv(ss, acts, cap, k);
  }

  /** One task across one step: its place, counters and status. */
  lemma OneStep(ss: seq<State>, acts: seq<Step>, cap: nat, k: nat, id: Id)
    requires IsRun(ss, acts, cap) && k < |acts| && id in ss[k].core.records
    ensures TaskOk(ss[k], id) && TaskOk(ss[k + 1], id) && id in ss[k + 1].core.records
    ensures id in ss[k].pc <==> id in ss[k + 1].pc
    ensures !Moves(acts[k], id) && id in ss[k].pc ==> ss[k + 1].pc[id] == ss[k].pc[id]
    ensures Moves(acts[k], id) ==> id in ss[k].pc && !acts[k].Submit?
    ensures Moves(acts[k], id) || ss[k + 1].core.records[id].status == ss[k].core.records[id].status
            || (Live(ss[k].core.records[id].status) && ss[k + 1].core.records[id].status.Cancelled?)
  {
    var s, a := ss[k], acts[k];
    RunInv(ss, acts, cap, k);
    RunInv(ss, acts, cap, k + 1);
    assert Enabled(s, a, cap);
    assert TaskOk(s, id) && TaskOk(ss[k + 1], id);
    if DataOnly(a) {
      DataStepConsistent(s, a, cap);
      assert OnlyCancels(s.core, ss[k + 1].core, id);
    } else if !Moves(a, id) {
      OthersUntouched(s, a, cap, id);
    }
  }

  lemma TerminalStep(ss: seq<State>, acts: seq<Step>, cap: nat, k: nat, id: Id)
    requires IsRun(ss, acts, cap) && k < |acts| && id in ss[k].core.records && !Live(ss[k].core.records[id].status)
    ensures id in ss[k + 1].core.records && !Live(ss[k + 1].core.records[id].status)
  {
    OneStep(ss, acts, cap, k, id);
    assert Enabled(ss[k], acts[k], cap);
  }

  /** A finished task never becomes pending or running again. */
  lemma {:induction false} TerminalStays(ss: seq<State>, acts: seq<Step>, cap: nat, j: nat, k: nat, id: Id)
    requires IsRun(ss, acts, cap) && j <= k <= |acts|
    requires id in ss[j].core.records && !Live(ss[j].core.records[id].status)
    ensures id in ss[k].core.records && !Live(ss[k].core.records[id].status)
    decreases k - j
  {
    if j < k {
      TerminalStep(ss, acts, cap, j, id);
      TerminalStays(ss, acts, cap, j + 1, k, id);
    }
  }

  /** Cancelled before its function was called. */
  predicate Spared(s: State, id: Id) {
    && At(s, id) && s.core.records[id].status.Cancelled?
    && (s.pc[id].WaitingSlot? || s.pc[id].HasSlot? || s.pc[id] == Leaving(false) || s.pc[id] == Gone(false))
  }

  lemma SparedStep(ss: seq<State>, acts: seq<Step>, cap: nat, k: nat, id: Id)
    requires IsRun(ss, acts, cap) && k < |acts| && Spared(ss[k], id)
    ensures Spared(ss[k + 1], id)
  {
    OneStep(ss, acts, cap, k, id);
    assert Enabled(ss[k], acts[k], cap);
  }

  /** A task cancelled while pending stays Cancelled, and neither its function nor its callback is ever called. */
  lemma {:induction false} CancelledPendingNeverRuns(ss: seq<State>, acts: seq<Step>, cap: nat, j: nat, k: nat, id: Id)
    requires IsRun(ss, acts, cap) && j <= k <= |acts| && Spared(ss[j], id)
    ensures At(ss[k], id) && ss[k].core.records[id].status.Cancelled? && ss[k].runs[id] == 0 && ss[k].calls[id] == 0
    decreases k - j
  {
    if j < k {
      SparedStep(ss, acts, cap, j, id);
      CancelledPendingNeverRuns(ss, acts, cap, j + 1, k, id);
    } else {
      RunInv(ss, acts, cap, j);
      assert TaskOk(ss[j], id);
    }
  }

  /** No function or callback is called twice, and a goroutine that ran its task leaves after exactly one call
      of each. */
  lemma CallbackExactlyOnce(ss: seq<State>, acts: seq<Step>, cap: nat, k: nat, id: Id)
    requires IsRun(ss, acts, cap) && k <= |acts| && id in ss[k].pc
    ensures At(ss[k], id) && ss[k].calls[id] <= ss[k].runs[id] <= 1
    ensures ss[k].pc[id].Gone? ==> ss[k].calls[id] == ss[k].runs[id]
  {
    RunInv(ss, acts, cap, k);
    assert TaskOk(ss[k], id);
  }

  /** Cancelling a running task is not final: its status afterwards is Cancelled exactly when the function
      reports the cancellation. */
  lemma FinishOverwritesCancel(ss: seq<State>, acts: seq<Step>, cap: nat, k: nat, id: Id, now: int)
    requires IsRun(ss, acts, cap) && k < |acts| && acts[k] == Finish(id, now)
    ensures id in ss[k].pc && ss[k].pc[id].Back? && id in ss[k + 1].core.records
    ensures ss[k + 1].core.records[id].status.Cancelled? <==> ss[k].pc[id].outcome.ContextCanceled?
  {
    assert Enabled(ss[k], acts[k], cap);
  }

  /** At most cap functions execute at any moment, slots lent to others included. */
  lemma ConcurrencyBounded(ss: seq<State>, acts: seq<Step>, cap: nat, k: nat)
    requires IsRun(ss, acts, cap) && k <= |acts|
    ensures |set id | id in ss[k].pc && ss[k].pc[id].Executing?| + ss[k].others <= cap
  {
    RunInv(ss, acts, cap, k);
    SubsetSize((set id | id in ss[k].pc && ss[k].pc[id].Executing?), Holders(ss[k]));
  }

  /** When all goroutines are gone no slot is held and nothing is live. */
  lemma Drained(ss: seq<State>, acts: seq<Step>, cap: nat, k: nat)
    requires IsRun(ss, acts, cap) && k <= |acts| && forall id :: id in ss[k].pc ==> ss[k].pc[id].Gone?
    ensures ss[k].slots == 0 && ss[k].core.running == {}
    ensures forall id :: id in ss[k].core.records ==> !Live(ss[k].core.records[id].status)
  {
    RunInv(ss, acts, cap, k);
    assert Holders(ss[k]) == {};
    forall id | id in ss[k].core.records
      ensures !Live(ss[k].core.records[id].status)
    {
      assert TaskOk(ss[k], id);
    }
  }
}
