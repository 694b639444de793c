/** How tasks of the queue end: what cancelling and shutting down do and do not guarantee, and why every task's
    goroutine gets through. */
module TaskQueueEnds {
  import opened TaskQueue
  import opened TaskQueueRuns

  // ---------------------------------------------------------------- contexts

  /** A cancelled context stays cancelled. */
  lemma {:induction false} ContextStaysDone(ss: seq<State>, acts: seq<Step>, cap: nat, j: nat, k: nat, id: Id)
    requires IsPath(ss, acts, cap) && j <= k <= |acts|
    ensures ContextDone(ss[j].core, id) ==> ContextDone(ss[k].core, id)
    ensures ss[j].core.root ==> ss[k].core.root
    decreases k - j
  {
    if j < k {
      assert Enabled(ss[j], acts[j], cap);
      SignalsStay(ss[j], acts[j], cap);
      ContextStaysDone(ss, acts, cap, j + 1, k, id);
    }
  }

  lemma SignalsStay(s: State, a: Step, cap: nat)
    requires Enabled(s, a, cap)
    ensures s.core.signalled <= Apply(s, a, cap).core.signalled && (s.core.root ==> Apply(s, a, cap).core.root)
  {
  }

  /** A running task that is cancelled, by its ID, with its session or by a shutdown, has its context cancelled. */
  lemma CancellingReachesContext(ss: seq<State>, acts: seq<Step>, cap: nat, k: nat, id: Id)
    requires IsRun(ss, acts, cap) && k < |acts| && id in ss[k].core.running
    requires id in ss[k + 1].core.records && ss[k + 1].core.records[id].status.Cancelled? && !Moves(acts[k], id)
    ensures ContextDone(ss[k + 1].core, id)
  {
    RunInv(ss, acts, cap, k);
    assert Enabled(ss[k], acts[k], cap);
    if !DataOnly(acts[k]) {
      OthersUntouched(ss[k], acts[k], cap, id);
    }
  }

  lemma NoNewSignal(s: State, a: Step, cap: nat, id: Id)
    requires Enabled(s, a, cap) && !ContextDone(s.core, id) && !a.Shutdown?
    requires id in s.core.running ==> !(a.Cancel? && a.id == id) && !a.CancelAll?
    ensures !ContextDone(Apply(s, a, cap).core, id)
  {
  }

  /** No context is cancelled without cause: while nobody has shut the queue down or cancelled the task as it ran, its
      context lives. */
  lemma {:induction false} ContextDoneHasCause(ss: seq<State>, acts: seq<Step>, cap: nat, k: nat, id: Id)
    requires IsRun(ss, acts, cap) && k <= |acts| && ContextDone(ss[k].core, id)
    ensures exists j :: 0 <= j < k
              && (acts[j].Shutdown?
                  || (id in ss[j].core.running && ((acts[j].Cancel? && acts[j].id == id) || acts[j].CancelAll?)))
    decreases k
  {
    if k > 0 {
      assert Enabled(ss[k - 1], acts[k - 1], cap);
      if ContextDone(ss[k - 1].core, id) {
        ContextDoneHasCause(ss, acts, cap, k - 1, id);
      } else if !acts[k - 1].Shutdown? {
        if id in ss[k - 1].core.running ==> !(acts[k - 1].Cancel? && acts[k - 1].id == id) && !acts[k - 1].CancelAll? {
          NoNewSignal(ss[k - 1], acts[k - 1], cap, id);
        }
      }
    }
  }

  /** A function begun after a shutdown gets a context that is cancelled already. */
  lemma BegunAfterShutdown(ss: seq<State>, acts: seq<Step>, cap: nat, j: nat, k: nat, m: nat, id: Id, now: int)
    requires IsRun(ss, acts, cap) && j < k < m <= |acts| && acts[j].Shutdown? && acts[k] == Begin(id, now)
    ensures ContextDone(ss[k].core, id) && ContextDone(ss[m].core, id)
  {
    assert Enabled(ss[j], acts[j], cap) && IsPath(ss, acts, cap);
    ContextStaysDone(ss, acts, cap, j + 1, k, id);
    ContextStaysDone(ss, acts, cap, j + 1, m, id);
  }

  // ---------------------------------------------------------------- continuations

  /** s' is where some steps from s can lead. */
  ghost predicate Leads(s: State, s': State, cap: nat) {
    exists ss, acts :: IsPath(ss, acts, cap) && ss[0] == s && ss[|acts|] == s'
  }

  ghost predicate IsPath(ss: seq<State>, acts: seq<Step>, cap: nat) {
    && |ss| == |acts| + 1
    && forall i :: 0 <= i < |acts| ==> Enabled(ss[i], acts[i], cap) && ss[i + 1] == Apply(ss[i], acts[i], cap)
  }

  lemma Stay(s: State, cap: nat)
    ensures Leads(s, s, cap)
  {
    assert IsPath([s], [], cap);
  }

  lemma LeadOn(s: State, s1: State, a: Step, cap: nat)
    requires Leads(s, s1, cap) && Enabled(s1, a, cap)
    ensures Leads(s, Apply(s1, a, cap), cap)
  {
    var ss, acts :| IsPath(ss, acts, cap) && ss[0] == s && ss[|acts|] == s1;
    var ss', acts' := ss + [Apply(s1, a, cap)], acts + [a];
    forall i | 0 <= i < |acts'|
      ensures Enabled(ss'[i], acts'[i], cap) && ss'[i + 1] == Apply(ss'[i], acts'[i], cap)
    {
      assert i < |acts| ==> Enabled(ss[i], acts[i], cap);
    }
    assert IsPath(ss', acts', cap) && ss'[0] == s && ss'[|acts'|] == Apply(s1, a, cap);
  }

  // ---------------------------------------------------------------- when Cancelled is final

  predicate IsCancelled(s: State, id: Id) {
    At(s, id) && s.core.records[id].status.Cancelled?
  }

  /** The function of the task is still executing, or has returned something else than the cancellation. */
  predicate CanStillOverwrite(s: State, id: Id)
    requires At(s, id)
  {
    s.pc[id].Executing? || (s.pc[id].Back? && !s.pc[id].outcome.ContextCanceled?)
  }

  ghost predicate CanLoseCancelled(s: State, cap: nat, id: Id) {
    exists s' :: Leads(s, s', cap) && At(s', id) && !s'.core.records[id].status.Cancelled?
  }

  lemma FinishOverwrites(s: State, cap: nat, id: Id)
    requires At(s, id) && s.pc[id].Back? && !s.pc[id].outcome.ContextCanceled?
    ensures Enabled(s, Finish(id, 1), cap)
    ensures var s' := Apply(s, Finish(id, 1), cap); At(s', id) && !s'.core.records[id].status.Cancelled?
  {
  }

  lemma OverwriteIsPossible(s: State, cap: nat, id: Id)
    requires At(s, id) && CanStillOverwrite(s, id)
    ensures CanLoseCancelled(s, cap, id)
  {
    Stay(s, cap);
    var s1 := s;
    if s.pc[id].Executing? {
      LeadOn(s, s, FunctionReturns(id, Returned("done")), cap);
      s1 := Apply(s, FunctionReturns(id, Returned("done")), cap);
    }
    FinishOverwrites(s1, cap, id);
    LeadOn(s, s1, Finish(id, 1), cap);
  }

  ghost predicate Final(s: State, cap: nat, id: Id) {
    Inv(s, cap) && IsCancelled(s, id) && !CanStillOverwrite(s, id)
  }

  lemma FinalStep(s: State, a: Step, cap: nat, id: Id)
    requires Final(s, cap, id) && Enabled(s, a, cap)
    ensures Final(Apply(s, a, cap), cap, id)
  {
    StepKeepsInv(s, a, cap);
    assert TaskOk(s, id);
    if DataOnly(a) {
      DataStepConsistent(s, a, cap);
      assert OnlyCancels(s.core, Apply(s, a, cap).core, id);
    } else if !Moves(a, id) {
      OthersUntouched(s, a, cap, id);
    }
  }

  lemma {:induction false} FinalPath(ss: seq<State>, acts: seq<Step>, cap: nat, k: nat, id: Id)
    requires IsPath(ss, acts, cap) && k <= |acts| && Final(ss[0], cap, id)
    ensures Final(ss[k], cap, id)
    decreases k
  {
    if k > 0 {
      FinalPath(ss, acts, cap, k - 1, id);
      assert Enabled(ss[k - 1], acts[k - 1], cap);
      FinalStep(ss[k - 1], acts[k - 1], cap, id);
    }
  }

  /** In any state a run can reach, a Cancelled task can end otherwise if and only if its function is executing or has
      returned something else than the cancellation. */
  lemma CancelledIsFinalIff(s: State, cap: nat, id: Id)
    requires Inv(s, cap) && IsCancelled(s, id)
    ensures CanLoseCancelled(s, cap, id) <==> CanStillOverwrite(s, id)
  {
    if CanStillOverwrite(s, id) {
      OverwriteIsPossible(s, cap, id);
    } else {
      forall s' | Leads(s, s', cap)
        ensures At(s', id) && s'.core.records[id].status.Cancelled?
      {
        var ss, acts :| IsPath(ss, acts, cap) && ss[0] == s && ss[|acts|] == s';
        FinalPath(ss, acts, cap, |acts|, id);
      }
    }
  }

  /** The queue of an empty manager. */
  function Fresh(): State {
    State(Core(map[], [], {}, false, {}), map[], 0, 0, map[], map[])
  }

  /** A task is submitted and started, cancelled while it runs, and ends as a success all the same. */
  lemma CancelledThenSuccess(cap: nat) returns (cancelled: State, end: State)
    requires cap > 0
    ensures IsInit(Fresh()) && Leads(Fresh(), cancelled, cap) && IsCancelled(cancelled, "t")
            && ContextDone(cancelled.core, "t")
    ensures Leads(Fresh(), end, cap) && Leads(cancelled, end, cap)
    ensures At(end, "t") && end.core.records["t"].status.Success? && end.core.records["t"].result == "done"
  {
    var s := Executed("t", cap);
    LeadOn(Fresh(), s, Cancel("t", 2), cap);
    cancelled := Apply(s, Cancel("t", 2), cap);
    Stay(cancelled, cap);
    var o := Returned("done");
    var back := Apply(cancelled, FunctionReturns("t", o), cap);
    LeadOn(Fresh(), cancelled, FunctionReturns("t", o), cap);
    LeadOn(cancelled, cancelled, FunctionReturns("t", o), cap);
    LeadOn(Fresh(), back, Finish("t", 3), cap);
    LeadOn(cancelled, back, Finish("t", 3), cap);
    end := Apply(back, Finish("t", 3), cap);
  }

  lemma Executed(id: Id, cap: nat) returns (s: State)
    requires cap > 0
    ensures Leads(Fresh(), s, cap) && At(s, id) && s.pc[id].Executing? && s.core.records[id].status.Running?
    ensures s.core.running == {id} && s.core.tasks == [id]
  {
    Stay(Fresh(), cap);
    LeadOn(Fresh(), Fresh(), Submit(id, ""), cap);
    s := Apply(Fresh(), Submit(id, ""), cap);
    LeadOn(Fresh(), s, TakeSlot(id), cap);
    s := Apply(s, TakeSlot(id), cap);
    LeadOn(Fresh(), s, Begin(id, 1), cap);
    s := Apply(s, Begin(id, 1), cap);
  }

  // ---------------------------------------------------------------- what a task's function leaves behind

  /** The record says what the function returned. */
  ghost predicate RecordSays(r: Record, o: Outcome) {
    match o
    case Returned(text) => r.status.Success? && CutTo2000(r.result, text)
    case ContextCanceled => r.status.Cancelled?
    case Failure(e) => r.status.Failed? && CutTo2000(r.error, e)
  }

  /** The function of the task has returned o: the goroutine carries it, or the record says so. */
  ghost predicate Reports(s: State, id: Id, o: Outcome) {
    && At(s, id)
    && match s.pc[id] {
         case Back(x) => x == o
         case Recorded(x) => x == o && RecordSays(s.core.records[id], o)
         case Leaving(ran) => ran && RecordSays(s.core.records[id], o)
         case Gone(ran) => ran && RecordSays(s.core.records[id], o)
         case _ => false
       }
  }

  lemma DeadRecordStays(c: Core, id: Id, other: Id, session: string, now: int)
    requires Consistent(c) && id in c.records && !Live(c.records[id].status)
    ensures id in AfterCancel(c, other, now).records && AfterCancel(c, other, now).records[id] == c.records[id]
    ensures id in AfterCancelAll(c, session, now).records
    ensures AfterCancelAll(c, session, now).records[id] == c.records[id]
    ensures id in AfterShutdown(c, now).records && AfterShutdown(c, now).records[id] == c.records[id]
  {
  }

  lemma FinishSays(s: State, cap: nat, id: Id, now: int, o: Outcome)
    requires At(s, id) && s.pc[id] == Back(o)
    ensures Reports(Apply(s, Finish(id, now), cap), id, o)
  {
    EndMeans(s.core, id, o, now);
  }

  lemma RecordKept(s: State, a: Step, cap: nat, id: Id)
    requires Inv(s, cap) && Enabled(s, a, cap) && At(s, id) && !Moves(a, id)
    ensures At(Apply(s, a, cap), id) && Apply(s, a, cap).pc[id] == s.pc[id]
    ensures !Live(s.core.records[id].status) ==> Apply(s, a, cap).core.records[id] == s.core.records[id]
  {
    if DataOnly(a) {
      DataStepConsistent(s, a, cap);
      assert OnlyCancels(s.core, Apply(s, a, cap).core, id);
      if !Live(s.core.records[id].status) && !a.Prune? {
        DeadRecordStays(s.core, id, if a.Cancel? then a.id else id, if a.CancelAll? then a.session else "", a.now);
      }
    } else {
      OthersUntouched(s, a, cap, id);
    }
  }

  lemma ReportsStep(s: State, a: Step, cap: nat, id: Id, o: Outcome)
    requires Inv(s, cap) && Enabled(s, a, cap) && Reports(s, id, o)
    ensures Reports(Apply(s, a, cap), id, o)
  {
    assert TaskOk(s, id);
    if !Moves(a, id) {
      RecordKept(s, a, cap, id);
    } else if a.Finish? {
      FinishSays(s, cap, id, a.now, o);
    }
  }

  lemma {:induction false} ReportsStay(ss: seq<State>, acts: seq<Step>, cap: nat, j: nat, k: nat, id: Id, o: Outcome)
    requires IsRun(ss, acts, cap) && j <= k <= |acts| && Reports(ss[j], id, o)
    ensures Reports(ss[k], id, o)
    decreases k - j
  {
    if j < k {
      RunInv(ss, acts, cap, j);
      assert Enabled(ss[j], acts[j], cap);
      ReportsStep(ss[j], acts[j], cap, id, o);
      ReportsStay(ss, acts, cap, j + 1, k, id, o);
    }
  }

  /** Once its goroutine has stored it, the record of a task says what its function returned, and goes on saying so
      whatever is cancelled or shut down afterwards. */
  lemma OutcomeIsRecorded(ss: seq<State>, acts: seq<Step>, cap: nat, j: nat, k: nat, id: Id, o: Outcome)
    requires IsRun(ss, acts, cap) && j < k <= |acts| && acts[j] == FunctionReturns(id, o)
    requires id in ss[k].pc && !ss[k].pc[id].Back?
    ensures id in ss[k].core.records && RecordSays(ss[k].core.records[id], o)
  {
    assert Enabled(ss[j], acts[j], cap);
    assert Reports(ss[j + 1], id, o);
    ReportsStay(ss, acts, cap, j + 1, k, id, o);
  }

  // ---------------------------------------------------------------- shutting down

  predicate StatusPending(s: State, id: Id) {
    At(s, id) && s.core.records[id].status.Pending?
  }

  /** The function of the task can still be called. */
  ghost predicate CanBegin(s: State, cap: nat, id: Id) {
    exists s' :: Leads(s, s', cap) && HasBegun(s, s', id)
  }

  predicate HasBegun(s: State, s': State, id: Id) {
    At(s, id) && At(s', id) && s'.runs[id] > s.runs[id]
  }

  /** s1 is on a way from s on which the task keeps waiting for a slot. */
  ghost predicate StillWaits(s: State, s1: State, cap: nat, id: Id) {
    && Leads(s, s1, cap) && Inv(s1, cap) && StatusPending(s1, id) && s1.pc[id].WaitingSlot?
    && id in s.runs && s1.runs[id] == s.runs[id]
  }

  lemma WaitOn(s: State, s1: State, a: Step, cap: nat, id: Id)
    requires StillWaits(s, s1, cap, id) && Enabled(s1, a, cap) && !Moves(a, id) && !DataOnly(a)
    ensures StillWaits(s, Apply(s1, a, cap), cap, id)
  {
    LeadOn(s, s1, a, cap);
    StepKeepsInv(s1, a, cap);
    OthersUntouched(s1, a, cap, id);
  }

  /** The next step of a goroutine that holds a slot; its function may return. */
  function NextOf(pc: PC, id: Id): Step {
    match pc
    case HasSlot => Begin(id, 0)
    case Executing => FunctionReturns(id, Returned(""))
    case Back(_) => Finish(id, 0)
    case Recorded(_) => Callback(id)
    case _ => FreeSlot(id)
  }

  lemma HolderGoesOn(s: State, cap: nat, id: Id)
    requires Inv(s, cap) && id in s.pc && HoldsSlot(s.pc[id])
    ensures Enabled(s, NextOf(s.pc[id], id), cap)
    ensures var s' := Apply(s, NextOf(s.pc[id], id), cap);
            && id in s'.pc && Rank(s'.pc[id]) < Rank(s.pc[id])
            && (HoldsSlot(s'.pc[id]) || s'.slots + s'.others < cap)
  {
    assert TaskOk(s, id) && id in Holders(s);
  }

  /** While a task waits, a goroutine that holds a slot can run through and give the slot back. */
  lemma {:induction false} HolderRunsThrough(s: State, s1: State, cap: nat, id: Id, holder: Id) returns (s2: State)
    requires StillWaits(s, s1, cap, id) && holder in s1.pc && HoldsSlot(s1.pc[holder])
    ensures StillWaits(s, s2, cap, id) && s2.slots + s2.others < cap
    decreases Rank(s1.pc[holder])
  {
    var a := NextOf(s1.pc[holder], holder);
    HolderGoesOn(s1, cap, holder);
    WaitOn(s, s1, a, cap, id);
    s2 := Apply(s1, a, cap);
    if HoldsSlot(s2.pc[holder]) {
      s2 := HolderRunsThrough(s, s2, cap, id, holder);
    }
  }

  lemma SlotComesFree(s: State, cap: nat, id: Id) returns (s1: State)
    requires Inv(s, cap) && cap > 0 && StatusPending(s, id) && s.pc[id].WaitingSlot?
    ensures StillWaits(s, s1, cap, id) && s1.slots + s1.others < cap
  {
    Stay(s, cap);
    s1 := s;
    if s.others > 0 {
      WaitOn(s, s, OthersFree, cap, id);
      s1 := Apply(s, OthersFree, cap);
    } else if s.slots > 0 {
      var holder := SomeHolder(s);
      s1 := HolderRunsThrough(s, s, cap, id, holder);
    }
  }

  lemma PendingBegins(s: State, cap: nat, id: Id)
    requires Inv(s, cap) && cap > 0 && StatusPending(s, id)
    ensures CanBegin(s, cap, id)
  {
    assert TaskOk(s, id);
    Stay(s, cap);
    var s1 := s;
    if s.pc[id].WaitingSlot? {
      s1 := SlotComesFree(s, cap, id);
      LeadOn(s, s1, TakeSlot(id), cap);
      s1 := Apply(s1, TakeSlot(id), cap);
    }
    LeadOn(s, s1, Begin(id, 0), cap);
    assert HasBegun(s, Apply(s1, Begin(id, 0), cap), id);
  }

  /** The function of the task is not called any more: it has been called runs times. */
  ghost predicate Done(s: State, cap: nat, id: Id, runs: nat) {
    Inv(s, cap) && At(s, id) && !s.core.records[id].status.Pending? && s.runs[id] == runs
  }

  lemma DoneStep(s: State, a: Step, cap: nat, id: Id, runs: nat)
    requires Done(s, cap, id, runs) && Enabled(s, a, cap)
    ensures Done(Apply(s, a, cap), cap, id, runs)
  {
    StepKeepsInv(s, a, cap);
    assert TaskOk(s, id);
    if DataOnly(a) {
      DataStepConsistent(s, a, cap);
      assert OnlyCancels(s.core, Apply(s, a, cap).core, id);
    } else if !Moves(a, id) {
      OthersUntouched(s, a, cap, id);
    }
  }

  lemma {:induction false} DonePath(ss: seq<State>, acts: seq<Step>, cap: nat, k: nat, id: Id, runs: nat)
    requires IsPath(ss, acts, cap) && k <= |acts| && Done(ss[0], cap, id, runs)
    ensures Done(ss[k], cap, id, runs)
    decreases k
  {
    if k > 0 {
      DonePath(ss, acts, cap, k - 1, id, runs);
      assert Enabled(ss[k - 1], acts[k - 1], cap);
      DoneStep(ss[k - 1], acts[k - 1], cap, id, runs);
    }
  }

  /** In any state a run can reach, the function of a task can still be called if and only if the task is pending. */
  lemma CanBeginIff(s: State, cap: nat, id: Id)
    requires Inv(s, cap) && cap > 0 && At(s, id)
    ensures CanBegin(s, cap, id) <==> StatusPending(s, id)
  {
    if StatusPending(s, id) {
      PendingBegins(s, cap, id);
    } else {
      forall s' | Leads(s, s', cap)
        ensures !HasBegun(s, s', id)
      {
        var ss, acts :| IsPath(ss, acts, cap) && ss[0] == s && ss[|acts|] == s';
        DonePath(ss, acts, cap, |acts|, id, s.runs[id]);
      }
    }
  }

  /** After a shutdown in any state a run can reach, the function of a task can still be called if and only if the task
      was pending; whatever happens, its context is cancelled. */
  lemma PendingRunsAfterShutdown(s: State, cap: nat, id: Id, now: int)
    requires Inv(s, cap) && cap > 0 && At(s, id)
    ensures var down := Apply(s, Shutdown(now), cap);
            CanBegin(down, cap, id) <==> s.core.records[id].status.Pending?
    ensures forall s' :: Leads(Apply(s, Shutdown(now), cap), s', cap) ==> ContextDone(s'.core, id)
  {
    var down := Apply(s, Shutdown(now), cap);
    StepKeepsInv(s, Shutdown(now), cap);
    CanBeginIff(down, cap, id);
    assert TaskOk(s, id);
    forall s' | Leads(down, s', cap)
      ensures ContextDone(s'.core, id)
    {
      var ss, acts :| IsPath(ss, acts, cap) && ss[0] == down && ss[|acts|] == s';
      ContextStaysDone(ss, acts, cap, 0, |acts|, id);
    }
  }

  /** Submitted, shut down, executed. */
  lemma StartedAfterShutdown(cap: nat) returns (s: State)
    requires cap > 0
    ensures IsInit(Fresh()) && Leads(Fresh(), s, cap)
    ensures At(s, "t") && s.pc["t"].Executing? && s.core.root && ContextDone(s.core, "t")
  {
    Stay(Fresh(), cap);
    LeadOn(Fresh(), Fresh(), Submit("t", ""), cap);
    s := Apply(Fresh(), Submit("t", ""), cap);
    LeadOn(Fresh(), s, Shutdown(1), cap);
    s := Apply(s, Shutdown(1), cap);
    LeadOn(Fresh(), s, TakeSlot("t"), cap);
    s := Apply(s, TakeSlot("t"), cap);
    LeadOn(Fresh(), s, Begin("t", 2), cap);
    s := Apply(s, Begin("t", 2), cap);
  }

  // ---------------------------------------------------------------- progress

  /** A step the queue's own code makes: everything but submitting and the return of a task's function. */
  predicate OwnStep(a: Step) {
    a.TakeSlot? || a.Begin? || a.Finish? || a.Callback? || a.FreeSlot?
  }

  ghost predicate CanStep(s: State, cap: nat) {
    exists a :: OwnStep(a) && Enabled(s, a, cap)
  }

  /** A goroutine that holds a slot can step unless it is inside its task's function. */
  lemma HolderSteps(s: State, cap: nat, id: Id)
    requires Inv(s, cap) && id in s.pc && HoldsSlot(s.pc[id]) && !s.pc[id].Executing?
    ensures CanStep(s, cap)
  {
    assert TaskOk(s, id);
    assert id in Holders(s);
    match s.pc[id]
    case HasSlot => assert Enabled(s, Begin(id, 0), cap);
    case Back(_) => assert Enabled(s, Finish(id, 0), cap);
    case Recorded(_) => assert Enabled(s, Callback(id), cap);
    case Leaving(_) => assert Enabled(s, FreeSlot(id), cap);
  }

  /** The goroutine is through, inside its task's function, or waits for a slot while none is free. */
  predicate Rests(s: State, cap: nat, id: Id) {
    id in s.pc && (s.pc[id].Gone? || s.pc[id].Executing? || (s.pc[id].WaitingSlot? && s.slots + s.others == cap))
  }

  lemma RestsOrSteps(s: State, cap: nat, id: Id)
    requires Inv(s, cap) && id in s.pc
    ensures Rests(s, cap, id) || CanStep(s, cap)
  {
    assert TaskOk(s, id);
    if s.pc[id].WaitingSlot? {
      assert s.slots + s.others < cap ==> Enabled(s, TakeSlot(id), cap);
    } else if HoldsSlot(s.pc[id]) && !s.pc[id].Executing? {
      HolderSteps(s, cap, id);
    }
  }

  /** Nobody can step exactly when every goroutine is through, inside its task's function, or waiting for a slot while
      none is free. While one is not through that takes an executing function, or users of the limiter outside the queue
      that hold every slot. */
  lemma NeverStuck(s: State, cap: nat, id: Id)
    requires Inv(s, cap) && id in s.pc && !s.pc[id].Gone?
    ensures !CanStep(s, cap) <==> forall x :: x in s.pc ==> Rests(s, cap, x)
    ensures CanStep(s, cap) || (exists x :: x in s.pc && s.pc[x].Executing?) || (s.slots == 0 && s.others == cap)
  {
    forall x | x in s.pc
      ensures Rests(s, cap, x) || CanStep(s, cap)
    {
      RestsOrSteps(s, cap, x);
    }
    if s.slots > 0 {
      var x := SomeHolder(s);
      assert Rests(s, cap, x) ==> s.pc[x].Executing?;
    } else {
      assert id !in Holders(s);
    }
  }

  lemma SomeHolder(s: State) returns (x: Id)
    requires s.slots == |Holders(s)| > 0
    ensures x in s.pc && HoldsSlot(s.pc[x])
  {
    x :| x in Holders(s);
  }

  /** Steps the goroutine of a task can still make. */
  function Rank(pc: PC): nat {
    match pc
    case WaitingSlot => 6
    case HasSlot => 5
    case Executing => 4
    case Back(_) => 3
    case Recorded(_) => 2
    case Leaving(_) => 1
    case Gone(_) => 0
  }

  /** How often the goroutine of id has stepped. */
  function StepsOf(acts: seq<Step>, id: Id): nat {
    if acts == [] then 0
    else StepsOf(acts[..|acts| - 1], id) + if Moves(acts[|acts| - 1], id) && !acts[|acts| - 1].Submit? then 1 else 0
  }

  lemma StepLowersRank(s: State, a: Step, cap: nat, id: Id)
    requires Enabled(s, a, cap) && id in s.pc && id in s.core.records
    ensures id in Apply(s, a, cap).pc
    ensures Rank(Apply(s, a, cap).pc[id]) + (if Moves(a, id) then 1 else 0) <= Rank(s.pc[id])
  {
  }

  lemma NotYetSubmitted(s: State, a: Step, cap: nat, id: Id)
    requires Enabled(s, a, cap) && id !in s.pc
    ensures !(Moves(a, id) && !a.Submit?)
    ensures id in Apply(s, a, cap).pc ==> Apply(s, a, cap).pc[id].WaitingSlot?
  {
  }

  lemma StepsOfSnoc(acts: seq<Step>, k: nat, id: Id)
    requires 0 < k <= |acts|
    ensures StepsOf(acts[..k], id)
            == StepsOf(acts[..k - 1], id) + if Moves(acts[k - 1], id) && !acts[k - 1].Submit? then 1 else 0
  {
    assert acts[..k][..k - 1] == acts[..k - 1];
  }

  /** The goroutine of each task makes at most six steps, whatever the interleaving. */
  lemma {:induction false} StepsAreBounded(ss: seq<State>, acts: seq<Step>, cap: nat, k: nat, id: Id)
    requires IsRun(ss, acts, cap) && k <= |acts|
    ensures StepsOf(acts[..k], id) + (if id in ss[k].pc then Rank(ss[k].pc[id]) else 6) <= 6
    decreases k
  {
    if k > 0 {
      StepsAreBounded(ss, acts, cap, k - 1, id);
      StepsOfSnoc(acts, k, id);
      assert Enabled(ss[k - 1], acts[k - 1], cap);
      RunInv(ss, acts, cap, k - 1);
      assert TaskOk(ss[k - 1], id);
      if id in ss[k - 1].pc {
        StepLowersRank(ss[k - 1], acts[k - 1], cap, id);
      } else {
        NotYetSubmitted(ss[k - 1], acts[k - 1], cap, id);
      }
    }
  }
}
