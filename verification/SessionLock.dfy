/** The reference-counted lock per session key. Each method is one atomic step of some goroutine, so a fact every
    method keeps holds in every interleaving. */
module SessionLock {
  import opened Options

  class Lock {
    var locked: bool
    var refcount: int

    constructor ()
      ensures !locked && refcount == 0
    {
      locked, refcount := false, 0;
    }
  }

  datatype Goroutine = Goroutine(number: nat)

  /** Where a goroutine between acquire and release stands; an idle one stands nowhere. */
  datatype Place =
    | Waiting(key: string, lock: Lock)   // counted, blocked on the mutex
    | Inside(key: string, lock: Lock)    // owns the mutex
    | Leaving(key: string, lock: Lock)   // has unlocked, still counted

  datatype Event = Entered(g: Goroutine, key: string) | Left(g: Goroutine, key: string)

  datatype Step = LookUp(g: Goroutine, key: string) | Take(g: Goroutine) | Unlock(g: Goroutine) | Release(g: Goroutine)

  // ---------------------------------------------------------------- what the log of a run says

  /** Who is inside the critical section of a key after the logged events. */
  function Holder(log: seq<Event>, key: string): Option<Goroutine> {
    if log == [] then None
    else
      var e := log[|log| - 1];
      if e.key != key then Holder(log[..|log| - 1], key)
      else if e.Entered? then Some(e.g) else None
  }

  /** Critical sections of one key never overlap: each is entered when the key is free and left by who entered. */
  ghost predicate Exclusive(log: seq<Event>) {
    forall i {:trigger log[i]} :: 0 <= i < |log| ==>
      Holder(log[..i], log[i].key) == (if log[i].Entered? then None else Some(log[i].g))
  }

  lemma Grow(log: seq<Event>, e: Event)
    requires Exclusive(log)
    requires Holder(log, e.key) == (if e.Entered? then None else Some(e.g))
    ensures Exclusive(log + [e])
  {
    var log' := log + [e];
    forall i | 0 <= i < |log'|
      ensures Holder(log'[..i], log'[i].key) == (if log'[i].Entered? then None else Some(log'[i].g))
    {
      assert log'[..i] == log[..i];
      assert i == |log| ==> log[..i] == log;
    }
  }

  lemma HolderGrows(log: seq<Event>, e: Event, key: string)
    ensures Holder(log + [e], key) == if e.key != key then Holder(log, key) else if e.Entered? then Some(e.g) else None
  {
    assert (log + [e])[..|log|] == log;
  }

  /** Between two entries to the critical section of a key, whoever entered first has left. */
  lemma FirstLeavesBeforeSecondEnters(log: seq<Event>, i: nat, j: nat)
    requires Exclusive(log) && i < j < |log|
    requires log[i].Entered? && log[j].Entered? && log[i].key == log[j].key
    ensures Left(log[i].g, log[i].key) in log[i + 1..j]
  {
    LeavesWithin(log, i, j);
  }

  lemma {:induction false} LeavesWithin(log: seq<Event>, i: nat, j: nat)
    requires Exclusive(log) && i < j <= |log|
    requires log[i].Entered?
    ensures Left(log[i].g, log[i].key) in log[i + 1..j] || Holder(log[..j], log[i].key) == Some(log[i].g)
    decreases j
  {
    var key := log[i].key;
    assert log[..j] == log[..j - 1] + [log[j - 1]];
    HolderGrows(log[..j - 1], log[j - 1], key);
    if i < j - 1 {
      LeavesWithin(log, i, j - 1);
      assert log[i + 1..j] == log[i + 1..j - 1] + [log[j - 1]];
    }
  }

  // ---------------------------------------------------------------- what a schedule does

  /** A goroutine's place without the lock object. */
  datatype Station = Queued(key: string) | Holding(key: string) | Parting(key: string)

  datatype Snapshot = Snapshot(at: map<Goroutine, Station>, log: seq<Event>)

  /** The lock as it should be: a waiting goroutine can enter exactly when the log has nobody inside its key. */
  predicate Possible(v: Snapshot, a: Step) {
    match a
    case LookUp(g, _) => g !in v.at
    case Take(g) => g in v.at && v.at[g].Queued? && Holder(v.log, v.at[g].key).None?
    case Unlock(g) => g in v.at && v.at[g].Holding?
    case Release(g) => g in v.at && v.at[g].Parting?
  }

  function Next(v: Snapshot, a: Step): Snapshot {
    if !Possible(v, a) then v
    else
      match a
      case LookUp(g, key) => v.(at := v.at[g := Queued(key)])
      case Take(g) => Snapshot(v.at[g := Holding(v.at[g].key)], v.log + [Entered(g, v.at[g].key)])
      case Unlock(g) => Snapshot(v.at[g := Parting(v.at[g].key)], v.log + [Left(g, v.at[g].key)])
      case Release(g) => v.(at := v.at - {g})
  }

  function After(v: Snapshot, schedule: seq<Step>): Snapshot {
    if schedule == [] then v else Next(After(v, schedule[..|schedule| - 1]), schedule[|schedule| - 1])
  }

  function StationOf(p: Place): Station {
    match p
    case Waiting(key, _) => Queued(key)
    case Inside(key, _) => Holding(key)
    case Leaving(key, _) => Parting(key)
  }

  function Stations(at: map<Goroutine, Place>): map<Goroutine, Station> {
    map g | g in at :: StationOf(at[g])
  }

  lemma Moved(at: map<Goroutine, Place>, g: Goroutine, p: Place)
    ensures Stations(at[g := p]) == Stations(at)[g := StationOf(p)] && Stations(at - {g}) == Stations(at) - {g}
  {
  }

  // ---------------------------------------------------------------- counting the users of a lock

  function Users(at: map<Goroutine, Place>, lock: Lock): set<Goroutine> {
    set g | g in at && at[g].lock == lock
  }

  // ---------------------------------------------------------------- what every step keeps, on values

  /** The table's entry for a key is shared by every goroutine on the key, and by no other key. */
  ghost predicate Shared(table: map<string, Lock>, at: map<Goroutine, Place>) {
    && (forall g {:trigger at[g]} :: g in at ==> at[g].key in table && table[at[g].key] == at[g].lock)
    && (forall k, m {:trigger table[k], table[m]} :: k in table && m in table && table[k] == table[m] ==> k == m)
  }

  predicate IsInside(at: map<Goroutine, Place>, g: Goroutine, key: string) {
    g in at && at[g].Inside? && at[g].key == key
  }

  /** Whoever the log says is inside is inside, and nobody else. */
  ghost predicate HoldersOk(at: map<Goroutine, Place>, log: seq<Event>) {
    && Exclusive(log)
    && forall g, key {:trigger IsInside(at, g, key)} :: IsInside(at, g, key) <==> Holder(log, key) == Some(g)
  }

  lemma LookUpStep(table: map<string, Lock>, at: map<Goroutine, Place>, log: seq<Event>, g: Goroutine, key: string,
                   sl: Lock)
    requires Shared(table, at) && HoldersOk(at, log) && g !in at
    requires if key in table then sl == table[key] else sl !in table.Values
    ensures Shared(table[key := sl], at[g := Waiting(key, sl)])
    ensures HoldersOk(at[g := Waiting(key, sl)], log)
    ensures key !in table ==> Holder(log, key).None?
  {
    var at' := at[g := Waiting(key, sl)];
    forall m, k
      ensures IsInside(at', m, k) <==> Holder(log, k) == Some(m)
    {
      assert IsInside(at', m, k) <==> IsInside(at, m, k);
    }
    if key !in table {
      match Holder(log, key)
      case None =>
      case Some(m) => Anyone(table, at, log, key, m);
    }
  }

  lemma Anyone(table: map<string, Lock>, at: map<Goroutine, Place>, log: seq<Event>, key: string, g: Goroutine)
    requires Shared(table, at) && HoldersOk(at, log) && Holder(log, key) == Some(g)
    ensures key in table && g in at && at[g] == Inside(key, table[key])
  {
    assert IsInside(at, g, key);
  }

  lemma LookUpUsers(table: map<string, Lock>, at: map<Goroutine, Place>, g: Goroutine, key: string, sl: Lock)
    requires Shared(table, at) && g !in at
    requires if key in table then sl == table[key] else sl !in table.Values
    ensures forall k :: k in table && k != key ==> Users(at[g := Waiting(key, sl)], table[k]) == Users(at, table[k])
    ensures g !in Users(at, sl) && Users(at[g := Waiting(key, sl)], sl) == Users(at, sl) + {g}
    ensures key !in table ==> Users(at, sl) == {}
  {
    forall k | k in table && k != key
      ensures Users(at[g := Waiting(key, sl)], table[k]) == Users(at, table[k])
    {
      assert table[k] != sl;
    }
    if key !in table {
      NoUsers(table, at, sl);
    }
  }

  lemma NoUsers(table: map<string, Lock>, at: map<Goroutine, Place>, sl: Lock)
    requires Shared(table, at) && sl !in table.Values
    ensures Users(at, sl) == {}
  {
    forall g | g in at
      ensures at[g].lock != sl
    {
      assert table[at[g].key] == at[g].lock;
    }
  }

  lemma Member(s: set<Goroutine>) returns (g: Goroutine)
    requires |s| > 0
    ensures g in s
  {
    g :| g in s;
  }

  lemma LogStep(at: map<Goroutine, Place>, log: seq<Event>, g: Goroutine, p: Place, e: Event)
    requires HoldersOk(at, log) && g in at && e.g == g && e.key == p.key == at[g].key && p.lock == at[g].lock
    requires if e.Entered? then p.Inside? && Holder(log, e.key).None? else p.Leaving? && at[g].Inside?
    ensures HoldersOk(at[g := p], log + [e])
    ensures forall lock :: Users(at[g := p], lock) == Users(at, lock)
    ensures forall k :: k != e.key ==> Holder(log + [e], k) == Holder(log, k)
    ensures Holder(log + [e], e.key) == if e.Entered? then Some(g) else None
  {
    assert IsInside(at, g, e.key) <==> at[g].Inside?;
    Grow(log, e);
    forall k
      ensures Holder(log + [e], k) == if e.key != k then Holder(log, k) else if e.Entered? then Some(e.g) else None
    {
      HolderGrows(log, e, k);
    }
    forall m, k
      ensures IsInside(at[g := p], m, k) <==> Holder(log + [e], k) == Some(m)
    {
      assert IsInside(at, m, k) <==> Holder(log, k) == Some(m);
    }
  }

  lemma ReleaseStep(table: map<string, Lock>, at: map<Goroutine, Place>, log: seq<Event>, g: Goroutine)
    requires Shared(table, at) && HoldersOk(at, log) && g in at && at[g].Leaving?
    ensures HoldersOk(at - {g}, log) && Shared(table, at - {g})
    ensures Users(at - {g}, at[g].lock) == {} ==> Shared(table - {at[g].key}, at - {g})
    ensures forall lock :: Users(at - {g}, lock) == Users(at, lock) - {g}
    ensures forall k :: k in table && k != at[g].key ==> g !in Users(at, table[k])
  {
    forall m, k
      ensures IsInside(at - {g}, m, k) <==> Holder(log, k) == Some(m)
    {
      assert IsInside(at, m, k) <==> IsInside(at - {g}, m, k);
    }
    if Users(at - {g}, at[g].lock) == {} {
      forall m | m in at - {g}
        ensures (at - {g})[m].key in table - {at[g].key}
      {
        assert m !in Users(at - {g}, at[g].lock);
      }
    }
  }

  // ---------------------------------------------------------------- the agent

  class Agent {
    var sessionLocks: map<string, Lock>
    var at: map<Goroutine, Place>
    ghost var log: seq<Event>

    constructor ()
      ensures Valid() && sessionLocks == map[] && at == map[] && log == []
    {
      sessionLocks, at, log := map[], map[], [];
    }

    /** The reference count is the number of goroutines between acquire and release, never 0 in the table; the
        mutex is locked while somebody is inside. */
    ghost predicate LockOk(key: string)
      requires key in sessionLocks
      reads this, sessionLocks[key]
    {
      && sessionLocks[key].refcount == |Users(at, sessionLocks[key])| > 0
      && (sessionLocks[key].locked <==> Holder(log, key).Some?)
    }

    ghost predicate Valid()
      reads this, sessionLocks.Values
    {
      && Shared(sessionLocks, at) && HoldersOk(at, log)
      && forall k {:trigger LockOk(k)} :: k in sessionLocks ==> LockOk(k)
    }

    predicate Enabled(a: Step)
      reads this, set g | g in at :: at[g].lock
    {
      match a
      case LookUp(g, _) => g !in at
      case Take(g) => g in at && at[g].Waiting? && !at[g].lock.locked
      case Unlock(g) => g in at && at[g].Inside?
      case Release(g) => g in at && at[g].Leaving?
    }

    /** The key's lock, or a new one. */
    method FindLock(key: string) returns (sl: Lock)
      requires Valid()
      ensures if key in sessionLocks then sl == sessionLocks[key] && LockOk(key)
              else fresh(sl) && sl.refcount == 0 && !sl.locked
    {
      if key in sessionLocks {
        assert LockOk(key);
        sl := sessionLocks[key];
      } else {
        sl := new Lock();
      }
    }

    /** The first half of acquiring, under the table's mutex: find or make the lock and count this goroutine. */
    method LookUp(g: Goroutine, key: string)
      requires Valid() && g !in at
      modifies this`sessionLocks, this`at, if key in sessionLocks then {sessionLocks[key]} else {}
      ensures Valid() && key in sessionLocks && at == old(at)[g := Waiting(key, sessionLocks[key])]
      ensures sessionLocks == old(sessionLocks)[key := sessionLocks[key]]
      ensures if key in old(sessionLocks) then sessionLocks == old(sessionLocks) else fresh(sessionLocks[key])
      ensures sessionLocks[key].refcount
              == (if key in old(sessionLocks) then old(sessionLocks[key].refcount) else 0) + 1
    {
      var sl := FindLock(key);
      LookUpStep(sessionLocks, at, log, g, key, sl);
      sessionLocks := sessionLocks[key := sl];
      sl.refcount := sl.refcount + 1;
      at := at[g := Waiting(key, sl)];
      LookUpUsers(old(sessionLocks), old(at), g, key, sl);
      assert LockOk(key);
      StillOk(key);
    }

    /** The second half of acquiring: the session's own mutex. */
    method Take(g: Goroutine)
      requires Valid() && g in at && at[g].Waiting? && !at[g].lock.locked
      modifies this`at, this`log, at[g].lock
      ensures Valid() && at == old(at)[g := Inside(old(at[g].key), old(at[g].lock))]
      ensures log == old(log) + [Entered(g, old(at[g].key))]
    {
      var key, sl := at[g].key, at[g].lock;
      assert sessionLocks[key] == sl && LockOk(key);
      LogStep(at, log, g, Inside(key, sl), Entered(g, key));
      sl.locked := true;
      at := at[g := Inside(key, sl)];
      log := log + [Entered(g, key)];
      assert Users(at, sl) == Users(old(at), sl) && Holder(log, key).Some?;
      assert LockOk(key);
      StillOk(key);
    }

    /** The first half of releasing. */
    method Unlock(g: Goroutine)
      requires Valid() && g in at && at[g].Inside?
      modifies this`at, this`log, at[g].lock
      ensures Valid() && at == old(at)[g := Leaving(old(at[g].key), old(at[g].lock))]
      ensures log == old(log) + [Left(g, old(at[g].key))]
    {
      var key, sl := at[g].key, at[g].lock;
      assert sessionLocks[key] == sl && LockOk(key);
      LogStep(at, log, g, Leaving(key, sl), Left(g, key));
      sl.locked := false;
      at := at[g := Leaving(key, sl)];
      log := log + [Left(g, key)];
      StillOk(key);
    }

    /** A step on one key leaves the locks of the others as they were. */
    twostate lemma StillOk(key: string)
      requires forall k {:trigger old(LockOk(k))} :: k in old(sessionLocks) ==> old(LockOk(k))
      requires forall k :: k in sessionLocks && k != key ==>
        k in old(sessionLocks) && old(sessionLocks[k]) == sessionLocks[k] && unchanged(sessionLocks[k])
      requires forall k ::
                 k in sessionLocks && k != key ==> Users(at, sessionLocks[k]) == old(Users(at, sessionLocks[k]))
      requires forall k :: k in sessionLocks && k != key ==> Holder(log, k) == old(Holder(log, k))
      ensures forall k {:trigger LockOk(k)} :: k in sessionLocks && k != key ==> LockOk(k)
    {
      forall k | k in sessionLocks && k != key
        ensures LockOk(k)
      {
        assert old(LockOk(k));
      }
    }

    /** The second half of releasing, under the table's mutex: the last user takes the entry away. */
    method Release(g: Goroutine)
      requires Valid() && g in at && at[g].Leaving?
      modifies this`sessionLocks, this`at, at[g].lock
      ensures Valid() && at == old(at) - {g}
      ensures sessionLocks
              == if old(at[g].lock.refcount) == 1 then old(sessionLocks) - {old(at[g].key)} else old(sessionLocks)
    {
      var key, sl := at[g].key, at[g].lock;
      assert LockOk(key) && g in Users(at, sl);
      ReleaseStep(sessionLocks, at, log, g);
      sl.refcount := sl.refcount - 1;
      at := at - {g};
      if sl.refcount == 0 {
        assert |Users(at, sl)| == 0;
        sessionLocks := sessionLocks - {key};
      }
      StillOk(key);
    }

    lemma SomeUser(key: string)
      requires Valid()
      ensures key in sessionLocks ==> exists m :: m in at && at[m].lock == sessionLocks[key]
    {
      if key in sessionLocks {
        assert LockOk(key);
        var m := Member(Users(at, sessionLocks[key]));
      }
    }

    // -------------------------------------------------------------- what the invariant means

    lemma MutualExclusion(g: Goroutine, m: Goroutine)
      requires Valid() && g in at && m in at && at[g].Inside? && at[m].Inside? && at[g].key == at[m].key
      ensures g == m
    {
      assert IsInside(at, g, at[g].key) && IsInside(at, m, at[g].key);
    }

    lemma OneLockPerKey(g: Goroutine, m: Goroutine)
      requires Valid() && g in at && m in at
      ensures at[g].lock == at[m].lock <==> at[g].key == at[m].key
    {
    }

    /** The table has an entry for a key exactly while some goroutine is between acquire and release on it. */
    lemma EntryWhileUsed(key: string)
      requires Valid()
      ensures key in sessionLocks <==> exists g :: g in at && at[g].key == key
    {
      SomeUser(key);
    }

    lemma EmptyWhenIdle()
      requires Valid() && at == map[]
      ensures sessionLocks == map[]
    {
      if k :| k in sessionLocks {
        SomeUser(k);
      }
    }

    /** A goroutine waits only for another one on its key that can itself step, so some goroutine always can. */
    lemma WaitsForOneWhoCanStep(g: Goroutine) returns (a: Step)
      requires Valid() && g in at
      ensures Enabled(a) && !a.LookUp? && a.g in at && at[a.g].key == at[g].key
      ensures a.g != g ==> at[g].Waiting? && a.Unlock?
    {
      match at[g]
      case Inside(_, _) => a := Step.Unlock(g);
      case Leaving(_, _) => a := Step.Release(g);
      case Waiting(key, sl) =>
        assert LockOk(key);
        if sl.locked {
          var h := Holder(log, key).value;
          assert IsInside(at, h, key);
          a := Step.Unlock(h);
        } else {
          a := Step.Take(g);
        }
    }

    ghost function View(): Snapshot
      reads this
    {
      Snapshot(Stations(at), log)
    }

    lemma EnabledIffPossible(a: Step)
      requires Valid()
      ensures Enabled(a) <==> Possible(View(), a)
    {
      if a.Take? && a.g in at {
        assert sessionLocks[at[a.g].key] == at[a.g].lock && LockOk(at[a.g].key);
      }
    }

    /** A step that is not enabled when its turn comes is passed over. */
    method Do(a: Step)
      requires Valid()
      modifies this, sessionLocks.Values
      ensures Valid() && View() == Next(old(View()), a)
      ensures forall l :: l in sessionLocks.Values ==> l in old(sessionLocks.Values) || fresh(l)
    {
      EnabledIffPossible(a);
      if Enabled(a) {
        match a
        case LookUp(g, key) =>
          LookUp(g, key);
          Moved(old(at), g, at[g]);
        case Take(g) =>
          Take(g);
          Moved(old(at), g, at[g]);
        case Unlock(g) =>
          Unlock(g);
          Moved(old(at), g, at[g]);
        case Release(g) =>
          Moved(at, g, at[g]);
          Release(g);
      }
    }

    /** Any schedule: the goroutines and the log end where its steps lead, and critical sections of one key never
        overlap. */
    method Run(schedule: seq<Step>)
      requires Valid()
      modifies this, sessionLocks.Values
      ensures Valid() && View() == After(old(View()), schedule) && Exclusive(log)
    {
      for i := 0 to |schedule|
        invariant Valid() && View() == After(old(View()), schedule[..i])
        invariant forall l :: l in sessionLocks.Values ==> l in old(sessionLocks.Values) || fresh(l)
      {
        assert schedule[..i + 1][..i] == schedule[..i];
        Do(schedule[i]);
      }
      assert schedule[..|schedule|] == schedule;
    }
  }
}
