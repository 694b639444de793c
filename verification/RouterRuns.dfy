/** Several chat requests at once on one cooldown tracker: what the cooldowns still guarantee when requests
    interleave. */
module RouterRuns {
  import opened Options
  import opened Cooldown

  /** check is the position in the log of the availability check that let the request call the model. */
  datatype Event =
    | Checked(chat: nat, model: string, at: int)
    | Called(chat: nat, model: string, at: int, check: nat)
    | Cooled(chat: nat, model: string, at: int, until: int)
    | Cleared(model: string)

  /** A request busy with one model of its list: when it was found available, and the calls made so far. */
  datatype Visit = Visit(model: string, check: nat, calls: nat)

  datatype State = State(tracker: map<string, Entry>, now: int, visits: map<nat, Visit>, log: seq<Event>)

  datatype Step =
    | Tick(now: int)
    | Check(chat: nat, model: string)   // the model is available: the visit begins
    | Call(chat: nat)                   // the first call or a retry
    | Fail(chat: nat)                   // the visit ends with a transient failure on record
    | Succeed(chat: nat)
    | Leave(chat: nat)                  // it ends without a note

  datatype Env = Env(settings: Settings, maxRetries: nat)

  predicate Enabled(e: Env, s: State, a: Step) {
    match a
    case Tick(now) => now >= s.now
    case Check(chat, model) => chat !in s.visits && Available(s.tracker, model, s.now)
    case Call(chat) => chat in s.visits && s.visits[chat].calls <= e.maxRetries
    case Fail(chat) => chat in s.visits && s.visits[chat].calls > 0
    case Succeed(chat) => chat in s.visits && s.visits[chat].calls > 0
    case Leave(chat) => chat in s.visits
  }

  function Apply(e: Env, s: State, a: Step): State
    requires Enabled(e, s, a)
  {
    match a
    case Tick(now) => s.(now := now)
    case Check(chat, model) =>
      s.(visits := s.visits[chat := Visit(model, |s.log|, 0)], log := s.log + [Checked(chat, model, s.now)])
    case Call(chat) =>
      var v := s.visits[chat];
      s.(visits := s.visits[chat := v.(calls := v.calls + 1)], log := s.log + [Called(chat, v.model, s.now, v.check)])
    case Fail(chat) =>
      var m := s.visits[chat].model;
      var tracker := AfterFailure(e.settings, s.tracker, m, s.now);
      s.(tracker := tracker, visits := s.visits - {chat}, log := s.log + [Cooled(chat, m, s.now, tracker[m].until)])
    case Succeed(chat) =>
      var m := s.visits[chat].model;
      s.(tracker := s.tracker - {m}, visits := s.visits - {chat}, log := s.log + [Cleared(m)])
    case Leave(chat) => s.(visits := s.visits - {chat})
  }

  ghost predicate IsPath(e: Env, ss: seq<State>, acts: seq<Step>) {
    && |ss| == |acts| + 1
    && forall i :: 0 <= i < |acts| ==> Enabled(e, ss[i], acts[i]) && ss[i + 1] == Apply(e, ss[i], acts[i])
  }

  ghost predicate IsRun(e: Env, ss: seq<State>, acts: seq<Step>) {
    IsPath(e, ss, acts) && ss[0].tracker == map[] && ss[0].visits == map[] && ss[0].log == []
  }

  // ---------------------------------------------------------------- what the log says

  /** The position of the last note about a model: a failure that set a cooldown, or a success that lifted it. */
  function LastNote(log: seq<Event>, model: string): Option<nat> {
    if log == [] then None
    else
      var e := log[|log| - 1];
      if e.model == model && (e.Cooled? || e.Cleared?) then Some(|log| - 1) else LastNote(log[..|log| - 1], model)
  }

  lemma {:induction false} LastNoteIsNote(log: seq<Event>, model: string)
    ensures LastNote(log, model).Some? ==>
              LastNote(log, model).value < |log| && log[LastNote(log, model).value].model == model
    ensures LastNote(log, model).Some? ==>
              log[LastNote(log, model).value].Cooled? || log[LastNote(log, model).value].Cleared?
  {
    if log != [] {
      LastNoteIsNote(log[..|log| - 1], model);
    }
  }

  /** Failures on record since the last success. */
  function FailuresSince(log: seq<Event>, model: string): nat {
    if log == [] then 0
    else
      var e := log[|log| - 1];
      if e.model == model && e.Cooled? then FailuresSince(log[..|log| - 1], model) + 1
      else if e.model == model && e.Cleared? then 0
      else FailuresSince(log[..|log| - 1], model)
  }

  lemma LastNoteSnoc(log: seq<Event>, e: Event, model: string)
    ensures LastNote(log + [e], model) ==
            if e.model == model && (e.Cooled? || e.Cleared?) then Some(|log|) else LastNote(log, model)
    ensures FailuresSince(log + [e], model) ==
            if e.model == model && e.Cooled? then FailuresSince(log, model) + 1
            else if e.model == model && e.Cleared? then 0 else FailuresSince(log, model)
  {
    assert (log + [e])[..|log|] == log;
  }

  /** The tracker holds, for each model, the cooldown that was set last and not lifted since. */
  ghost predicate TracksModel(s: State, model: string) {
    var last := LastNote(s.log, model);
    if model in s.tracker then
      && last.Some? && last.value < |s.log| && s.log[last.value].Cooled?
      && s.tracker[model].until == s.log[last.value].until
      && s.tracker[model].failures == FailuresSince(s.log, model)
    else
      FailuresSince(s.log, model) == 0 && (last.Some? && last.value < |s.log| ==> !s.log[last.value].Cooled?)
  }

  /** The model was free of cooldowns when the check at position c was made, no later than t. */
  ghost predicate FreeAt(log: seq<Event>, c: nat, chat: nat, model: string, t: int)
    requires c < |log|
  {
    && log[c].Checked? && log[c].chat == chat && log[c].model == model && log[c].at <= t
    && var last := LastNote(log[..c], model);
       last.Some? && last.value < c && log[last.value].Cooled? ==> log[last.value].until < log[c].at
  }

  /** From position c up to j the request set no cooldown. */
  ghost predicate SetsNone(log: seq<Event>, c: nat, j: nat, chat: nat) {
    forall i :: c <= i < j && i < |log| && log[i].Cooled? ==> log[i].chat != chat
  }

  ghost predicate EventOk(e: Env, log: seq<Event>, i: nat)
    requires i < |log|
  {
    match log[i]
    case Called(chat, model, at, check) =>
      check < i && FreeAt(log, check, chat, model, at) && SetsNone(log, check, i, chat)
    case Cooled(_, model, at, until) => until == at + Delay(e.settings, FailuresSince(log[..i], model) + 1)
    case _ => true
  }

  ghost predicate VisitOk(e: Env, s: State, chat: nat) {
    chat in s.visits ==>
      s.visits[chat].check < |s.log| && s.visits[chat].calls <= e.maxRetries + 1
      && FreeAt(s.log, s.visits[chat].check, chat, s.visits[chat].model, s.now)
      && SetsNone(s.log, s.visits[chat].check, |s.log|, chat)
  }

  ghost predicate Inv(e: Env, s: State) {
    && (forall model {:trigger TracksModel(s, model)} :: TracksModel(s, model))
    && (forall i: nat {:trigger EventOk(e, s.log, i)} :: i < |s.log| ==> EventOk(e, s.log, i))
    && (forall chat: nat {:trigger VisitOk(e, s, chat)} :: VisitOk(e, s, chat))
  }

  // ---------------------------------------------------------------- every step keeps the laws

  lemma FreeStays(log: seq<Event>, more: Event, c: nat, chat: nat, model: string, t: int, t': int)
    requires c < |log| && FreeAt(log, c, chat, model, t) && t <= t'
    ensures FreeAt(log + [more], c, chat, model, t')
  {
    assert (log + [more])[..c] == log[..c];
  }

  lemma EventStays(e: Env, log: seq<Event>, more: Event, i: nat)
    requires i < |log| && EventOk(e, log, i)
    ensures EventOk(e, log + [more], i)
  {
    assert (log + [more])[..i] == log[..i] && (log + [more])[i] == log[i];
    match log[i]
    case Called(chat, model, at, check) => FreeStays(log, more, check, chat, model, at, at);
    case _ =>
  }

  lemma TrackerStep(e: Env, s: State, a: Step, model: string)
    requires Enabled(e, s, a) && TracksModel(s, model)
    ensures TracksModel(Apply(e, s, a), model)
  {
    LastNoteIsNote(s.log, model);
    var s' := Apply(e, s, a);
    if |s'.log| > |s.log| {
      LastNoteSnoc(s.log, s'.log[|s.log|], model);
      assert s'.log == s.log + [s'.log[|s.log|]];
    }
  }

  lemma NewEventStep(e: Env, s: State, a: Step)
    requires Enabled(e, s, a) && Inv(e, s)
    ensures var log' := Apply(e, s, a).log; |log'| > |s.log| ==> log'[..|s.log|] == s.log && EventOk(e, log', |s.log|)
  {
    var s' := Apply(e, s, a);
    if |s'.log| > |s.log| {
      assert s'.log[..|s.log|] == s.log;
      match a
      case Call(chat) =>
        assert VisitOk(e, s, chat);
        FreeStays(s.log, s'.log[|s.log|], s.visits[chat].check, chat, s.visits[chat].model, s.now, s.now);
      case Fail(chat) =>
        assert TracksModel(s, s.visits[chat].model);
      case _ =>
    }
  }

  lemma OldEventStep(e: Env, s: State, a: Step, i: nat)
    requires Enabled(e, s, a) && i < |s.log| && EventOk(e, s.log, i)
    ensures i < |Apply(e, s, a).log| && EventOk(e, Apply(e, s, a).log, i)
  {
    var log' := Apply(e, s, a).log;
    if |log'| > |s.log| {
      assert log' == s.log + [log'[|s.log|]];
      EventStays(e, s.log, log'[|s.log|], i);
    }
  }

  lemma CheckIsFree(e: Env, s: State, chat: nat, model: string)
    requires TracksModel(s, model) && Enabled(e, s, Check(chat, model))
    ensures FreeAt(s.log + [Checked(chat, model, s.now)], |s.log|, chat, model, s.now)
  {
    assert (s.log + [Checked(chat, model, s.now)])[..|s.log|] == s.log;
    LastNoteIsNote(s.log, model);
  }

  lemma VisitStep(e: Env, s: State, a: Step, chat: nat)
    requires Enabled(e, s, a) && Inv(e, s)
    ensures VisitOk(e, Apply(e, s, a), chat)
  {
    var s' := Apply(e, s, a);
    assert VisitOk(e, s, chat);
    if a.Check? && a.chat == chat {
      assert TracksModel(s, a.model);
      CheckIsFree(e, s, chat, a.model);
    } else if chat in s'.visits {
      var v := s.visits[chat];
      if |s'.log| > |s.log| {
        assert s'.log == s.log + [s'.log[|s.log|]];
        FreeStays(s.log, s'.log[|s.log|], v.check, chat, v.model, s.now, s'.now);
      }
    }
  }

  lemma StepKeepsInv(e: Env, s: State, a: Step)
    requires Enabled(e, s, a) && Inv(e, s)
    ensures Inv(e, Apply(e, s, a))
  {
    var s' := Apply(e, s, a);
    forall model
      ensures TracksModel(s', model)
    {
      assert TracksModel(s, model);
      TrackerStep(e, s, a, model);
    }
    NewEventStep(e, s, a);
    forall i: nat | i < |s'.log|
      ensures EventOk(e, s'.log, i)
    {
      if i < |s.log| {
        assert EventOk(e, s.log, i);
        OldEventStep(e, s, a, i);
      }
    }
    forall chat: nat
      ensures VisitOk(e, s', chat)
    {
      VisitStep(e, s, a, chat);
    }
  }

  lemma {:induction false} RunInv(e: Env, ss: seq<State>, acts: seq<Step>, k: nat)
    requires IsRun(e, ss, acts) && k <= |acts|
    ensures Inv(e, ss[k])
    decreases k
  {
    if k > 0 {
      RunInv(e, ss, acts, k - 1);
      assert Enabled(e, ss[k - 1], acts[k - 1]);
      StepKeepsInv(e, ss[k - 1], acts[k - 1]);
    }
  }

  // ---------------------------------------------------------------- the interleaved law

  lemma {:induction false} LastNoteEarlier(log: seq<Event>, c: nat, j: nat, model: string)
    requires c <= j <= |log| && LastNote(log[..j], model).Some? && LastNote(log[..j], model).value < c
    ensures LastNote(log[..c], model) == LastNote(log[..j], model)
    decreases j
  {
    if c < j {
      assert log[..j][..j - 1] == log[..j - 1];
      LastNoteEarlier(log, c, j - 1, model);
    }
  }

  /** When a model is called while the cooldown in force lasts, another request set that cooldown after the calling one
      had found the model available. */
  lemma CallDuringCooldownWasCheckedBefore(e: Env, ss: seq<State>, acts: seq<Step>, k: nat, j: nat)
    requires IsRun(e, ss, acts) && k <= |acts| && j < |ss[k].log| && ss[k].log[j].Called?
    ensures var log := ss[k].log;
            var last := LastNote(log[..j], log[j].model);
            last.Some? ==>
              (last.value < j
               && (log[last.value].Cooled? && log[j].at <= log[last.value].until ==>
                     log[j].check < last.value && log[last.value].chat != log[j].chat))
  {
    var log := ss[k].log;
    var model, c := log[j].model, log[j].check;
    RunInv(e, ss, acts, k);
    assert EventOk(e, log, j);
    LastNoteIsNote(log[..j], model);
    var last := LastNote(log[..j], model);
    if last.Some? && last.value <= c {
      LastNoteIsNote(log[..c + 1], model);
      if last.value < c {
        LastNoteEarlier(log, c, j, model);
      }
    }
  }

  /** Interleaved or not, each cooldown has the length that the failures in a row demand. */
  lemma CooldownsHaveTheirLength(e: Env, ss: seq<State>, acts: seq<Step>, k: nat, j: nat)
    requires IsRun(e, ss, acts) && k <= |acts| && j < |ss[k].log| && ss[k].log[j].Cooled?
    ensures var log := ss[k].log;
            log[j].until == log[j].at + Delay(e.settings, FailuresSince(log[..j], log[j].model) + 1)
  {
    RunInv(e, ss, acts, k);
    assert EventOk(e, ss[k].log, j);
  }

  // ---------------------------------------------------------------- when a call hits a cooldown

  predicate InCooldown(s: State, model: string) {
    !Available(s.tracker, model, s.now)
  }

  /** The tracker says what the log says: a model is in cooldown when its last note is a cooldown that still lasts. */
  lemma InCooldownIff(e: Env, s: State, model: string)
    requires Inv(e, s)
    ensures InCooldown(s, model) <==>
              (LastNote(s.log, model).Some? && LastNote(s.log, model).value < |s.log|
               && s.log[LastNote(s.log, model).value].Cooled?
               && s.now <= s.log[LastNote(s.log, model).value].until)
  {
    assert TracksModel(s, model);
  }

  /** The step calls a model during its cooldown. */
  predicate Clash(e: Env, s: State, a: Step) {
    a.Call? && Enabled(e, s, a) && InCooldown(s, s.visits[a.chat].model)
  }

  /** Another open visit to the model of chat's visit. */
  predicate Shares(s: State, chat: nat, other: nat) {
    chat in s.visits && other in s.visits && chat != other && s.visits[chat].model == s.visits[other].model
  }

  /** No two visits to one model are open at once. */
  ghost predicate Alone(s: State) {
    forall a: nat, b: nat {:trigger Shares(s, a, b)} :: !Shares(s, a, b)
  }

  ghost predicate VisitFree(s: State, chat: nat) {
    chat in s.visits ==> !InCooldown(s, s.visits[chat].model)
  }

  ghost predicate AllFree(s: State) {
    forall chat: nat {:trigger VisitFree(s, chat)} :: VisitFree(s, chat)
  }

  lemma FreeStep(e: Env, s: State, a: Step, chat: nat)
    requires Enabled(e, s, a) && VisitFree(s, chat) && (a.Fail? ==> !Shares(s, chat, a.chat))
    ensures VisitFree(Apply(e, s, a), chat)
  {
  }

  lemma {:induction false} AloneKeepsFree(e: Env, ss: seq<State>, acts: seq<Step>, k: nat)
    requires IsRun(e, ss, acts) && k <= |acts| && forall i :: 0 <= i < k ==> Alone(ss[i])
    ensures AllFree(ss[k])
    decreases k
  {
    if k > 0 {
      var s, a := ss[k - 1], acts[k - 1];
      AloneKeepsFree(e, ss, acts, k - 1);
      assert Enabled(e, s, a);
      forall chat: nat
        ensures VisitFree(ss[k], chat)
      {
        assert VisitFree(s, chat);
        assert Alone(s) && (a.Fail? ==> !Shares(s, chat, a.chat));
        FreeStep(e, s, a, chat);
      }
    }
  }

  /** As long as visits to one model never overlap, no model is ever called during its cooldown. */
  lemma AloneIsSafe(e: Env, ss: seq<State>, acts: seq<Step>, k: nat)
    requires IsRun(e, ss, acts) && k < |acts| && forall i :: 0 <= i < k ==> Alone(ss[i])
    ensures !Clash(e, ss[k], acts[k])
  {
    AloneKeepsFree(e, ss, acts, k);
    if acts[k].Call? {
      assert VisitFree(ss[k], acts[k].chat);
    }
  }

  /** The requests already busy with a model, whatever they meet, can end up calling one during its cooldown. */
  ghost predicate CanClash(e: Env, s: State) {
    exists ss, acts ::
      && IsPath(e, ss, acts) && ss[0] == s && acts != [] && (forall a :: a in acts ==> !a.Check?)
      && Clash(e, ss[|acts| - 1], acts[|acts| - 1])
  }

  /** The visit has calls left, and its model is in cooldown or visited by another request as well. */
  ghost predicate AtRisk(e: Env, s: State, chat: nat) {
    && chat in s.visits && s.visits[chat].calls <= e.maxRetries
    && (InCooldown(s, s.visits[chat].model) || exists other: nat :: Shares(s, chat, other))
  }

  ghost predicate NoneAtRisk(e: Env, s: State) {
    forall chat: nat {:trigger AtRisk(e, s, chat)} :: !AtRisk(e, s, chat)
  }

  /** The other visit fails, after a first call if it has made none, and the cooldown is there. */
  lemma OtherFails(e: Env, s: State, chat: nat, other: nat) returns (ss: seq<State>, acts: seq<Step>)
    requires Inv(e, s) && Proper(e.settings) && Shares(s, chat, other) && s.visits[chat].calls <= e.maxRetries
    ensures IsPath(e, ss, acts) && ss[0] == s && acts != [] && (forall a :: a in acts ==> !a.Check?)
    ensures acts[|acts| - 1] == Call(chat) && Clash(e, ss[|acts| - 1], Call(chat))
  {
    assert VisitOk(e, s, other);
    var s1 := if s.visits[other].calls == 0 then Apply(e, s, Call(other)) else s;
    var s2 := Apply(e, s1, Fail(other));
    GrownNonnegative(e.settings, e.settings.base, s2.tracker[s.visits[chat].model].failures - 1);
    var s3 := Apply(e, s2, Call(chat));
    if s.visits[other].calls == 0 {
      ss, acts := [s, s1, s2, s3], [Call(other), Fail(other), Call(chat)];
    } else {
      ss, acts := [s, s2, s3], [Fail(other), Call(chat)];
    }
  }

  lemma RiskStep(e: Env, s: State, a: Step, chat: nat)
    requires Enabled(e, s, a) && !a.Check? && AtRisk(e, Apply(e, s, a), chat)
    ensures AtRisk(e, s, chat)
  {
    var s' := Apply(e, s, a);
    if other: nat :| Shares(s', chat, other) {
      assert Shares(s, chat, other);
    } else if a.Fail? && s.visits[a.chat].model == s.visits[chat].model {
      assert Shares(s, chat, a.chat);
    }
  }

  lemma {:induction false} NoRiskOnPath(e: Env, ss: seq<State>, acts: seq<Step>, k: nat)
    requires IsPath(e, ss, acts) && k <= |acts| && NoneAtRisk(e, ss[0]) && forall a :: a in acts ==> !a.Check?
    ensures NoneAtRisk(e, ss[k])
    decreases k
  {
    if k > 0 {
      NoRiskOnPath(e, ss, acts, k - 1);
      assert Enabled(e, ss[k - 1], acts[k - 1]) && acts[k - 1] in acts;
      forall chat: nat
        ensures !AtRisk(e, ss[k], chat)
      {
        if AtRisk(e, ss[k], chat) {
          RiskStep(e, ss[k - 1], acts[k - 1], chat);
        }
      }
    }
  }

  lemma ClashNeedsRisk(e: Env, s: State)
    requires CanClash(e, s)
    ensures exists chat: nat :: AtRisk(e, s, chat)
  {
    var ss, acts :|
      && IsPath(e, ss, acts) && ss[0] == s && acts != [] && (forall a :: a in acts ==> !a.Check?)
      && Clash(e, ss[|acts| - 1], acts[|acts| - 1]);
    assert AtRisk(e, ss[|acts| - 1], acts[|acts| - 1].chat);
    if NoneAtRisk(e, s) {
      NoRiskOnPath(e, ss, acts, |acts| - 1);
    }
  }

  /** From any state of any run, the open visits can end up with a call during a cooldown if and only if one with calls
      left shares its model with another, or has it in cooldown by now. */
  lemma ClashIff(e: Env, s: State)
    requires Inv(e, s) && Proper(e.settings)
    ensures CanClash(e, s) <==> exists chat: nat :: AtRisk(e, s, chat)
  {
    if chat: nat :| AtRisk(e, s, chat) {
      if InCooldown(s, s.visits[chat].model) {
        var ss, acts := [s, Apply(e, s, Call(chat))], [Call(chat)];
        assert IsPath(e, ss, acts) && Clash(e, ss[0], acts[0]);
      } else {
        var other: nat :| Shares(s, chat, other);
        var ss, acts := OtherFails(e, s, chat, other);
      }
    }
    if CanClash(e, s) {
      ClashNeedsRisk(e, s);
    }
  }

  /** Two requests check, the first one fails, the second one calls: a call during a cooldown. */
  lemma OverlapCallsDuringCooldown(e: Env) returns (ss: seq<State>, acts: seq<Step>)
    requires Proper(e.settings)
    ensures IsRun(e, ss, acts) && |acts| == 5
    ensures var log := ss[5].log;
            && |log| == 5 && log[3].Cooled? && log[3].chat == 0 && log[4] == Called(1, log[3].model, 0, 1)
            && log[4].at <= log[3].until
  {
    var s0 := State(map[], 0, map[], []);
    var s1 := Apply(e, s0, Check(0, "m"));
    var s2 := Apply(e, s1, Check(1, "m"));
    var s3 := Apply(e, s2, Call(0));
    var s4 := Apply(e, s3, Fail(0));
    var s5 := Apply(e, s4, Call(1));
    GrownNonnegative(e.settings, e.settings.base, 0);
    ss, acts := [s0, s1, s2, s3, s4, s5], [Check(0, "m"), Check(1, "m"), Call(0), Fail(0), Call(1)];
  }
}
