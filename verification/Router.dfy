/** The model router: fallback through a list of models, retries, and cooldowns over any sequence of calls. */
module Router {
  import opened Cooldown

  const DEFAULT_MAX_RETRIES := 2

  /** A provider call's result; Transient stands for the errors worth retrying. */
  datatype Reply = Success | Transient | Permanent

  /** Everything outside the router, consulted at successive ticks: the clock, the providers, whether a backoff
      sleep or a rate-limiter wait ends before the context does, and which models have a provider. */
  datatype World = World(clock: nat -> int, reply: nat -> Reply, sleeps: nat -> bool, admits: nat -> bool,
                         known: string -> bool)

  ghost predicate ClockRuns(w: World) {
    forall i: nat, j: nat :: i <= j ==> w.clock(i) <= w.clock(j)
  }

  datatype Event =
    | Called(model: string, at: int, reply: Reply)
    | Cooled(model: string, at: int, until: int)
    | Cleared(model: string)

  // ---------------------------------------------------------------- what a history says about cooldowns

  /** Transient failures of a model since its last success. */
  function FailuresSince(h: seq<Event>, model: string): nat {
    if h == [] then 0
    else
      var e := h[|h| - 1];
      if e.model == model && e.Cooled? then FailuresSince(h[..|h| - 1], model) + 1
      else if e.model == model && e.Cleared? then 0
      else FailuresSince(h[..|h| - 1], model)
  }

  /** Every cooldown of the model in h ends before t. */
  ghost predicate OpenAt(h: seq<Event>, model: string, t: int) {
    forall i :: 0 <= i < |h| && h[i].Cooled? && h[i].model == model ==> h[i].until < t
  }

  /** A cooldown of the model, set since its last success, lasts at t. */
  ghost predicate Lasting(h: seq<Event>, model: string, t: int) {
    exists i :: 0 <= i < |h| && h[i].Cooled? && h[i].model == model && h[i].until >= t
        && forall j :: i < j < |h| ==> !(h[j].Cleared? && h[j].model == model)
  }

  lemma LastingGrows(h: seq<Event>, e: Event, model: string, t: int)
    ensures e.Cooled? && e.model == model && e.until >= t ==> Lasting(h + [e], model, t)
    ensures !(e.Cleared? && e.model == model) && Lasting(h, model, t) ==> Lasting(h + [e], model, t)
  {
    var h' := h + [e];
    assert h'[|h|] == e;
    if !(e.Cleared? && e.model == model) && Lasting(h, model, t) {
      var i :| 0 <= i < |h| && h[i].Cooled? && h[i].model == model && h[i].until >= t
        && forall j :: i < j < |h| ==> !(h[j].Cleared? && h[j].model == model);
      assert h'[i] == h[i];
    }
  }

  /** No model is called while one of its cooldowns lasts. */
  ghost predicate Quiet(h: seq<Event>) {
    forall i, j :: 0 <= i < j < |h| && h[i].Cooled? && h[j].Called? && h[i].model == h[j].model ==> h[j].at > h[i].until
  }

  /** Each cooldown lasts as long as the number of failures in a row demands. */
  ghost predicate CooledRight(h: seq<Event>, s: Settings) {
    forall i: nat {:trigger RightAt(h, s, i)} :: i < |h| ==> RightAt(h, s, i)
  }

  ghost predicate TracksModel(h: seq<Event>, state: map<string, Entry>, now: int, model: string) {
    if model in state then
      && state[model].failures == FailuresSince(h, model) > 0
      && OpenAt(h, model, state[model].until + 1) && Lasting(h, model, state[model].until)
    else
      FailuresSince(h, model) == 0 && OpenAt(h, model, now)
  }

  ghost predicate Good(h: seq<Event>, state: map<string, Entry>, now: int, s: Settings) {
    && Proper(s) && Quiet(h) && CooledRight(h, s)
    && forall model {:trigger TracksModel(h, state, now, model)} :: TracksModel(h, state, now, model)
  }

  lemma Later(h: seq<Event>, state: map<string, Entry>, now: int, t: int, s: Settings)
    requires Good(h, state, now, s) && now <= t
    ensures Good(h, state, t, s)
  {
    forall model
      ensures TracksModel(h, state, t, model)
    {
      assert TracksModel(h, state, now, model);
    }
  }

  /** The tracker refuses a model exactly while a cooldown of it lasts. */
  lemma AvailableIff(h: seq<Event>, state: map<string, Entry>, now: int, s: Settings, model: string)
    requires Good(h, state, now, s)
    ensures Lasting(h, model, now) <==> !(model !in state || now > state[model].until)
  {
    assert TracksModel(h, state, now, model);
  }

  lemma AvailableIsOpen(h: seq<Event>, state: map<string, Entry>, now: int, s: Settings, model: string)
    requires Good(h, state, now, s) && Available(state, model, now)
    ensures OpenAt(h, model, now)
  {
    assert TracksModel(h, state, now, model);
  }

  /** The i-th event, when it is a cooldown, lasts as long as it must. */
  ghost predicate RightAt(h: seq<Event>, s: Settings, i: nat)
    requires i < |h|
  {
    h[i].Cooled? ==>
      FailuresSince(h[..i + 1], h[i].model) > 0
          && h[i].until == h[i].at + Delay(s, FailuresSince(h[..i + 1], h[i].model))
  }

  lemma RightStays(h: seq<Event>, e: Event, s: Settings, i: nat)
    requires i < |h| && RightAt(h, s, i)
    ensures RightAt(h + [e], s, i)
  {
    assert (h + [e])[..i + 1] == h[..i + 1] && (h + [e])[i] == h[i];
  }

  lemma RightAtLast(h: seq<Event>, e: Event, s: Settings)
    requires e.Cooled? ==> e.until == e.at + Delay(s, FailuresSince(h, e.model) + 1)
    ensures RightAt(h + [e], s, |h|)
  {
    assert (h + [e])[..|h| + 1] == h + [e] && (h + [e])[|h|] == e;
    FailuresSnoc(h, e, e.model);
  }

  lemma GrowQuiet(h: seq<Event>, e: Event)
    requires Quiet(h) && (e.Called? ==> OpenAt(h, e.model, e.at))
    ensures Quiet(h + [e])
  {
  }

  lemma GrowKeeps(h: seq<Event>, e: Event, s: Settings)
    requires Quiet(h) && CooledRight(h, s)
    requires e.Called? ==> OpenAt(h, e.model, e.at)
    requires e.Cooled? ==> Proper(s) && e.until == e.at + Delay(s, FailuresSince(h, e.model) + 1)
    ensures Quiet(h + [e]) && CooledRight(h + [e], s)
  {
    GrowQuiet(h, e);
    RightAtLast(h, e, s);
    forall i: nat | i < |h|
      ensures RightAt(h + [e], s, i)
    {
      assert RightAt(h, s, i);
      RightStays(h, e, s, i);
    }
  }

  lemma FailuresSnoc(h: seq<Event>, e: Event, model: string)
    ensures FailuresSince(h + [e], model) ==
            if e.model == model && e.Cooled? then FailuresSince(h, model) + 1
            else if e.model == model && e.Cleared? then 0 else FailuresSince(h, model)
  {
    assert (h + [e])[..|h|] == h;
  }

  lemma CallStep(h: seq<Event>, state: map<string, Entry>, now: int, s: Settings, model: string, r: Reply)
    requires Good(h, state, now, s) && OpenAt(h, model, now)
    ensures Good(h + [Called(model, now, r)], state, now, s) && OpenAt(h + [Called(model, now, r)], model, now)
  {
    var e := Called(model, now, r);
    GrowKeeps(h, e, s);
    forall m
      ensures TracksModel(h + [e], state, now, m)
    {
      assert TracksModel(h, state, now, m);
      FailuresSnoc(h, e, m);
      LastingStep(h, e, state, m, now);
    }
  }

  lemma ClearStep(h: seq<Event>, state: map<string, Entry>, now: int, s: Settings, model: string)
    requires Good(h, state, now, s) && OpenAt(h, model, now)
    ensures Good(h + [Cleared(model)], state - {model}, now, s)
  {
    var e := Cleared(model);
    GrowKeeps(h, e, s);
    forall m
      ensures TracksModel(h + [e], state - {model}, now, m)
    {
      assert TracksModel(h, state, now, m);
      FailuresSnoc(h, e, m);
      LastingStep(h, e, state, m, now);
    }
  }

  lemma CoolStep(h: seq<Event>, state: map<string, Entry>, now: int, s: Settings, model: string)
    requires Good(h, state, now, s) && OpenAt(h, model, now)
    ensures var state' := AfterFailure(s, state, model, now);
            Good(h + [Cooled(model, now, state'[model].until)], state', now, s)
  {
    var state' := AfterFailure(s, state, model, now);
    var e := Cooled(model, now, state'[model].until);
    assert TracksModel(h, state, now, model);
    GrownNonnegative(s, s.base, FailuresSince(h, model));
    GrowKeeps(h, e, s);
    forall m
      ensures TracksModel(h + [e], state', now, m)
    {
      assert TracksModel(h, state, now, m);
      FailuresSnoc(h, e, m);
      LastingStep(h, e, state, m, now);
    }
  }

  lemma LastingStep(h: seq<Event>, e: Event, state: map<string, Entry>, model: string, now: int)
    requires TracksModel(h, state, now, model)
    ensures e.Cooled? && e.model == model ==> Lasting(h + [e], model, e.until)
    ensures !(e.Cleared? && e.model == model) && model in state ==> Lasting(h + [e], model, state[model].until)
  {
    LastingGrows(h, e, model, if e.Cooled? then e.until else 0);
    if model in state {
      LastingGrows(h, e, model, state[model].until);
    }
  }

  ghost predicate NoCooldowns(h: seq<Event>) {
    forall i :: 0 <= i < |h| ==> !h[i].Cooled?
  }

  // ---------------------------------------------------------------- what one Chat call does

  /** The calls to one model: transient failures, and a last call that is anything. */
  ghost predicate CallRun(g: seq<Event>, model: string) {
    && (forall i :: 0 <= i < |g| ==> g[i].Called? && g[i].model == model)
    && (forall i :: 0 <= i < |g| - 1 ==> g[i].reply.Transient?)
  }

  /** What the router may do with one model: skip it, or call it up to limit times and note the result. */
  ghost predicate ModelRun(g: seq<Event>, model: string, limit: nat, cooling: bool) {
    if g == [] then true
    else
      var last := g[|g| - 1];
      if last.Called? then
        CallRun(g, model) && |g| <= limit && (cooling ==> last.reply.Permanent?)
      else
        var calls := g[..|g| - 1];
        && cooling && last.model == model && calls != [] && CallRun(calls, model) && |calls| <= limit
        && (last.Cleared? <==> calls[|calls| - 1].reply.Success?)
        && (last.Cooled? <==> calls[|calls| - 1].reply.Transient?)
  }

  ghost predicate Succeeds(g: seq<Event>) {
    exists i :: 0 <= i < |g| && g[i].Called? && g[i].reply.Success?
  }

  ghost function Flatten(gs: seq<seq<Event>>): seq<Event> {
    if gs == [] then [] else Flatten(gs[..|gs| - 1]) + gs[|gs| - 1]
  }

  lemma FlattenSnoc(gs: seq<seq<Event>>, g: seq<Event>)
    ensures Flatten(gs + [g]) == Flatten(gs) + g
  {
    assert (gs + [g])[..|gs|] == gs;
  }

  ghost function CallCount(g: seq<Event>): nat {
    if g == [] then 0 else CallCount(g[..|g| - 1]) + if g[|g| - 1].Called? then 1 else 0
  }

  lemma {:induction false} CountConcat(a: seq<Event>, b: seq<Event>)
    ensures CallCount(a + b) == CallCount(a) + CallCount(b)
    decreases |b|
  {
    if b == [] {
      assert a + b == a;
    } else {
      assert (a + b)[..|a + b| - 1] == a + b[..|b| - 1];
      CountConcat(a, b[..|b| - 1]);
    }
  }

  lemma {:induction false} CountAtMostLength(g: seq<Event>)
    ensures CallCount(g) <= |g|
  {
    if g != [] {
      CountAtMostLength(g[..|g| - 1]);
    }
  }

  lemma RunCount(g: seq<Event>, model: string, limit: nat, cooling: bool)
    requires ModelRun(g, model, limit, cooling)
    ensures CallCount(g) <= limit
  {
    if g != [] {
      CountAtMostLength(g);
      CountAtMostLength(g[..|g| - 1]);
    }
  }

  lemma OneMore(n: nat, limit: nat)
    ensures (n + 1) * limit == n * limit + limit
  {
  }

  lemma {:induction false} CountBounded(gs: seq<seq<Event>>, limit: nat)
    requires forall i :: 0 <= i < |gs| ==> CallCount(gs[i]) <= limit
    ensures CallCount(Flatten(gs)) <= |gs| * limit
  {
    if gs != [] {
      var init, last := gs[..|gs| - 1], gs[|gs| - 1];
      CountBounded(init, limit);
      CountConcat(Flatten(init), last);
      OneMore(|init|, limit);
    }
  }

  /** A call to Chat makes at most limit provider calls per listed model. */
  lemma CallsAreBounded(gs: seq<seq<Event>>, models: seq<string>, limit: nat, cooling: bool)
    requires |gs| <= |models|
    requires forall i :: 0 <= i < |gs| ==> ModelRun(gs[i], models[i], limit, cooling)
    ensures CallCount(Flatten(gs)) <= |gs| * limit
  {
    forall i | 0 <= i < |gs|
      ensures CallCount(gs[i]) <= limit
    {
      RunCount(gs[i], models[i], limit, cooling);
    }
    CountBounded(gs, limit);
  }

  /** The calls to a model have come to an end: the last one succeeded, failed for good, or was the last one allowed. */
  ghost predicate Complete(g: seq<Event>, limit: nat) {
    CallCount(g) == limit || exists i :: 0 <= i < |g| && g[i].Called? && !g[i].reply.Transient?
  }

  datatype Visit = Skipped | Unanswered | Replied

  datatype Answer = Answered | AllInCooldown | AllFailed

  class Router {
    var primary: string
    var fallbacks: seq<string>
    const maxRetriesSetting: int
    const cooling: bool
    const tracker: Tracker
    const world: World
    var tick: nat
    ghost var history: seq<Event>

    constructor (primary: string, fallbacks: seq<string>, maxRetries: int, cooling: bool, tracker: Tracker,
                 world: World)
      requires ClockRuns(world) && tracker.state == map[] && Proper(tracker.settings)
      ensures Valid() && history == [] && this.tracker == tracker && this.cooling == cooling
    {
      this.primary, this.fallbacks, this.maxRetriesSetting := primary, fallbacks, maxRetries;
      this.cooling, this.tracker, this.world, this.tick, this.history := cooling, tracker, world, 0, [];
      new;
      forall model
        ensures TracksModel(history, tracker.state, world.clock(0), model)
      {
      }
    }

    ghost predicate Valid()
      reads this, tracker
    {
      && ClockRuns(world) && Good(history, tracker.state, world.clock(tick), tracker.settings)
      && (!cooling ==> NoCooldowns(history))
    }

    function ModelList(requested: string): seq<string>
      reads this
    {
      if requested != "" && requested != primary then [requested] else [primary] + fallbacks
    }

    /** Each call in g was made, and answered, when the world was consulted at some tick of the range. */
    ghost predicate Heard(g: seq<Event>, from: nat, to: nat) {
      forall i :: 0 <= i < |g| && g[i].Called? ==>
        exists k: nat :: from <= k <= to && g[i].at == world.clock(k) && g[i].reply == world.reply(k)
    }

    /** Some backoff sleep in the range was interrupted. */
    ghost predicate Interrupted(from: nat, to: nat) {
      exists k: nat :: from <= k < to && !world.sleeps(k)
    }

    /** What one round with a model comes to when the log before it is h and it lasts from tick from to tick to: the
        model is skipped exactly when a cooldown of it lasts, and called exactly when it is not skipped, has a provider
        and is admitted; the calls end for a reason. */
    ghost predicate Round(h: seq<Event>, model: string, v: Visit, g: seq<Event>, from: nat, to: nat) {
      && from < to && ModelRun(g, model, MaxRetries() + 1, cooling) && Heard(g, from, to)
      && (v == Skipped <==> cooling && Lasting(h, model, world.clock(from + 1)))
      && (g != [] <==> v != Skipped && world.known(model) && world.admits(from + 1))
      && (v == Replied <==> Succeeds(g))
      && (g != [] ==> Complete(g, MaxRetries() + 1) || Interrupted(from, to))
    }

    function MaxRetries(): nat {
      if maxRetriesSetting > 0 then maxRetriesSetting else DEFAULT_MAX_RETRIES
    }

    method SetModels(primary: string, fallbacks: seq<string>)
      requires Valid()
      modifies this`primary, this`fallbacks
      ensures Valid() && this.primary == primary && this.fallbacks == fallbacks
    {
      this.primary, this.fallbacks := primary, fallbacks;
    }

    /** Time passes: the next consultation of the world. */
    method Advance()
      requires Valid()
      modifies this`tick
      ensures Valid() && tick == old(tick) + 1
    {
      Later(history, tracker.state, world.clock(tick), world.clock(tick + 1), tracker.settings);
      tick := tick + 1;
    }

    /** One request to the provider of a model. */
    method Request(model: string) returns (reply: Reply, ghost e: Event)
      requires Valid() && OpenAt(history, model, world.clock(tick))
      modifies this`history
      ensures Valid() && OpenAt(history, model, world.clock(tick)) && reply == world.reply(tick)
      ensures e == Called(model, world.clock(tick), reply) && history == old(history) + [e]
    {
      reply := world.reply(tick);
      e := Called(model, world.clock(tick), reply);
      CallStep(history, tracker.state, world.clock(tick), tracker.settings, model, reply);
      history := history + [e];
    }

    lemma LaterOpen(model: string, j: nat, k: nat)
      requires ClockRuns(world) && OpenAt(history, model, world.clock(j)) && j <= k
      ensures OpenAt(history, model, world.clock(k))
    {
    }

    lemma HeardMore(g: seq<Event>, e: Event, from: nat, to: nat, k: nat)
      requires Heard(g, from, to) && from <= to <= k
      requires e.Called? ==> e.at == world.clock(k) && e.reply == world.reply(k)
      ensures Heard(g, from, k) && Heard(g + [e], from, k)
    {
      forall i | 0 <= i < |g| && g[i].Called?
        ensures exists n: nat :: from <= n <= k && g[i].at == world.clock(n) && g[i].reply == world.reply(n)
      {
        var n: nat :| from <= n <= to && g[i].at == world.clock(n) && g[i].reply == world.reply(n);
      }
    }

    /** The calls made to a model so far, all but the last of them transient failures. */
    ghost predicate Tried(g: seq<Event>, model: string, last: Reply, from: nat, to: nat) {
      g != [] && CallRun(g, model) && g[|g| - 1].reply == last && Heard(g, from, to)
    }

    lemma TriedOnce(model: string, from: nat)
      ensures Tried([Called(model, world.clock(from), world.reply(from))], model, world.reply(from), from, from)
    {
    }

    lemma TriedAgain(g: seq<Event>, model: string, from: nat, to: nat, k: nat)
      requires Tried(g, model, Transient, from, to) && from <= to <= k
      ensures Tried(g, model, Transient, from, k)
      ensures Tried(g + [Called(model, world.clock(k), world.reply(k))], model, world.reply(k), from, k)
    {
      HeardMore(g, Called(model, world.clock(k), world.reply(k)), from, to, k);
    }

    /** The pause before a retry: false when the context ends first. */
    method Pause(model: string) returns (slept: bool)
      requires Valid() && OpenAt(history, model, world.clock(tick))
      modifies this`tick
      ensures Valid() && OpenAt(history, model, world.clock(tick)) && tick == old(tick) + 1
      ensures slept == world.sleeps(old(tick))
    {
      slept := world.sleeps(tick);
      LaterOpen(model, tick, tick + 1);
      Advance();
    }

    /** The retry loop for a model that is available now. */
    method RequestWithRetries(model: string) returns (last: Reply, ghost g: seq<Event>)
      requires Valid() && OpenAt(history, model, world.clock(tick))
      modifies this`tick, this`history
      ensures Valid() && OpenAt(history, model, world.clock(tick)) && tick >= old(tick)
      ensures history == old(history) + g && Tried(g, model, last, old(tick), tick)
      ensures |g| <= MaxRetries() + 1
      ensures last.Transient? ==> |g| == MaxRetries() + 1 || Interrupted(old(tick), tick)
    {
      var maxRetry := MaxRetries();
      ghost var e;
      TriedOnce(model, tick);
      last, e := Request(model);
      g := [e];
      var retry := 1;
      while retry <= maxRetry && last.Transient?
        invariant Valid() && OpenAt(history, model, world.clock(tick)) && tick >= old(tick)
        invariant history == old(history) + g && Tried(g, model, last, old(tick), tick)
        invariant |g| == retry <= maxRetry + 1
      {
        TriedAgain(g, model, old(tick), tick, tick + 1);
        var slept := Pause(model);
        if !slept {
          assert old(tick) <= tick - 1 < tick && !world.sleeps(tick - 1);
          return;
        }
        last, e := Request(model);
        Regroup(old(history), g, e);
        g := g + [e];
        retry := retry + 1;
      }
    }

    /** A model that is available now: its calls, and the note about their result. */
    method TryModel(model: string) returns (ok: bool, ghost g: seq<Event>)
      requires Valid() && OpenAt(history, model, world.clock(tick))
      modifies this`tick, this`history, tracker
      ensures Valid() && history == old(history) + g && g != [] && tick >= old(tick)
      ensures ModelRun(g, model, MaxRetries() + 1, cooling) && Heard(g, old(tick), tick)
      ensures ok <==> Succeeds(g)
      ensures Complete(g, MaxRetries() + 1) || Interrupted(old(tick), tick)
    {
      var last;
      last, g := RequestWithRetries(model);
      ghost var calls := g;
      ok := last.Success?;
      SucceedsLast(calls, model);
      CallsComplete(calls, model, MaxRetries() + 1);
      if ok {
        if cooling {
          ClearStep(history, tracker.state, world.clock(tick), tracker.settings, model);
          tracker.RecordSuccess(model);
          history, g := history + [Cleared(model)], g + [Cleared(model)];
          Note(old(history), calls, Cleared(model), MaxRetries() + 1);
          HeardMore(calls, Cleared(model), old(tick), tick, tick);
        }
      } else if cooling && last.Transient? {
        CoolStep(history, tracker.state, world.clock(tick), tracker.settings, model);
        tracker.RecordFailure(model, world.clock(tick));
        ghost var e := Cooled(model, world.clock(tick), tracker.state[model].until);
        history, g := history + [e], g + [e];
        Note(old(history), calls, e, MaxRetries() + 1);
        HeardMore(calls, e, old(tick), tick, tick);
      }
    }

    /** One round of the loop over the models: the cooldown check, the provider lookup, the rate limiter, the
        calls. */
    method Visit(model: string) returns (v: Visit, ghost g: seq<Event>)
      requires Valid()
      modifies this`tick, this`history, tracker
      ensures Valid() && history == old(history) + g
      ensures Round(old(history), model, v, g, old(tick), tick)
    {
      Advance();
      g := [];
      AvailableIff(history, tracker.state, world.clock(tick), tracker.settings, model);
      if cooling {
        var available := tracker.IsAvailable(model, world.clock(tick));
        if !available {
          return Skipped, [];
        }
      } else {
        NothingLasts(history, model, world.clock(tick));
      }
      AvailableIsOpen(history, tracker.state, world.clock(tick), tracker.settings, model);
      if !world.known(model) {
        return Unanswered, [];
      }
      var admitted := world.admits(tick);
      LaterOpen(model, tick, tick + 1);
      Advance();
      if !admitted {
        return Unanswered, [];
      }
      ghost var start := tick;
      var ok;
      ok, g := TryModel(model);
      v := if ok then Replied else Unanswered;
      Earlier(g, old(tick), start, tick);
    }

    lemma Earlier(g: seq<Event>, from: nat, start: nat, to: nat)
      requires Heard(g, start, to) && from <= start
      ensures Heard(g, from, to) && (Interrupted(start, to) ==> Interrupted(from, to))
    {
    }

    /** The i-th round of a request; h is the log before the request, ticks says when each round began and when the last
        one ended. */
    ghost predicate RoundAt(h: seq<Event>, models: seq<string>, visits: seq<Visit>, groups: seq<seq<Event>>,
                            ticks: seq<nat>, i: nat)
      requires i < |visits| <= |models| && |groups| == |visits| && |ticks| == |visits| + 1
    {
      Round(h + Flatten(groups[..i]), models[i], visits[i], groups[i], ticks[i], ticks[i + 1])
    }

    /** A round for each of the first models of the list, one after the other. */
    ghost predicate Rounds(h: seq<Event>, models: seq<string>, visits: seq<Visit>, groups: seq<seq<Event>>,
                           ticks: seq<nat>, from: nat, to: nat) {
      && |visits| <= |models| && |groups| == |visits| && |ticks| == |visits| + 1
      && ticks[0] == from && ticks[|visits|] == to
      && forall i: nat {:trigger RoundAt(h, models, visits, groups, ticks, i)} ::
           i < |visits| ==> RoundAt(h, models, visits, groups, ticks, i)
    }

    lemma RoundAdded(h: seq<Event>, models: seq<string>, visits: seq<Visit>, groups: seq<seq<Event>>,
                     ticks: seq<nat>, from: nat, v: Visit, g: seq<Event>, to: nat, t: nat)
      requires Rounds(h, models, visits, groups, ticks, from, to) && |visits| < |models|
      requires Round(h + Flatten(groups), models[|visits|], v, g, to, t)
      ensures Rounds(h, models, visits + [v], groups + [g], ticks + [t], from, t)
    {
      forall i: nat | i <= |visits|
        ensures RoundAt(h, models, visits + [v], groups + [g], ticks + [t], i)
      {
        assert (groups + [g])[..i] == groups[..i];
        assert i == |groups| ==> groups[..i] == groups;
        assert i < |visits| ==> RoundAt(h, models, visits, groups, ticks, i);
      }
    }

    /** A chat request. For each model of the list, in order, visits says how its round ended, groups what was logged,
        ticks when the round began. */
    method Chat(requested: string)
      returns (r: Answer, ghost visits: seq<Visit>, ghost groups: seq<seq<Event>>, ghost ticks: seq<nat>)
      requires Valid()
      modifies this`tick, this`history, tracker
      ensures Valid() && history == old(history) + Flatten(groups)
      ensures Quiet(history) && CooledRight(history, tracker.settings)
      ensures var models := if requested != "" && requested != primary then [requested] else [primary] + fallbacks;
              && Rounds(old(history), models, visits, groups, ticks, old(tick), tick)
              && (!r.Answered? ==> |visits| == |models|)
      ensures r.Answered? <==> Replied in visits
      ensures forall i :: 0 <= i < |visits| - 1 ==> visits[i] != Replied
      ensures MaxRetries() == if maxRetriesSetting > 0 then maxRetriesSetting else 2
      ensures r.AllInCooldown? <==> AllSkipped(visits)
    {
      var models := ModelList(requested);
      var allCooldown := true;
      visits, groups, ticks := [], [], [tick];
      for i := 0 to |models|
        invariant Valid() && history == old(history) + Flatten(groups) && |visits| == i
        invariant Rounds(old(history), models, visits, groups, ticks, old(tick), tick)
        invariant Replied !in visits && (allCooldown <==> AllSkipped(visits))
      {
        var v;
        ghost var g, before := [], tick;
        v, g := Visit(models[i]);
        RoundAdded(old(history), models, visits, groups, ticks, old(tick), v, g, before, tick);
        FlattenSnoc(groups, g);
        OneMoreVisit(visits, v);
        assert (old(history) + Flatten(groups)) + g == old(history) + (Flatten(groups) + g);
        visits, groups, ticks := visits + [v], groups + [g], ticks + [tick];
        if v == Replied {
          return Answered, visits, groups, ticks;
        }
        if v != Skipped {
          allCooldown := false;
        }
      }
      r := if allCooldown then AllInCooldown else AllFailed;
    }
  }

  ghost predicate AllSkipped(visits: seq<Visit>) {
    forall i :: 0 <= i < |visits| ==> visits[i] == Skipped
  }

  lemma OneMoreVisit(visits: seq<Visit>, v: Visit)
    ensures AllSkipped(visits + [v]) <==> AllSkipped(visits) && v == Skipped
    ensures v in visits + [v]
    ensures Replied !in visits ==> forall i :: 0 <= i < |visits| ==> (visits + [v])[i] != Replied
  {
    var visits' := visits + [v];
    assert visits'[|visits|] == v;
    assert forall i :: 0 <= i < |visits| ==> visits'[i] == visits[i];
  }

  lemma NothingLasts(h: seq<Event>, model: string, t: int)
    requires NoCooldowns(h)
    ensures !Lasting(h, model, t)
  {
  }

  lemma {:induction false} CountCalls(g: seq<Event>, model: string)
    requires CallRun(g, model)
    ensures CallCount(g) == |g|
  {
    if g != [] {
      CountCalls(g[..|g| - 1], model);
    }
  }

  lemma CallsComplete(g: seq<Event>, model: string, limit: nat)
    requires CallRun(g, model) && g != []
    ensures !g[|g| - 1].reply.Transient? || |g| == limit ==> Complete(g, limit)
  {
    CountCalls(g, model);
    assert g[|g| - 1].Called?;
  }

  lemma SucceedsLast(g: seq<Event>, model: string)
    requires CallRun(g, model) && g != []
    ensures Succeeds(g) <==> g[|g| - 1].reply.Success?
  {
    if g[|g| - 1].reply.Success? {
      assert g[|g| - 1].Called?;
    }
  }

  lemma Regroup(h: seq<Event>, g: seq<Event>, e: Event)
    ensures (h + g) + [e] == h + (g + [e])
  {
  }

  lemma Note(h: seq<Event>, g: seq<Event>, e: Event, limit: nat)
    requires !e.Called?
    ensures (h + g) + [e] == h + (g + [e]) && (g + [e])[..|g|] == g
    ensures Succeeds(g + [e]) <==> Succeeds(g)
    ensures Complete(g, limit) ==> Complete(g + [e], limit)
  {
    var g' := g + [e];
    assert g'[..|g|] == g && g'[|g|] == e;
    assert forall i :: 0 <= i < |g| ==> g'[i] == g[i];
    assert CallCount(g') == CallCount(g);
    if Succeeds(g) {
      var i :| 0 <= i < |g| && g[i].Called? && g[i].reply.Success?;
      assert g'[i] == g[i];
    }
    if i :| 0 <= i < |g| && g[i].Called? && !g[i].reply.Transient? {
      assert g'[i] == g[i];
    }
  }
}
