/**
 * Concurrent schema loads collapsed into one introspection, in front of the cache.
 *
 * `SchemaService` holds the code's synchronous pieces. The transition system below
 * interleaves them freely: calls, refreshes, an introspection settling (its `then`
 * runs), its `finally` clearing the field some time later, waiters resuming, and time.
 */
module SingleFlight {
  import opened Sequences
  import opened SchemaTypes
  import opened SchemaCache

  /** What a caller of `load` holds: a cached snapshot, or the shared promise of an introspection. */
  datatype Ticket = Hit(snapshot: Snapshot) | Joined(flight: nat)

  /** The service's own fields, with the number of introspections started so far. */
  datatype Service = Service(cache: CacheState, inFlight: Option<nat>, started: nat)

  function LoadTicket(s: Service, ttlMs: nat, now: nat, refresh: bool): (r: Ticket)
  {
    var hit := if refresh then None else Cached(s.cache, ttlMs, now);
    if hit.Some? then Hit(hit.value)
    else if s.inFlight.Some? then Joined(s.inFlight.value)
    else Joined(s.started)
  }

  function AfterLoad(s: Service, ttlMs: nat, now: nat, refresh: bool): (r: Service)
  {
    var looked := if refresh then s else s.(cache := AfterGet(s.cache, ttlMs, now));
    if LoadTicket(s, ttlMs, now, refresh) == Joined(s.started) && s.inFlight.None?
    then looked.(inFlight := Some(s.started), started := s.started + 1)
    else looked
  }

  class SchemaService {
    const cache: SchemaCacheService
    var inFlight: Option<nat>
    var started: nat

    constructor (cache: SchemaCacheService)
      ensures this.cache == cache && inFlight == None && started == 0
    {
      this.cache := cache;
      inFlight, started := None, 0;
    }

    function State(): (r: Service)
      reads this, cache
    {
      Service(cache.State(), inFlight, started)
    }

    method Load(refresh: bool, now: nat) returns (ticket: Ticket)
      modifies this, cache
      ensures ticket == LoadTicket(old(State()), cache.ttlMs, now, refresh)
      ensures State() == AfterLoad(old(State()), cache.ttlMs, now, refresh)
    {
      if !refresh {
        var cached := cache.Get(now);
        if cached.Some? {
          return Hit(cached.value);
        }
      }
      if inFlight.Some? {
        return Joined(inFlight.value);
      }
      inFlight := Some(started);
      started := started + 1;
      return Joined(inFlight.value);
    }

    method Refresh(now: nat) returns (ticket: Ticket)
      modifies this, cache
      ensures ticket == LoadTicket(old(State()).(cache := EMPTY), cache.ttlMs, now, true)
      ensures State() == AfterLoad(old(State()).(cache := EMPTY), cache.ttlMs, now, true)
    {
      cache.Invalidate();
      ticket := Load(true, now);
    }

    /** The `then` callback of an introspection that succeeded. */
    method OnLoaded(snapshot: Snapshot, now: nat)
      modifies cache
      ensures State() == old(State()).(cache := AfterSet(old(cache.State()), cache.ttlMs, now, snapshot))
    {
      cache.Set(now, snapshot);
    }

    /** The `finally` callback, which clears the field whatever it holds. */
    method OnSettled()
      modifies this
      ensures State() == old(State()).(inFlight := None)
    {
      inFlight := None;
    }
  }

  // ---------------------------------------------------------------- the transition system

  datatype Outcome = Loaded(snapshot: Snapshot) | Broken(error: string)

  /** An introspection: running, settled with its `finally` still to run, or cleared. */
  datatype Flight = Running | Settled(outcome: Outcome, at: nat) | Cleared(outcome: Outcome, at: nat)

  datatype Call = Call(ticket: Ticket, askedAt: nat, answer: Option<Outcome>)

  datatype World = World(now: nat, service: Service, flights: seq<Flight>, calls: seq<Call>)

  datatype Step =
    | Ask(refresh: bool)
    | AskRefresh
    | ReadStatus
    | Succeed(flight: nat, schema: DatabaseSchema)
    | Fail(flight: nat, error: string)
    | Finally(flight: nat)
    | Resume(call: nat)
    | Tick(ms: nat)

  predicate Enabled(w: World, step: Step)
  {
    match step
    case Succeed(f, _) => f < |w.flights| && w.flights[f].Running?
    case Fail(f, _) => f < |w.flights| && w.flights[f].Running?
    case Finally(f) => f < |w.flights| && w.flights[f].Settled?
    case Resume(c) =>
      c < |w.calls| && w.calls[c].answer.None?
      && (w.calls[c].ticket.Joined? ==>
            w.calls[c].ticket.flight < |w.flights| && w.flights[w.calls[c].ticket.flight].Cleared?)
    case _ => true
  }

  function Answer(w: World, ticket: Ticket): (r: Outcome)
    requires ticket.Joined? ==> ticket.flight < |w.flights| && w.flights[ticket.flight].Cleared?
  {
    match ticket
    case Hit(snapshot) => Loaded(snapshot)
    case Joined(f) => w.flights[f].outcome
  }

  function Asked(w: World, before: Service, refresh: bool, ttlMs: nat): (r: World)
  {
    var after := AfterLoad(before, ttlMs, w.now, refresh);
    w.(service := after,
       flights := if after.started > before.started then w.flights + [Running] else w.flights,
       calls := w.calls + [Call(LoadTicket(before, ttlMs, w.now, refresh), w.now, None)])
  }

  function Next(w: World, step: Step, ttlMs: nat): (r: World)
    requires Enabled(w, step)
  {
    match step
    case Ask(refresh) => Asked(w, w.service, refresh, ttlMs)
    case AskRefresh => Asked(w, w.service.(cache := EMPTY), true, ttlMs)
    case ReadStatus => w.(service := w.service.(cache := AfterGet(w.service.cache, ttlMs, w.now)))
    case Succeed(f, schema) =>
      var snapshot := Snapshot(f, schema);
      w.(service := w.service.(cache := AfterSet(w.service.cache, ttlMs, w.now, snapshot)),
         flights := w.flights[f := Settled(Loaded(snapshot), w.now)])
    case Fail(f, error) => w.(flights := w.flights[f := Settled(Broken(error), w.now)])
    case Finally(f) =>
      w.(service := w.service.(inFlight := None), flights := w.flights[f := Cleared(w.flights[f].outcome, w.flights[f].at)])
    case Resume(c) => w.(calls := w.calls[c := w.calls[c].(answer := Some(Answer(w, w.calls[c].ticket)))])
    case Tick(ms) => w.(now := w.now + ms)
  }

  const START := World(0, Service(EMPTY, None, 0), [], [])

  ghost predicate Run(trace: seq<World>, steps: seq<Step>, ttlMs: nat)
  {
    && |trace| == |steps| + 1 && trace[0] == START
    && forall i :: 0 <= i < |steps| ==> Enabled(trace[i], steps[i]) && trace[i + 1] == Next(trace[i], steps[i], ttlMs)
  }

  // ---------------------------------------------------------------- what every step keeps

  predicate HasLoaded(f: Flight)
  {
    !f.Running? && f.outcome.Loaded?
  }

  /** The field holds exactly the one introspection that is not cleared yet, which is the latest. */
  ghost predicate OneFlight(w: World)
  {
    && w.service.started == |w.flights|
    && (w.service.inFlight.Some? ==> w.service.inFlight.value + 1 == |w.flights| && !w.flights[w.service.inFlight.value].Cleared?)
    && (forall f :: 0 <= f < |w.flights| && !w.flights[f].Cleared? ==> w.service.inFlight == Some(f))
  }

  ghost predicate FlightsHonest(w: World)
  {
    forall f :: 0 <= f < |w.flights| && HasLoaded(w.flights[f]) ==> w.flights[f].outcome.snapshot.introspection == f
  }

  /** What is cached is the latest success, and expires one TTL after it settled. */
  ghost predicate CacheHonest(w: World, ttlMs: nat)
  {
    w.service.cache.snapshot.Some? ==>
      var k := w.service.cache.snapshot.value.introspection;
      && k < |w.flights| && !w.flights[k].Running? && w.flights[k].outcome == Loaded(w.service.cache.snapshot.value)
      && w.service.cache.expiresAt == w.flights[k].at + ttlMs
      && (forall f :: k < f < |w.flights| ==> !HasLoaded(w.flights[f]))
  }

  /** A call holds a snapshot some introspection read within the TTL, or waits for an existing one. */
  ghost predicate CallHonest(w: World, c: Call, ttlMs: nat)
  {
    && (match c.ticket
        case Hit(s) =>
          && s.introspection < |w.flights| && !w.flights[s.introspection].Running?
          && w.flights[s.introspection].outcome == Loaded(s)
          && c.askedAt < w.flights[s.introspection].at + ttlMs
        case Joined(f) => f < |w.flights|)
    && (c.answer.Some? ==>
          && (c.ticket.Joined? ==> w.flights[c.ticket.flight].Cleared?)
          && c.answer.value == Answer(w, c.ticket))
  }

  ghost predicate Inv(w: World, ttlMs: nat)
  {
    && OneFlight(w) && FlightsHonest(w) && CacheHonest(w, ttlMs)
    && forall c :: 0 <= c < |w.calls| ==> CallHonest(w, w.calls[c], ttlMs)
  }

  ghost predicate DisabledIsEmpty(w: World, ttlMs: nat)
  {
    ttlMs == 0 ==> w.service.cache.snapshot.None?
  }

  lemma StepKeeps(w: World, step: Step, ttlMs: nat)
    requires Inv(w, ttlMs) && DisabledIsEmpty(w, ttlMs) && Enabled(w, step)
    ensures Inv(Next(w, step, ttlMs), ttlMs) && DisabledIsEmpty(Next(w, step, ttlMs), ttlMs)
  {
    var next := Next(w, step, ttlMs);
    match step {
      case Ask(refresh) => AskKeeps(w, w.service, refresh, ttlMs);
      case AskRefresh => AskKeeps(w, w.service.(cache := EMPTY), true, ttlMs);
      case Succeed(f, schema) => SettleKeeps(w, f, Loaded(Snapshot(f, schema)), next.service.cache, ttlMs);
      case Fail(f, error) => SettleKeeps(w, f, Broken(error), next.service.cache, ttlMs);
      case _ =>
        forall c | 0 <= c < |w.calls| ensures CallHonest(next, next.calls[c], ttlMs) {
          assert CallHonest(w, w.calls[c], ttlMs);
        }
    }
  }

  // ---------------------------------------------------------------- the promises, over every run

  /** Never two introspections at once, and each `finally` clears its own promise, nobody else's. */
  lemma NeverTwoAtOnce(trace: seq<World>, steps: seq<Step>, ttlMs: nat, i: nat)
    requires Run(trace, steps, ttlMs) && i < |trace|
    ensures forall f, g | 0 <= f < |trace[i].flights| && 0 <= g < |trace[i].flights| ::
              trace[i].flights[f].Running? && trace[i].flights[g].Running? ==> f == g
    ensures i < |steps| && steps[i].Finally? ==> trace[i].service.inFlight == Some(steps[i].flight)
  {
    RunKeeps(trace, steps, ttlMs, i);
  }

  /** Everyone who joined an introspection is answered with its outcome, and only once it has cleared. */
  lemma JoinersShareTheOutcome(trace: seq<World>, steps: seq<Step>, ttlMs: nat, i: nat, c: nat)
    requires Run(trace, steps, ttlMs) && i < |trace| && c < |trace[i].calls|
    requires trace[i].calls[c].ticket.Joined? && trace[i].calls[c].answer.Some?
    ensures var f := trace[i].calls[c].ticket.flight;
            && f < |trace[i].flights| && trace[i].flights[f].Cleared?
            && trace[i].flights[f].outcome == trace[i].calls[c].answer.value
  {
    RunKeeps(trace, steps, ttlMs, i);
    assert CallHonest(trace[i], trace[i].calls[c], ttlMs);
  }

  /** An answer out of the cache was read by an introspection that settled less than one TTL before. */
  lemma CachedAnswersAreFresh(trace: seq<World>, steps: seq<Step>, ttlMs: nat, i: nat, c: nat)
    requires Run(trace, steps, ttlMs) && i < |trace| && c < |trace[i].calls| && trace[i].calls[c].ticket.Hit?
    ensures var s := trace[i].calls[c].ticket.snapshot;
            && s.introspection < |trace[i].flights| && !trace[i].flights[s.introspection].Running?
            && trace[i].flights[s.introspection].outcome == Loaded(s)
            && trace[i].calls[c].askedAt < trace[i].flights[s.introspection].at + ttlMs
  {
    RunKeeps(trace, steps, ttlMs, i);
    assert CallHonest(trace[i], trace[i].calls[c], ttlMs);
  }

  /** Introspection `f` failed and is over: nothing holds it, and no call numbered `n` or later ever will. */
  ghost predicate Forgotten(w: World, n: nat, f: nat)
  {
    && f < |w.flights| && w.flights[f].Cleared? && w.flights[f].outcome.Broken? && n <= |w.calls|
    && (w.service.inFlight.Some? ==> w.service.inFlight.value > f)
    && (w.service.cache.snapshot.Some? ==> w.service.cache.snapshot.value.introspection != f)
    && (forall c :: n <= c < |w.calls| ==> NotFrom(w.calls[c].ticket, f))
  }

  predicate NotFrom(ticket: Ticket, f: nat)
  {
    match ticket
    case Hit(s) => s.introspection != f
    case Joined(g) => g > f
  }

  /**
   * A failure leaves nothing behind: once its `finally` has run, at no later time is the
   * failed introspection in flight or in the cache, and no later call waits for it.
   */
  lemma {:induction false} FailureLeavesNoTrace(trace: seq<World>, steps: seq<Step>, ttlMs: nat, i: nat, j: nat, f: nat)
    requires Run(trace, steps, ttlMs) && i < j < |trace| && steps[i] == Finally(f) && trace[i].flights[f].outcome.Broken?
    ensures Forgotten(trace[j], |trace[i + 1].calls|, f)
    decreases j
  {
    if j == i + 1 {
      FailureClears(trace, steps, ttlMs, i, f);
    } else {
      FailureLeavesNoTrace(trace, steps, ttlMs, i, j - 1, f);
      RunStepForgets(trace, steps, ttlMs, j - 1, |trace[i + 1].calls|, f);
    }
  }

  predicate Calls(step: Step)
  {
    step.Ask? || step.AskRefresh?
  }

  /** A call the cache does not answer. */
  predicate Uncached(w: World, step: Step, ttlMs: nat)
  {
    step.AskRefresh? || (step.Ask? && (step.refresh || Cached(w.service.cache, ttlMs, w.now).None?))
  }

  /**
   * The first call after a failure has cleared, if the cache does not answer it, starts an
   * introspection of its own, later than the one that failed.
   */
  lemma NextCallStartsAfresh(trace: seq<World>, steps: seq<Step>, ttlMs: nat, i: nat, j: nat, f: nat)
    requires Run(trace, steps, ttlMs) && i < j < |steps| && steps[i] == Finally(f) && trace[i].flights[f].outcome.Broken?
    requires (forall k :: i < k < j ==> !Calls(steps[k])) && Uncached(trace[j], steps[j], ttlMs)
    ensures var own := |trace[j].flights|;
            && own > f && trace[j + 1].flights == trace[j].flights + [Running]
            && trace[j + 1].calls == trace[j].calls + [Call(Joined(own), trace[j].now, None)]
  {
    FailureClears(trace, steps, ttlMs, i, f);
    NothingTakesOff(trace, steps, ttlMs, i + 1, j);
    FailureLeavesNoTrace(trace, steps, ttlMs, i, j, f);
    RunKeeps(trace, steps, ttlMs, j);
  }

  // ---------------------------------------------------------------- what the cache is for

  /** The cache holds this snapshot, loaded at that time and not yet due. */
  predicate Holding(w: World, snapshot: Snapshot, loadedAt: nat, ttlMs: nat)
  {
    w.service.cache == CacheState(Some(snapshot), loadedAt + ttlMs)
  }

  /** A step that neither empties the cache on purpose nor loads it again. */
  predicate LeavesTheCache(step: Step)
  {
    !step.AskRefresh? && !step.Succeed?
  }

  /**
   * Less than one TTL after the latest success, and with no refresh since, a plain call is
   * answered with exactly the snapshot that was loaded, and nothing is introspected for it.
   */
  lemma SuccessIsServedUntilItExpires(trace: seq<World>, steps: seq<Step>, ttlMs: nat, i: nat, j: nat)
    requires Run(trace, steps, ttlMs) && i < j < |steps| && steps[i].Succeed? && steps[j] == Ask(false)
    requires trace[j].now < trace[i].now + ttlMs && forall k :: i < k < j ==> LeavesTheCache(steps[k])
    ensures trace[j + 1].calls == trace[j].calls + [Call(Hit(Snapshot(steps[i].flight, steps[i].schema)), trace[j].now, None)]
    ensures trace[j + 1].flights == trace[j].flights
  {
    TimeGoesOn(trace, steps, ttlMs, i, j);
    StaysCached(trace, steps, ttlMs, i + 1, j, Snapshot(steps[i].flight, steps[i].schema), trace[i].now);
  }

  /** One TTL after it was loaded, a snapshot is dropped by whoever looks at it next. */
  lemma ExpiredIsDropped(trace: seq<World>, steps: seq<Step>, ttlMs: nat, j: nat, k: nat)
    requires Run(trace, steps, ttlMs) && j < |steps| && (steps[j] == Ask(false) || steps[j] == ReadStatus)
    requires trace[j].service.cache.snapshot.Some? && trace[j].service.cache.snapshot.value.introspection == k
    ensures k < |trace[j].flights| && !trace[j].flights[k].Running?
    ensures trace[j].now >= trace[j].flights[k].at + ttlMs ==> trace[j + 1].service.cache == EMPTY
  {
    RunKeeps(trace, steps, ttlMs, j);
  }

  /** Nothing in the cache, and no answer out of it to a call numbered `n` or later, was settled by then. */
  ghost predicate NothingSettledBefore(w: World, n: nat, since: World)
  {
    && n <= |w.calls| && |since.flights| <= |w.flights|
    && (w.service.cache.snapshot.Some? ==> StillToSettle(w.service.cache.snapshot.value.introspection, since))
    && (forall c :: n <= c < |w.calls| && w.calls[c].ticket.Hit? ==>
          StillToSettle(w.calls[c].ticket.snapshot.introspection, since))
    && (forall f :: 0 <= f < |w.flights| && w.flights[f].Running? ==> StillToSettle(f, since))
  }

  predicate StillToSettle(f: nat, w: World)
  {
    f < |w.flights| ==> w.flights[f].Running?
  }

  /**
   * A refresh is never answered out of the cache, and after it neither is any call out of
   * what had been read before: whatever a later hit returns was settled after the refresh.
   */
  lemma RefreshForgetsTheOld(trace: seq<World>, steps: seq<Step>, ttlMs: nat, i: nat, j: nat, c: nat)
    requires Run(trace, steps, ttlMs) && i < j < |trace| && steps[i].AskRefresh?
    requires |trace[i].calls| <= c < |trace[j].calls|
    ensures |trace[i + 1].calls| == |trace[i].calls| + 1 && trace[i + 1].calls[|trace[i].calls|].ticket.Joined?
    ensures c > |trace[i].calls| && trace[j].calls[c].ticket.Hit? ==>
              StillToSettle(trace[j].calls[c].ticket.snapshot.introspection, trace[i + 1])
  {
    RefreshedSince(trace, steps, ttlMs, i, j);
  }

  // ---------------------------------------------------------------- reads never go back

  /** Which introspection a ticket's snapshot comes from, or will come from. */
  function SourceOf(ticket: Ticket): (r: nat)
  {
    match ticket
    case Hit(s) => s.introspection
    case Joined(f) => f
  }

  /** Nothing that can still reach a call numbered `n` or later is older than introspection `k`. */
  ghost predicate NothingOlder(w: World, n: nat, k: nat)
  {
    && k < |w.flights| && n <= |w.calls|
    && (w.service.cache.snapshot.Some? ==> w.service.cache.snapshot.value.introspection >= k)
    && (w.service.inFlight.Some? ==> w.service.inFlight.value >= k)
    && (forall c :: n <= c < |w.calls| ==> SourceOf(w.calls[c].ticket) >= k)
  }

  /**
   * Monotone reads over every interleaving: if one call has been answered with a snapshot
   * before another is made, the second is answered from the same or a later introspection.
   */
  lemma ReadsNeverGoBack(trace: seq<World>, steps: seq<Step>, ttlMs: nat, i: nat, j: nat, a: nat, b: nat)
    requires Run(trace, steps, ttlMs) && i <= j < |trace|
    requires a < |trace[i].calls| && trace[i].calls[a].answer.Some? && trace[i].calls[a].answer.value.Loaded?
    requires |trace[i].calls| <= b < |trace[j].calls|
    requires trace[j].calls[b].answer.Some? && trace[j].calls[b].answer.value.Loaded?
    ensures trace[i].calls[a].answer.value.snapshot.introspection <= trace[j].calls[b].answer.value.snapshot.introspection
  {
    var w := trace[i];
    RunKeeps(trace, steps, ttlMs, i);
    assert CallHonest(w, w.calls[a], ttlMs);
    var k := w.calls[a].answer.value.snapshot.introspection;
    assert HasLoaded(w.flights[k]);
    RunKeepsNothingOlder(trace, steps, ttlMs, i, j, |w.calls|, k);
    RunKeeps(trace, steps, ttlMs, j);
    assert CallHonest(trace[j], trace[j].calls[b], ttlMs);
  }

  // ---------------------------------------------------------------- what the theorems rely on

  lemma AskKeeps(w: World, before: Service, refresh: bool, ttlMs: nat)
    requires Inv(w, ttlMs)
    requires before == w.service || before == w.service.(cache := EMPTY)
    ensures Inv(Asked(w, before, refresh, ttlMs), ttlMs)
  {
    var next := Asked(w, before, refresh, ttlMs);
    forall c | 0 <= c < |w.calls| ensures CallHonest(next, next.calls[c], ttlMs) {
      assert CallHonest(w, w.calls[c], ttlMs);
    }
  }

  lemma SettleKeeps(w: World, f: nat, outcome: Outcome, cache: CacheState, ttlMs: nat)
    requires Inv(w, ttlMs) && f < |w.flights| && w.flights[f].Running?
    requires match outcome
             case Loaded(s) => s.introspection == f && cache == AfterSet(w.service.cache, ttlMs, w.now, s)
             case Broken(_) => cache == w.service.cache
    requires ttlMs == 0 ==> w.service.cache.snapshot.None?
    ensures Inv(w.(service := w.service.(cache := cache), flights := w.flights[f := Settled(outcome, w.now)]), ttlMs)
  {
    var next := w.(service := w.service.(cache := cache), flights := w.flights[f := Settled(outcome, w.now)]);
    forall c | 0 <= c < |w.calls| ensures CallHonest(next, next.calls[c], ttlMs) {
      assert CallHonest(w, w.calls[c], ttlMs);
    }
  }

  lemma {:induction false} RunKeeps(trace: seq<World>, steps: seq<Step>, ttlMs: nat, i: nat)
    requires Run(trace, steps, ttlMs) && i < |trace|
    ensures Inv(trace[i], ttlMs) && DisabledIsEmpty(trace[i], ttlMs)
  {
    if i > 0 {
      RunKeeps(trace, steps, ttlMs, i - 1);
      StepKeeps(trace[i - 1], steps[i - 1], ttlMs);
    }
  }

  lemma StepForgets(w: World, step: Step, ttlMs: nat, n: nat, f: nat)
    requires Inv(w, ttlMs) && Enabled(w, step) && Forgotten(w, n, f)
    ensures Forgotten(Next(w, step, ttlMs), n, f)
  {
  }

  /** The `finally` of a failed introspection leaves nothing in flight, and the failure behind. */
  lemma FailureClears(trace: seq<World>, steps: seq<Step>, ttlMs: nat, i: nat, f: nat)
    requires Run(trace, steps, ttlMs) && i < |steps| && steps[i] == Finally(f) && trace[i].flights[f].outcome.Broken?
    ensures trace[i + 1].service.inFlight.None? && Forgotten(trace[i + 1], |trace[i + 1].calls|, f)
  {
    RunKeeps(trace, steps, ttlMs, i);
    RunKeeps(trace, steps, ttlMs, i + 1);
  }

  lemma RunStepForgets(trace: seq<World>, steps: seq<Step>, ttlMs: nat, j: nat, n: nat, f: nat)
    requires Run(trace, steps, ttlMs) && j < |steps| && Forgotten(trace[j], n, f)
    ensures Forgotten(trace[j + 1], n, f)
  {
    RunKeeps(trace, steps, ttlMs, j);
    StepForgets(trace[j], steps[j], ttlMs, n, f);
  }

  lemma {:induction false} NothingTakesOff(trace: seq<World>, steps: seq<Step>, ttlMs: nat, i: nat, j: nat)
    requires Run(trace, steps, ttlMs) && i <= j < |trace| && trace[i].service.inFlight.None?
    requires forall k :: i <= k < j ==> !Calls(steps[k])
    ensures trace[j].service.inFlight.None?
    decreases j
  {
    if i < j {
      NothingTakesOff(trace, steps, ttlMs, i, j - 1);
    }
  }

  lemma {:induction false} TimeGoesOn(trace: seq<World>, steps: seq<Step>, ttlMs: nat, i: nat, j: nat)
    requires Run(trace, steps, ttlMs) && i <= j < |trace|
    ensures trace[i].now <= trace[j].now
  {
    if i < j {
      TimeGoesOn(trace, steps, ttlMs, i, j - 1);
    }
  }

  lemma {:induction false} StaysCached(trace: seq<World>, steps: seq<Step>, ttlMs: nat, i: nat, j: nat, snapshot: Snapshot, loadedAt: nat)
    requires Run(trace, steps, ttlMs) && i <= j < |trace| && Holding(trace[i], snapshot, loadedAt, ttlMs)
    requires trace[j].now < loadedAt + ttlMs && forall k :: i <= k < j ==> LeavesTheCache(steps[k])
    ensures Holding(trace[j], snapshot, loadedAt, ttlMs)
  {
    if i < j {
      TimeGoesOn(trace, steps, ttlMs, j - 1, j);
      StaysCached(trace, steps, ttlMs, i, j - 1, snapshot, loadedAt);
    }
  }

  lemma {:induction false} RefreshedSince(trace: seq<World>, steps: seq<Step>, ttlMs: nat, i: nat, j: nat)
    requires Run(trace, steps, ttlMs) && i < j < |trace| && steps[i].AskRefresh?
    ensures NothingSettledBefore(trace[j], |trace[i + 1].calls|, trace[i + 1])
    decreases j
  {
    if i + 1 < j {
      RefreshedSince(trace, steps, ttlMs, i, j - 1);
    }
  }

  lemma StepKeepsNothingOlder(w: World, step: Step, ttlMs: nat, n: nat, k: nat)
    requires Inv(w, ttlMs) && Enabled(w, step) && NothingOlder(w, n, k)
    ensures NothingOlder(Next(w, step, ttlMs), n, k)
  {
  }

  lemma RunStepKeepsNothingOlder(trace: seq<World>, steps: seq<Step>, ttlMs: nat, j: nat, n: nat, k: nat)
    requires Run(trace, steps, ttlMs) && j < |steps| && NothingOlder(trace[j], n, k)
    ensures NothingOlder(trace[j + 1], n, k)
  {
    RunKeeps(trace, steps, ttlMs, j);
    StepKeepsNothingOlder(trace[j], steps[j], ttlMs, n, k);
  }

  lemma {:induction false} RunKeepsNothingOlder(trace: seq<World>, steps: seq<Step>, ttlMs: nat, i: nat, j: nat, n: nat, k: nat)
    requires Run(trace, steps, ttlMs) && i <= j < |trace| && NothingOlder(trace[i], n, k)
    ensures NothingOlder(trace[j], n, k)
  {
    if i < j {
      RunKeepsNothingOlder(trace, steps, ttlMs, i, j - 1, n, k);
      RunStepKeepsNothingOlder(trace, steps, ttlMs, j - 1, n, k);
    }
  }
}
