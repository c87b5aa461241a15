/**
 What every run of the cache protocol keeps: one resolution per caller at a time
 and no live entry beside it, exact books of sweeps and entries, complete and
 bounded entries, and a bound on how stale an answer can be.
 */
module Singleflight {
  import opened Options
  import opened Identity
  import opened ClusterRbac
  import opened ScopeCache
  import opened Protocol

  // ----- The cache's invariant -----

  /** Every entry is keyed by its own identity. */
  predicate EntriesKeyed(s: Sys) {
    forall k :: k in s.cache ==> k == CacheKey(s.cache[k].id)
  }

  predicate Bounded(cfg: Config, s: Sys) {
    cfg.maxCache > 0 ==> |s.cache| <= cfg.maxCache
  }

  /** Successful sweeps for a key are its ended entries, plus one if it has an entry. */
  ghost predicate Books(s: Sys) {
    forall k :: s.stores[k] == s.ended[k] + if k in s.cache then 1 else 0
  }

  predicate OriginsOk(cfg: Config, s: Sys) {
    && s.origins.Keys == s.cache.Keys
    && forall k :: k in s.cache ==>
         s.origins[k].began <= s.origins[k].stored <= s.now && s.cache[k].expires == s.origins[k].stored + cfg.ttl
  }

  ghost predicate CacheInv(cfg: Config, s: Sys) {
    EntriesKeyed(s) && Bounded(cfg, s) && Books(s) && OriginsOk(cfg, s)
  }

  // ----- The resolutions' invariant -----

  predicate FlightsKeyed(s: Sys) {
    forall k :: k in s.flights ==> k == CacheKey(s.flights[k].id)
  }

  /** While a resolution past its re-check is in flight, its key has no live entry. */
  predicate NoLiveBeside(s: Sys) {
    forall k :: k in s.flights && !s.flights[k].phase.Checking? ==> !Live(s.cache, k, s.now)
  }

  /** A resolution: bounded, within its list, and a resolved scope is the full answer. */
  predicate FlightOk(cfg: Config, f: Flight) {
    && |f.inFlight| <= cfg.concurrency
    && f.inFlight <= f.listed && f.answers.Keys <= f.listed
    && (f.phase.Checking? || f.phase.AskingAll? || f.phase.Listing? ==> f.inFlight == {} && f.answers == map[])
    && (f.phase.Resolved? && !f.scope.all ==>
          f.answers.Keys == f.listed && f.inFlight == {} && !f.failed && f.scope.namespaces == set ns | ns in f.answers && f.answers[ns])
  }

  predicate FlightsOk(cfg: Config, s: Sys) {
    forall k :: k in s.flights ==> FlightOk(cfg, s.flights[k]) && (s.flights[k].phase.Checking? || s.flights[k].began <= s.now)
  }

  predicate FlightInv(cfg: Config, s: Sys) {
    FlightsKeyed(s) && NoLiveBeside(s) && FlightsOk(cfg, s)
  }

  // ----- What a step does to the cache -----

  /** Entries were only dropped, and counted as ended. */
  ghost predicate Dropped(s: Sys, s': Sys) {
    && SubCache(s'.cache, s.cache) && s.now <= s'.now
    && s'.stores == s.stores && s'.ended == s.ended + multiset(s.cache.Keys - s'.cache.Keys)
    && (s.origins.Keys == s.cache.Keys ==> s'.origins.Keys == s'.cache.Keys && forall k :: k in s'.cache ==> s'.origins[k] == s.origins[k])
  }

  lemma RecachedDrops(s: Sys, cache: Cache, s': Sys)
    requires SubCache(cache, s.cache) && s'.cache == cache && s'.origins == Recached(s, cache).origins
    requires s'.ended == Recached(s, cache).ended && s'.stores == s.stores && s'.now == s.now
    ensures Dropped(s, s')
  {
  }

  lemma UntouchedDrops(s: Sys, s': Sys)
    requires s'.cache == s.cache && s'.origins == s.origins && s'.stores == s.stores && s'.ended == s.ended && s.now <= s'.now
    ensures Dropped(s, s')
  {
    assert s.cache.Keys - s'.cache.Keys == {};
  }

  lemma StepDropsOrStores(cfg: Config, s: Sys, move: Move, s': Sys)
    requires Acts(cfg, s, move, s') && !move.Store?
    ensures Dropped(s, s')
  {
    if move.Handle? {
      RecachedDrops(s, Spared(s.cache, s.feeds.bindings.view, s.feeds.clusterBindings.view, NextNote(s.feeds, move.kind).value), s');
    } else if move.SweepCache? {
      RecachedDrops(s, Unexpired(s.cache, s.now), s');
    } else {
      UntouchedDrops(s, s');
    }
  }

  // ----- The cache's invariant is kept -----

  lemma DroppingKeeps(cfg: Config, s: Sys, s': Sys)
    requires CacheInv(cfg, s) && Dropped(s, s')
    ensures CacheInv(cfg, s')
  {
    DroppingKeepsBooks(s, s');
    SubCacheSize(s'.cache, s.cache);
  }

  lemma DroppingKeepsBooks(s: Sys, s': Sys)
    requires Books(s) && Dropped(s, s')
    ensures Books(s')
  {
    forall k ensures s'.stores[k] == s'.ended[k] + if k in s'.cache then 1 else 0 {
      assert s.stores[k] == s.ended[k] + if k in s.cache then 1 else 0;
    }
  }

  lemma StoringKeepsBooks(cfg: Config, s: Sys, key: string, s': Sys)
    requires Books(s) && key in s.flights && Stored(cfg, s, key, s')
    ensures Books(s')
  {
    StoredFrame(cfg, s, key, s');
    forall k ensures s'.stores[k] == s'.ended[k] + if k in s'.cache then 1 else 0 {
      assert s.stores[k] == s.ended[k] + if k in s.cache then 1 else 0;
    }
  }

  lemma StoringKeepsBound(cfg: Config, s: Sys, key: string, s': Sys)
    requires Bounded(cfg, s) && key in s.flights && Stored(cfg, s, key, s')
    ensures Bounded(cfg, s')
  {
    if cfg.maxCache > 0 {
      StoreBounded(s.cache, s'.cache, key, Entry(s.flights[key].scope, s.now + cfg.ttl, s.flights[key].id), cfg.maxCache, s.now);
    }
  }

  lemma StoringKeepsOrigins(cfg: Config, s: Sys, key: string, s': Sys)
    requires OriginsOk(cfg, s) && key in s.flights && s.flights[key].began <= s.now && Stored(cfg, s, key, s')
    ensures OriginsOk(cfg, s')
  {
    StoredFrame(cfg, s, key, s');
  }

  lemma StoringKeeps(cfg: Config, s: Sys, key: string, s': Sys)
    requires CacheInv(cfg, s) && FlightInv(cfg, s) && key in s.flights && Stored(cfg, s, key, s')
    ensures CacheInv(cfg, s')
  {
    StoringKeepsBooks(cfg, s, key, s');
    StoringKeepsBound(cfg, s, key, s');
    StoringKeepsOrigins(cfg, s, key, s');
    StoredFrame(cfg, s, key, s');
  }

  // ----- The resolutions' invariant is kept -----

  /** The move leaves a resolution in order, its own and, once past the re-check, beside no live entry. */
  predicate FlownOk(cfg: Config, s: Sys, key: string, f: Flight, g: Flight) {
    FlightOk(cfg, g) && g.id == f.id && !g.phase.Checking? && g.began <= s.now && !Live(s.cache, key, s.now)
  }

  lemma FlightMoveOk(cfg: Config, s: Sys, move: Move)
    requires FlightInv(cfg, s) && IsFlightMove(move) && move.key in s.flights && MayFly(cfg, s, move, s.flights[move.key])
    ensures
      var f := s.flights[move.key];
      var g := Flown(cfg, s, move, f);
      g.Some? ==> FlownOk(cfg, s, move.key, f, g.value)
  {
    var f := s.flights[move.key];
    MoveKeepsOrder(cfg, s, move, f);
  }

  /** Each move of a resolution leaves it bounded, within its list, and complete when resolved. */
  lemma MoveKeepsOrder(cfg: Config, s: Sys, move: Move, f: Flight)
    requires FlightOk(cfg, f) && IsFlightMove(move) && MayFly(cfg, s, move, f)
    ensures Flown(cfg, s, move, f).Some? ==> FlightOk(cfg, Flown(cfg, s, move, f).value)
  {
    match move
    case Collect(_, ns) =>
      assert f.inFlight == (f.inFlight - {ns}) + {ns};
    case FailReview(_, ns) =>
      assert f.inFlight == (f.inFlight - {ns}) + {ns};
    case _ =>
  }

  lemma FlightSetKeeps(cfg: Config, s: Sys, key: string, g: Option<Flight>, s': Sys)
    requires FlightInv(cfg, s) && key in s.flights && s' == SetFlight(s, key, g).(begun := s'.begun, failed := s'.failed, steps := s'.steps)
    requires g.Some? ==> FlownOk(cfg, s, key, s.flights[key], g.value)
    ensures FlightInv(cfg, s')
  {
  }

  /** Resolutions that change at most their mark stay in order while the cache only loses entries. */
  lemma MarkingKeeps(cfg: Config, s: Sys, s': Sys)
    requires FlightInv(cfg, s) && SubCache(s'.cache, s.cache) && s.now <= s'.now && s'.flights.Keys == s.flights.Keys
    requires forall k :: k in s.flights ==> s'.flights[k] == s.flights[k].(overtaken := s'.flights[k].overtaken)
    ensures FlightInv(cfg, s')
  {
    forall k | k in s'.flights
      ensures k == CacheKey(s'.flights[k].id)
      ensures !s'.flights[k].phase.Checking? ==> !Live(s'.cache, k, s'.now)
      ensures FlightOk(cfg, s'.flights[k]) && (s'.flights[k].phase.Checking? || s'.flights[k].began <= s'.now)
    {
      assert FlightOk(cfg, s.flights[k]);
    }
  }

  lemma StoringKeepsFlights(cfg: Config, s: Sys, key: string, s': Sys)
    requires FlightInv(cfg, s) && key in s.flights && Stored(cfg, s, key, s')
    ensures FlightInv(cfg, s')
  {
    StoredFrame(cfg, s, key, s');
  }

  lemma BeginKeepsFlights(cfg: Config, s: Sys, id: Identity, s': Sys)
    requires FlightInv(cfg, s) && s' == s.(flights := s.flights[CacheKey(id) := Launch(id)], steps := s.steps + 1)
    ensures FlightInv(cfg, s')
  {
  }

  lemma StepKeepsFlights(cfg: Config, s: Sys, move: Move, s': Sys)
    requires FlightInv(cfg, s) && Acts(cfg, s, move, s')
    ensures FlightInv(cfg, s')
  {
    if IsFlightMove(move) {
      FlyingKeepsFlights(cfg, s, move, s');
    } else if move.Store? {
      StoringKeepsFlights(cfg, s, move.key, s');
    } else if move.Begin? {
      BeginKeepsFlights(cfg, s, move.id, s');
    } else {
      OtherMovesKeepFlights(cfg, s, move, s');
    }
  }

  lemma FlyingKeepsFlights(cfg: Config, s: Sys, move: Move, s': Sys)
    requires FlightInv(cfg, s) && IsFlightMove(move) && move.key in s.flights
    requires MayFly(cfg, s, move, s.flights[move.key]) && s' == Flew(cfg, s, move)
    ensures FlightInv(cfg, s')
  {
    FlightMoveOk(cfg, s, move);
    FlightSetKeeps(cfg, s, move.key, Flown(cfg, s, move, s.flights[move.key]), s');
  }

  lemma OtherMovesKeepFlights(cfg: Config, s: Sys, move: Move, s': Sys)
    requires FlightInv(cfg, s) && Acts(cfg, s, move, s') && !IsFlightMove(move) && !move.Store? && !move.Begin?
    ensures FlightInv(cfg, s')
  {
    StepDropsOrStores(cfg, s, move, s');
    OtherMovesOnlyMark(cfg, s, move, s');
    MarkingKeeps(cfg, s, s');
  }

  lemma OtherMovesOnlyMark(cfg: Config, s: Sys, move: Move, s': Sys)
    requires Acts(cfg, s, move, s') && !IsFlightMove(move) && !move.Store? && !move.Begin?
    ensures s'.flights.Keys == s.flights.Keys
    ensures forall k :: k in s.flights ==> s'.flights[k] == s.flights[k].(overtaken := s'.flights[k].overtaken)
  {
    if move.Handle? {
      HandlersOnlyMark(s, NextNote(s.feeds, move.kind).value);
    } else {
      assert s'.flights == s.flights;
    }
  }

  lemma HandlersOnlyMark(s: Sys, w: Write)
    ensures
      var marked := map k | k in s.flights :: Marked(s.feeds, w, s.flights[k]);
      && marked.Keys == s.flights.Keys
      && forall k :: k in s.flights ==> marked[k] == s.flights[k].(overtaken := marked[k].overtaken)
  {
  }

  // ----- Whole runs -----

  lemma {:induction false} RunFlights(cfg: Config, trace: seq<Sys>, moves: seq<Move>, n: nat)
    requires Trace(cfg, trace, moves) && n <= |moves|
    ensures FlightInv(cfg, trace[n])
  {
    if n > 0 {
      RunFlights(cfg, trace, moves, n - 1);
      assert StepAt(cfg, trace, moves, n - 1);
      StepKeepsFlights(cfg, trace[n - 1], moves[n - 1], trace[n]);
    }
  }

  lemma StepKeepsCache(cfg: Config, s: Sys, move: Move, s': Sys)
    requires CacheInv(cfg, s) && FlightInv(cfg, s) && Acts(cfg, s, move, s')
    ensures CacheInv(cfg, s')
  {
    if move.Store? {
      StoringKeeps(cfg, s, move.key, s');
    } else {
      StepDropsOrStores(cfg, s, move, s');
      DroppingKeeps(cfg, s, s');
    }
  }

  lemma {:induction false} RunCache(cfg: Config, trace: seq<Sys>, moves: seq<Move>, n: nat)
    requires Trace(cfg, trace, moves) && n <= |moves|
    ensures CacheInv(cfg, trace[n])
  {
    if n > 0 {
      RunCache(cfg, trace, moves, n - 1);
      CacheKeptAt(cfg, trace, moves, n - 1);
    }
  }

  lemma CacheKeptAt(cfg: Config, trace: seq<Sys>, moves: seq<Move>, i: nat)
    requires Trace(cfg, trace, moves) && i < |moves| && CacheInv(cfg, trace[i])
    ensures CacheInv(cfg, trace[i + 1])
  {
    RunFlights(cfg, trace, moves, i);
    assert StepAt(cfg, trace, moves, i);
    StepKeepsCache(cfg, trace[i], moves[i], trace[i + 1]);
  }

  lemma {:induction false} RunSteps(cfg: Config, trace: seq<Sys>, moves: seq<Move>, n: nat)
    requires Trace(cfg, trace, moves) && n <= |moves|
    ensures trace[n].steps == n
  {
    if n > 0 {
      RunSteps(cfg, trace, moves, n - 1);
      assert StepAt(cfg, trace, moves, n - 1);
    }
  }

  // ----- Singleflight accounting -----

  /**
   Over any interleaving, a key's successful sweeps are its ended entries plus
   one if it has an entry; no live entry exists beside a resolution that is
   sweeping; and storing never replaces a live entry.
   */
  lemma SingleflightAccounting(cfg: Config, trace: seq<Sys>, moves: seq<Move>, n: nat, key: string)
    requires Trace(cfg, trace, moves) && n <= |moves|
    ensures trace[n].stores[key] == trace[n].ended[key] + if key in trace[n].cache then 1 else 0
    ensures key in trace[n].flights && !trace[n].flights[key].phase.Checking? ==> !Live(trace[n].cache, key, trace[n].now)
    ensures n < |moves| && moves[n] == Store(key) ==> !Live(trace[n].cache, key, trace[n].now)
  {
    RunCache(cfg, trace, moves, n);
    RunFlights(cfg, trace, moves, n);
    if n < |moves| {
      assert StepAt(cfg, trace, moves, n);
    }
  }

  // ----- What sweeps cost -----

  /** A resolution of the key is past its re-check. */
  predicate Sweeping(s: Sys, key: string) {
    key in s.flights && !s.flights[key].phase.Checking?
  }

  /** Every sweep begun has failed, has been stored or is still going on. */
  ghost predicate SweepsCounted(s: Sys, key: string) {
    s.begun[key] == s.stores[key] + s.failed[key] + if Sweeping(s, key) then 1 else 0
  }

  lemma StepCountsSweeps(cfg: Config, s: Sys, move: Move, s': Sys, key: string)
    requires SweepsCounted(s, key) && Acts(cfg, s, move, s')
    ensures SweepsCounted(s', key)
  {
    if IsFlightMove(move) {
      FlightMoveCounts(cfg, s, move, key);
    } else if move.Store? {
      StoreCounts(cfg, s, move.key, s', key);
    }
  }

  lemma FlightMoveCounts(cfg: Config, s: Sys, move: Move, key: string)
    requires SweepsCounted(s, key) && IsFlightMove(move) && move.key in s.flights && MayFly(cfg, s, move, s.flights[move.key])
    ensures SweepsCounted(Flew(cfg, s, move), key)
  {
    var g := Flown(cfg, s, move, s.flights[move.key]);
    assert Sweeping(Flew(cfg, s, move), key) == if move.key == key then g.Some? else Sweeping(s, key);
  }

  lemma StoreCounts(cfg: Config, s: Sys, stored: string, s': Sys, key: string)
    requires SweepsCounted(s, key) && stored in s.flights && Stored(cfg, s, stored, s')
    ensures SweepsCounted(s', key)
  {
  }

  lemma {:induction false} RunCountsSweeps(cfg: Config, trace: seq<Sys>, moves: seq<Move>, n: nat, key: string)
    requires Trace(cfg, trace, moves) && n <= |moves|
    ensures SweepsCounted(trace[n], key)
  {
    if n > 0 {
      RunCountsSweeps(cfg, trace, moves, n - 1, key);
      SweepsCountedAt(cfg, trace, moves, n - 1, key);
    }
  }

  lemma SweepsCountedAt(cfg: Config, trace: seq<Sys>, moves: seq<Move>, i: nat, key: string)
    requires Trace(cfg, trace, moves) && i < |moves| && SweepsCounted(trace[i], key)
    ensures SweepsCounted(trace[i + 1], key)
  {
    assert StepAt(cfg, trace, moves, i);
    StepCountsSweeps(cfg, trace[i], moves[i], trace[i + 1], key);
  }

  /** The key has an entry, or a sweep going on; never both while the entry is live. */
  predicate Occupied(s: Sys, key: string) {
    key in s.cache || Sweeping(s, key)
  }

  /**
   However many callers there are, the sweeps they begin for a key are those that
   failed, those whose entry has ended, the one whose entry is cached, and the one
   going on; there is one going on beside a cached entry only once that has expired.
   */
  lemma SweepsExactly(cfg: Config, trace: seq<Sys>, moves: seq<Move>, n: nat, key: string)
    requires Trace(cfg, trace, moves) && n <= |moves|
    ensures
      var s := trace[n];
      && s.begun[key] == s.failed[key] + s.ended[key] + (if key in s.cache then 1 else 0) + (if Sweeping(s, key) then 1 else 0)
      && (key in s.cache && Sweeping(s, key) ==> s.cache[key].expires <= s.now)
  {
    RunCountsSweeps(cfg, trace, moves, n, key);
    SingleflightAccounting(cfg, trace, moves, n, key);
  }

  /**
   Concurrent cold callers cost one sweep: from a moment without entry or sweep,
   as long as no entry of the key expired, was evicted or invalidated, the sweeps
   begun are those that failed and one more, and that one only if it is going on
   or has left an entry.
   */
  lemma ColdCallersCostOneSweep(cfg: Config, trace: seq<Sys>, moves: seq<Move>, from: nat, n: nat, key: string)
    requires Trace(cfg, trace, moves) && from <= n <= |moves| && !Occupied(trace[from], key)
    requires trace[n].ended[key] == trace[from].ended[key]
    requires key in trace[n].cache ==> Live(trace[n].cache, key, trace[n].now)
    ensures trace[n].begun[key] + trace[from].failed[key]
         == trace[from].begun[key] + trace[n].failed[key] + if Occupied(trace[n], key) then 1 else 0
    ensures trace[from].stores[key] <= trace[n].stores[key] <= trace[from].stores[key] + 1
  {
    SweepsExactly(cfg, trace, moves, from, key);
    SweepsExactly(cfg, trace, moves, n, key);
    SingleflightAccounting(cfg, trace, moves, from, key);
    SingleflightAccounting(cfg, trace, moves, n, key);
    StoresGrow(cfg, trace, moves, from, n, key);
  }

  lemma {:induction false} StoresGrow(cfg: Config, trace: seq<Sys>, moves: seq<Move>, from: nat, n: nat, key: string)
    requires Trace(cfg, trace, moves) && from <= n <= |moves|
    ensures trace[from].stores[key] <= trace[n].stores[key]
    decreases n
  {
    if from < n {
      StoresGrow(cfg, trace, moves, from, n - 1, key);
      assert StepAt(cfg, trace, moves, n - 1);
    }
  }

  /** Every entry is its own caller's, and there are never more than the cap. */
  lemma EntriesOwnedAndBounded(cfg: Config, trace: seq<Sys>, moves: seq<Move>, n: nat, key: string)
    requires Trace(cfg, trace, moves) && n <= |moves| && key in trace[n].cache
    ensures key == CacheKey(trace[n].cache[key].id)
    ensures cfg.maxCache > 0 ==> |trace[n].cache| <= cfg.maxCache
  {
    RunCache(cfg, trace, moves, n);
  }

  // ----- Invalidation -----

  /** The handler run by step i would evict entry e. */
  ghost predicate HitAt(trace: seq<Sys>, moves: seq<Move>, i: nat, e: Entry)
    requires i < |moves| && |trace| == |moves| + 1
  {
    && moves[i].Handle? && NextNote(trace[i].feeds, moves[i].kind).Some?
    && Hit(trace[i].feeds.bindings.view, trace[i].feeds.clusterBindings.view, NextNote(trace[i].feeds, moves[i].kind).value, e)
  }

  /** A later hit on what an invalidation matched comes from an entry stored after it. */
  lemma {:induction false} HitsPostdateInvalidation(cfg: Config, trace: seq<Sys>, moves: seq<Move>, i: nat, n: nat, key: string)
    requires Trace(cfg, trace, moves) && i < n <= |moves| && key in trace[n].cache && HitAt(trace, moves, i, trace[n].cache[key])
    ensures key in trace[n].origins && i < trace[n].origins[key].step < n
    decreases n
  {
    if moves[n - 1] == Store(key) {
      StoredNow(cfg, trace, moves, n - 1, key);
    } else {
      EntryUnchanged(cfg, trace, moves, n - 1, key);
      if i < n - 1 {
        HitsPostdateInvalidation(cfg, trace, moves, i, n - 1, key);
      }
    }
  }

  lemma StoredNow(cfg: Config, trace: seq<Sys>, moves: seq<Move>, i: nat, key: string)
    requires Trace(cfg, trace, moves) && i < |moves| && moves[i] == Store(key)
    ensures key in trace[i + 1].origins && trace[i + 1].origins[key].step == i && !moves[i].Handle?
  {
    assert StepAt(cfg, trace, moves, i);
    RunSteps(cfg, trace, moves, i);
  }

  lemma EntryUnchanged(cfg: Config, trace: seq<Sys>, moves: seq<Move>, i: nat, key: string)
    requires Trace(cfg, trace, moves) && i < |moves| && key in trace[i + 1].cache && moves[i] != Store(key)
    ensures key in trace[i].cache && trace[i + 1].cache[key] == trace[i].cache[key]
    ensures key in trace[i].origins && key in trace[i + 1].origins && trace[i + 1].origins[key] == trace[i].origins[key]
    ensures !HitAt(trace, moves, i, trace[i].cache[key])
  {
    RunCache(cfg, trace, moves, i);
    assert StepAt(cfg, trace, moves, i);
    EntryKept(cfg, trace[i], moves[i], trace[i + 1], key);
  }

  lemma EntryKept(cfg: Config, s: Sys, move: Move, s': Sys, key: string)
    requires Acts(cfg, s, move, s') && key in s'.cache && move != Store(key) && s.origins.Keys == s.cache.Keys
    ensures key in s.cache && s'.cache[key] == s.cache[key] && key in s'.origins && s'.origins[key] == s.origins[key]
    ensures move.Handle? && NextNote(s.feeds, move.kind).Some? ==>
      !Hit(s.feeds.bindings.view, s.feeds.clusterBindings.view, NextNote(s.feeds, move.kind).value, s.cache[key])
  {
    if move.Store? {
      StoredFrame(cfg, s, move.key, s');
    } else {
      StepDropsOrStores(cfg, s, move, s');
    }
  }
}
