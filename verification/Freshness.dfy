/**
 How old the answers can be that callers get: under two TTLs, provided that every
 resolution is stored by the deadline of its reviews, and not otherwise.
 */
module Freshness {
  import opened Identity
  import opened Authz
  import opened ClusterRbac
  import opened ScopeCache
  import opened Protocol
  import opened Singleflight
  import opened Staleness
  import opened Overtaken

  /**
   At step n the caller is given the scope: from the live entry under its key, or
   as one of those waiting for the resolution under its key, which is just stored.
   */
  predicate Serves(trace: seq<Sys>, moves: seq<Move>, n: nat, id: Identity, scope: Scope)
    requires n < |trace|
  {
    var s, key := trace[n], CacheKey(id);
    || (Live(s.cache, key, s.now) && s.cache[key].scope == scope)
    || (n < |moves| && moves[n] == Store(key) && key in s.flights && s.flights[key].scope == scope)
  }

  /** Every caller whose resolution is begun has an identity as headers give it. */
  predicate WellFormedCallers(moves: seq<Move>) {
    forall i :: 0 <= i < |moves| && moves[i].Begin? ==> WellFormed(moves[i].id)
  }

  /** Less than age before step n the API server would have said yes. */
  ghost predicate YesWithin(trace: seq<Sys>, n: nat, age: int, id: Identity, ns: string)
    requires n < |trace|
  {
    exists j :: 0 <= j <= n && trace[n].now - trace[j].now < age && CanList(trace[j].truth, id, ns)
  }

  /** Every grant the run serves was an answer of the API server less than two TTLs before. */
  ghost predicate ServesFresh(cfg: Config, trace: seq<Sys>, moves: seq<Move>) {
    forall n: nat, id, scope, ns :: n < |trace| && WellFormed(id) && Serves(trace, moves, n, id, scope) && Granted(scope, ns)
      ==> YesWithin(trace, n, 2 * cfg.ttl, id, ns)
  }

  /** The resolution stored by step i is stored at most d after its re-check. */
  predicate StoredWithin(trace: seq<Sys>, moves: seq<Move>, i: nat, d: int)
    requires i < |moves| && i < |trace|
  {
    moves[i].Store? && moves[i].key in trace[i].flights ==> trace[i].now <= trace[i].flights[moves[i].key].began + d
  }

  predicate StoresWithin(trace: seq<Sys>, moves: seq<Move>, d: int) {
    forall i :: 0 <= i < |moves| && i < |trace| ==> StoredWithin(trace, moves, i, d)
  }

  // ----- Prompt stores serve fresh answers -----

  lemma {:induction false} OriginsPrompt(cfg: Config, trace: seq<Sys>, moves: seq<Move>, d: int, n: nat, key: string)
    requires Trace(cfg, trace, moves) && StoresWithin(trace, moves, d) && n <= |moves| && key in trace[n].cache
    ensures key in trace[n].origins && trace[n].origins[key].stored <= trace[n].origins[key].began + d
  {
    if moves[n - 1] == Store(key) {
      assert StepAt(cfg, trace, moves, n - 1) && StoredWithin(trace, moves, n - 1, d);
    } else {
      EntryUnchanged(cfg, trace, moves, n - 1, key);
      OriginsPrompt(cfg, trace, moves, d, n - 1, key);
    }
  }

  lemma AnsweredIsRecent(trace: seq<Sys>, n: nat, since: int, until: int, age: int, id: Identity, ns: string)
    requires n < |trace| && Answered(trace, n, since, until, id, ns, true) && trace[n].now - since < age
    ensures YesWithin(trace, n, age, id, ns)
  {
  }

  ghost predicate IdentitiesWellFormed(s: Sys) {
    (forall k :: k in s.cache ==> WellFormed(s.cache[k].id)) && forall k :: k in s.flights ==> WellFormed(s.flights[k].id)
  }

  /** A resolution keeps the identity it was begun with. */
  lemma FlightKeepsId(cfg: Config, s: Sys, move: Move, s': Sys, key: string)
    requires Acts(cfg, s, move, s') && key in s'.flights
    ensures (key in s.flights && s'.flights[key].id == s.flights[key].id) || (move.Begin? && s'.flights[key].id == move.id)
  {
    if IsFlightMove(move) {
      FlyingKeepsId(cfg, s, move, key);
    }
  }

  lemma FlyingKeepsId(cfg: Config, s: Sys, move: Move, key: string)
    requires IsFlightMove(move) && move.key in s.flights && key in Flew(cfg, s, move).flights
    ensures key in s.flights && Flew(cfg, s, move).flights[key].id == s.flights[key].id
  {
    var g := Flown(cfg, s, move, s.flights[move.key]);
    assert g.Some? ==> g.value.id == s.flights[move.key].id;
  }

  /** An entry that a step leaves was there before, or is its resolution's. */
  lemma EntryKeepsId(cfg: Config, s: Sys, move: Move, s': Sys, key: string)
    requires Acts(cfg, s, move, s') && key in s'.cache
    ensures (key in s.cache && s'.cache[key].id == s.cache[key].id) || (key in s.flights && s'.cache[key].id == s.flights[key].id)
  {
    if move.Store? {
      StoredFrame(cfg, s, move.key, s');
    } else {
      StepDropsOrStores(cfg, s, move, s');
    }
  }

  lemma StepKeepsWellFormed(cfg: Config, s: Sys, move: Move, s': Sys)
    requires Acts(cfg, s, move, s') && IdentitiesWellFormed(s) && (move.Begin? ==> WellFormed(move.id))
    ensures IdentitiesWellFormed(s')
  {
    forall k | k in s'.cache ensures WellFormed(s'.cache[k].id) {
      EntryKeepsId(cfg, s, move, s', k);
    }
    forall k | k in s'.flights ensures WellFormed(s'.flights[k].id) {
      FlightKeepsId(cfg, s, move, s', k);
    }
  }

  lemma {:induction false} RunWellFormed(cfg: Config, trace: seq<Sys>, moves: seq<Move>, n: nat)
    requires Trace(cfg, trace, moves) && WellFormedCallers(moves) && n <= |moves|
    ensures IdentitiesWellFormed(trace[n])
  {
    if n > 0 {
      RunWellFormed(cfg, trace, moves, n - 1);
      WellFormedAt(cfg, trace, moves, n - 1);
    }
  }

  lemma WellFormedAt(cfg: Config, trace: seq<Sys>, moves: seq<Move>, i: nat)
    requires Trace(cfg, trace, moves) && WellFormedCallers(moves) && i < |moves| && IdentitiesWellFormed(trace[i])
    ensures IdentitiesWellFormed(trace[i + 1])
  {
    assert StepAt(cfg, trace, moves, i);
    StepKeepsWellFormed(cfg, trace[i], moves[i], trace[i + 1]);
  }

  /** A yes for one caller is a yes for every caller with the same key. */
  lemma SameKeySameYes(trace: seq<Sys>, n: nat, age: int, id: Identity, other: Identity, ns: string)
    requires n < |trace| && WellFormed(id) && WellFormed(other) && CacheKey(id) == CacheKey(other) && YesWithin(trace, n, age, other, ns)
    ensures YesWithin(trace, n, age, id, ns)
  {
    CacheKeyInjective(id, other);
    var j :| 0 <= j <= n && trace[n].now - trace[j].now < age && CanList(trace[j].truth, other, ns);
    SameCallerSameAccess(trace[j].truth, id, other, ns);
  }

  lemma PromptServesFresh(cfg: Config, trace: seq<Sys>, moves: seq<Move>, d: int, n: nat, id: Identity, scope: Scope, ns: string)
    requires Trace(cfg, trace, moves) && WellFormedCallers(moves) && StoresWithin(trace, moves, d) && d <= cfg.ttl && cfg.ttl > 0
    requires n <= |moves| && WellFormed(id) && Serves(trace, moves, n, id, scope) && Granted(scope, ns)
    ensures YesWithin(trace, n, 2 * cfg.ttl, id, ns)
  {
    var s, key := trace[n], CacheKey(id);
    RunWellFormed(cfg, trace, moves, n);
    if Live(s.cache, key, s.now) && s.cache[key].scope == scope {
      EntryIsRecent(cfg, trace, moves, d, n, key, ns);
      EntriesOwnedAndBounded(cfg, trace, moves, n, key);
      SameKeySameYes(trace, n, 2 * cfg.ttl, id, s.cache[key].id, ns);
    } else {
      HandedOutAnswered(cfg, trace, moves, n, key, ns);
      assert StoredWithin(trace, moves, n, d);
      AnsweredIsRecent(trace, n, s.flights[key].began, s.flights[key].began + cfg.ttl, 2 * cfg.ttl, s.flights[key].id, ns);
      RunFlights(cfg, trace, moves, n);
      SameKeySameYes(trace, n, 2 * cfg.ttl, id, s.flights[key].id, ns);
    }
  }

  lemma EntryIsRecent(cfg: Config, trace: seq<Sys>, moves: seq<Move>, d: int, n: nat, key: string, ns: string)
    requires Trace(cfg, trace, moves) && StoresWithin(trace, moves, d) && d <= cfg.ttl && n <= |moves|
    requires Live(trace[n].cache, key, trace[n].now) && Granted(trace[n].cache[key].scope, ns)
    ensures YesWithin(trace, n, 2 * cfg.ttl, trace[n].cache[key].id, ns)
  {
    OriginsPrompt(cfg, trace, moves, d, n, key);
    StalenessBound(cfg, trace, moves, n, key, ns);
    AnsweredIsRecent(trace, n, trace[n].origins[key].began, trace[n].origins[key].began + cfg.ttl, 2 * cfg.ttl, trace[n].cache[key].id, ns);
  }

  /** What a resolution hands to those waiting for it was answered since its re-check. */
  lemma HandedOutAnswered(cfg: Config, trace: seq<Sys>, moves: seq<Move>, n: nat, key: string, ns: string)
    requires Trace(cfg, trace, moves) && n < |moves| && moves[n] == Store(key)
    requires key in trace[n].flights && Granted(trace[n].flights[key].scope, ns)
    ensures var f := trace[n].flights[key]; Answered(trace, n, f.began, f.began + cfg.ttl, f.id, ns, true)
  {
    assert StepAt(cfg, trace, moves, n);
    FlightsAnswered(cfg, trace, moves, n);
    RunFlights(cfg, trace, moves, n);
    ResolvedIsFullAnswer(cfg, trace, n, trace[n].flights[key]);
  }

  // ----- A late store serves a stale one -----

  /** Access is revoked right after the yes, and the yes is stored d after the re-check. */
  function LateMoves(cfg: Config, d: int): seq<Move> {
    [Begin(CALLER), Recheck(CacheKey(CALLER)), AnswerAll(CacheKey(CALLER)),
     ApiWrite(ClusterRoleBindingWrite(REVOKE)), Tick(d), Store(CacheKey(CALLER)), Tick(d + cfg.ttl - 1)]
  }

  function LateState(cfg: Config, d: int, i: nat): Sys {
    var revoked := AtStep(cfg, 4).(now := d, steps := 5);
    if i <= 4 then AtStep(cfg, i)
    else if i == 5 then revoked
    else
      var stored := revoked.(
        cache := map[CacheKey(CALLER) := Entry(ALL, d + cfg.ttl, CALLER)],
        origins := map[CacheKey(CALLER) := Origin(0, d, 5, {}, false)],
        flights := map[], stores := multiset{CacheKey(CALLER)}, steps := 6);
      if i == 6 then stored else stored.(now := d + cfg.ttl - 1, steps := 7)
  }

  lemma LateStores(cfg: Config, d: int)
    requires cfg.maxCache > 0
    ensures Acts(cfg, LateState(cfg, d, 5), Store(CacheKey(CALLER)), LateState(cfg, d, 6))
  {
    var s, key := LateState(cfg, d, 5), CacheKey(CALLER);
    assert s.flights - {key} == map[];
    FirstStore(cfg, s, key, LateState(cfg, d, 6));
  }

  lemma LateTicks(cfg: Config, d: int, i: nat)
    requires cfg.ttl > 0 && d >= 0 && (i == 4 || i == 6)
    ensures Acts(cfg, LateState(cfg, d, i), LateMoves(cfg, d)[i], LateState(cfg, d, i + 1))
  {
  }

  lemma LateStep(cfg: Config, d: int, i: nat)
    requires cfg.ttl > 0 && cfg.maxCache > 0 && d >= 0 && i < 7
    ensures Acts(cfg, LateState(cfg, d, i), LateMoves(cfg, d)[i], LateState(cfg, d, i + 1))
  {
    if i < 3 {
      Resolving(cfg);
    } else if i == 3 {
      Revoking(cfg);
    } else if i == 5 {
      LateStores(cfg, d);
    } else {
      LateTicks(cfg, d, i);
    }
  }

  lemma LateRun(cfg: Config, d: int) returns (trace: seq<Sys>)
    requires cfg.ttl > 0 && cfg.maxCache > 0 && d >= 0
    ensures Trace(cfg, trace, LateMoves(cfg, d))
    ensures forall i :: 0 <= i < 8 ==> trace[i] == LateState(cfg, d, i)
  {
    trace := seq(8, i requires 0 <= i < 8 => LateState(cfg, d, i));
    forall i | 0 <= i < 7 ensures StepAt(cfg, trace, LateMoves(cfg, d), i) {
      LateStep(cfg, d, i);
    }
  }

  lemma LateIsStale(cfg: Config, d: int) returns (trace: seq<Sys>)
    requires cfg.ttl > 0 && cfg.maxCache > 0 && d > cfg.ttl
    ensures Trace(cfg, trace, LateMoves(cfg, d)) && StoresWithin(trace, LateMoves(cfg, d), d) && WellFormedCallers(LateMoves(cfg, d))
    ensures !ServesFresh(cfg, trace, LateMoves(cfg, d))
  {
    trace := LateRun(cfg, d);
    var moves := LateMoves(cfg, d);
    assert trace[5] == LateState(cfg, d, 5) && trace[7] == LateState(cfg, d, 7);
    assert WellFormed(CALLER) && Serves(trace, moves, 7, CALLER, ALL) && Granted(ALL, "");
    forall j | 0 <= j <= 7 && trace[7].now - trace[j].now < 2 * cfg.ttl ensures !CanList(trace[j].truth, CALLER, "") {
      assert trace[j] == LateState(cfg, d, j);
      LateDenied(cfg, d, j);
    }
    assert !YesWithin(trace, 7, 2 * cfg.ttl, CALLER, "");
  }

  /** Within the last two TTLs of the late run access was already revoked. */
  lemma LateDenied(cfg: Config, d: int, j: nat)
    requires d > cfg.ttl > 0 && j <= 7 && LateState(cfg, d, 7).now - LateState(cfg, d, j).now < 2 * cfg.ttl
    ensures !CanList(LateState(cfg, d, j).truth, CALLER, "")
  {
    assert j >= 4 && LateState(cfg, d, j).truth == REVOKED;
    assert !CanList(REVOKED, CALLER, "");
  }

  // ----- The exact condition -----

  /** Every run with well-formed callers whose stores come at most d after the re-check serves fresh grants only. */
  ghost predicate DelayServesFresh(cfg: Config, d: int) {
    forall trace, moves :: Trace(cfg, trace, moves) && WellFormedCallers(moves) && StoresWithin(trace, moves, d)
      ==> ServesFresh(cfg, trace, moves)
  }

  /**
   Whatever the run, callers are served only grants the API server gave less than
   two TTLs before, as long as stores come at most d after the re-check: this holds
   for exactly those delays d that do not exceed the TTL.  The deadline bounds the
   reviews by the TTL, but nothing bounds the store that follows.
   */
  lemma FreshExactly(cfg: Config, d: int)
    requires cfg.ttl > 0 && cfg.maxCache > 0
    ensures DelayServesFresh(cfg, d) <==> d <= cfg.ttl
  {
    if d <= cfg.ttl {
      forall trace, moves | Trace(cfg, trace, moves) && WellFormedCallers(moves) && StoresWithin(trace, moves, d)
        ensures ServesFresh(cfg, trace, moves)
      {
        forall n: nat, id, scope, ns | n < |trace| && WellFormed(id) && Serves(trace, moves, n, id, scope) && Granted(scope, ns)
          ensures YesWithin(trace, n, 2 * cfg.ttl, id, ns)
        {
          PromptServesFresh(cfg, trace, moves, d, n, id, scope, ns);
        }
      }
    } else {
      var trace := LateIsStale(cfg, d);
    }
  }
}
