/**
 The limits of invalidation.  It does not reach a resolution in flight: one that
 an invalidation overtakes stores its older answer afterwards, and then nothing
 but the TTL removes it.  Resolutions that no handler interrupts are safe.
 */
module Overtaken {
  import opened Options
  import opened Identity
  import opened Authz
  import opened ClusterRbac
  import opened ScopeCache
  import opened Protocol
  import opened WatchCompleteness

  // ----- Uninterrupted resolutions -----

  /** No handler runs while a resolution has gathered anything: each is as good as one step. */
  ghost predicate ResolvesAtomically(trace: seq<Sys>, moves: seq<Move>) {
    |trace| == |moves| + 1 &&
    forall i :: 0 <= i < |moves| && moves[i].Handle? ==>
      forall k :: k in trace[i].flights ==> !Claiming(trace[i].flights[k]) && trace[i].flights[k].listed == {}
  }

  ghost predicate NoneOvertaken(s: Sys) {
    && (forall k :: k in s.flights ==> !s.flights[k].overtaken)
    && (forall k :: k in s.origins ==> !s.origins[k].overtaken)
  }

  lemma StepOvertakesNone(cfg: Config, s: Sys, move: Move, s': Sys)
    requires NoneOvertaken(s) && Acts(cfg, s, move, s')
    requires move.Handle? ==> forall k :: k in s.flights ==> !Claiming(s.flights[k]) && s.flights[k].listed == {}
    ensures NoneOvertaken(s')
  {
    if IsFlightMove(move) {
      FlightOvertakesNone(cfg, s, move, s');
    } else if move.Handle? {
      HandleOvertakesNone(cfg, s, move, s');
    } else if move.Store? {
      StoreOvertakesNone(cfg, s, move.key, s');
    }
  }

  lemma FlightOvertakesNone(cfg: Config, s: Sys, move: Move, s': Sys)
    requires NoneOvertaken(s) && IsFlightMove(move) && move.key in s.flights
    requires s' == Flew(cfg, s, move)
    ensures NoneOvertaken(s')
  {
    var g := Flown(cfg, s, move, s.flights[move.key]);
    assert g.Some? ==> !g.value.overtaken;
  }

  lemma HandleOvertakesNone(cfg: Config, s: Sys, move: Move, s': Sys)
    requires NoneOvertaken(s) && move.Handle? && Acts(cfg, s, move, s')
    requires forall k :: k in s.flights ==> !Claiming(s.flights[k]) && s.flights[k].listed == {}
    ensures NoneOvertaken(s')
  {
  }

  lemma StoreOvertakesNone(cfg: Config, s: Sys, key: string, s': Sys)
    requires NoneOvertaken(s) && key in s.flights && Stored(cfg, s, key, s')
    ensures NoneOvertaken(s')
  {
  }

  lemma {:induction false} AtomicNoneOvertaken(cfg: Config, trace: seq<Sys>, moves: seq<Move>, n: nat)
    requires Trace(cfg, trace, moves) && ResolvesAtomically(trace, moves) && n <= |moves|
    ensures NoneOvertaken(trace[n])
  {
    if n > 0 {
      AtomicNoneOvertaken(cfg, trace, moves, n - 1);
      assert StepAt(cfg, trace, moves, n - 1);
      StepOvertakesNone(cfg, trace[n - 1], moves[n - 1], trace[n]);
    }
  }

  /** With resolution and store as one step, delivery of all events leaves no cached scope beyond truth. */
  lemma AtomicWatchCompleteness(cfg: Config, trace: seq<Sys>, moves: seq<Move>, n: nat, key: string)
    requires Trace(cfg, trace, moves) && ResolvesAtomically(trace, moves) && n <= |moves|
    requires key in trace[n].cache && !AccountShaped(trace[n].cache[key].id) && Drained(trace[n].feeds)
    ensures WithinTruth(trace[n].truth, trace[n].cache[key].id, trace[n].cache[key].scope)
  {
    AtomicNoneOvertaken(cfg, trace, moves, n);
    WatchMissesNothing(cfg, trace, moves, n, key);
  }

  // ----- An overtaken resolution -----

  const VIEWER: Binding := Binding(RoleRef("ClusterRole", "view"), [Subject("User", "", "u")])
  const CALLER: Identity := Identity("u", "", [])
  const ROLES: map<string, Role> := map["view" := Role(true, 0)]
  const REVOKE: Edit<string, Binding> := Edit("b", Some(VIEWER), None)
  const GRANTED: Cluster := Cluster(map[], map[], ROLES, map[], map["b" := VIEWER])
  const REVOKED: Cluster := Cluster(map[], map[], ROLES, map[], map[])
  const ALL: Scope := Scope(true, {})

  function Copies(f: Feed<string, Binding>): Feeds {
    Feeds(Feed(map[], [], []), Feed(map[], [], []), Feed(ROLES, [], []), Feed(map[], [], []), f)
  }

  function During(truth: Cluster, f: Feed<string, Binding>, flights: map<string, Flight>, steps: nat): Sys {
    Sys(0, truth, Copies(f), map[], map[], flights, if steps > 1 then multiset{CacheKey(CALLER)} else multiset{}, multiset{}, multiset{}, multiset{}, steps)
  }

  function Flying(phase: Phase, scope: Scope, overtaken: bool): map<string, Flight> {
    map[CacheKey(CALLER) := Flight(CALLER, phase, 0, {}, {}, map[], false, scope, overtaken)]
  }

  const IDLE: Feed<string, Binding> := Feed(map["b" := VIEWER], [], [])
  const GONE: Feed<string, Binding> := Feed(map[], [], [])

  function AtStep(cfg: Config, i: nat): Sys {
    if i == 0 then During(GRANTED, IDLE, map[], 0)
    else if i == 1 then During(GRANTED, IDLE, Flying(Checking, Scope(false, {}), false), 1)
    else if i == 2 then During(GRANTED, IDLE, Flying(AskingAll, Scope(false, {}), false), 2)
    else if i == 3 then During(GRANTED, IDLE, Flying(Resolved, ALL, false), 3)
    else if i == 4 then During(REVOKED, IDLE.(queue := [REVOKE]), Flying(Resolved, ALL, false), 4)
    else if i == 5 then During(REVOKED, GONE.(notes := [REVOKE]), Flying(Resolved, ALL, false), 5)
    else if i == 6 then During(REVOKED, GONE, Flying(Resolved, ALL, true), 6)
    else Sys(0, REVOKED, Copies(GONE), map[CacheKey(CALLER) := Entry(ALL, cfg.ttl, CALLER)],
             map[CacheKey(CALLER) := Origin(0, 0, 6, {}, true)], map[], multiset{CacheKey(CALLER)}, multiset{}, multiset{CacheKey(CALLER)}, multiset{}, 7)
  }

  const MOVES: seq<Move> := [
    Begin(CALLER), Recheck(CacheKey(CALLER)), AnswerAll(CacheKey(CALLER)),
    ApiWrite(ClusterRoleBindingWrite(REVOKE)), Ingest(ClusterBindings), Handle(ClusterBindings), Store(CacheKey(CALLER))]

  lemma Resolving(cfg: Config)
    requires cfg.ttl > 0
    ensures Acts(cfg, AtStep(cfg, 0), MOVES[0], AtStep(cfg, 1))
    ensures Acts(cfg, AtStep(cfg, 1), MOVES[1], AtStep(cfg, 2))
    ensures Acts(cfg, AtStep(cfg, 2), MOVES[2], AtStep(cfg, 3))
  {
    var s := Subject("User", "", "u");
    assert s in VIEWER.subjects && Names(s, CALLER);
    assert GrantedClusterWide(GRANTED, CALLER, "b");
  }

  lemma Revoking(cfg: Config)
    ensures Acts(cfg, AtStep(cfg, 3), MOVES[3], AtStep(cfg, 4))
    ensures Acts(cfg, AtStep(cfg, 4), MOVES[4], AtStep(cfg, 5))
  {
    assert map["b" := VIEWER] - {"b"} == map[];
    assert [] + [REVOKE] == [REVOKE] && [REVOKE][1..] == [];
  }

  lemma MarksFlight(s: Sys)
    requires s == During(REVOKED, GONE.(notes := [REVOKE]), Flying(Resolved, ALL, false), 5)
    ensures (map k | k in s.flights :: Marked(s.feeds, ClusterRoleBindingWrite(REVOKE), s.flights[k])) == Flying(Resolved, ALL, true)
  {
    var subject := Subject("User", "", "u");
    assert subject in VIEWER.subjects && Names(subject, CALLER);
    assert Overtakes(s.feeds, ClusterRoleBindingWrite(REVOKE), s.flights[CacheKey(CALLER)]);
  }

  lemma Overtaking(cfg: Config)
    ensures Acts(cfg, AtStep(cfg, 5), MOVES[5], AtStep(cfg, 6))
  {
    var s := AtStep(cfg, 5);
    MarksFlight(s);
    assert [REVOKE][1..] == [];
    assert Spared(s.cache, s.feeds.bindings.view, s.feeds.clusterBindings.view, ClusterRoleBindingWrite(REVOKE)) == map[];
    assert s.ended + multiset(s.cache.Keys - s.cache.Keys) == s.ended;
  }

  /** Storing into an empty cache. */
  lemma FirstStore(cfg: Config, s: Sys, key: string, s': Sys)
    requires cfg.maxCache > 0 && key in s.flights && s.flights[key].phase.Resolved?
    requires s.cache == map[] && s.origins == map[] && s.stores == multiset{} && s.ended == multiset{}
    requires
      var f := s.flights[key];
      s' == s.(cache := map[key := Entry(f.scope, s.now + cfg.ttl, f.id)],
               origins := map[key := Origin(f.began, s.now, s.steps, f.listed, f.overtaken)],
               flights := s.flights - {key}, stores := multiset{key}, steps := s.steps + 1)
    ensures Stored(cfg, s, key, s')
  {
    var f := s.flights[key];
    assert Stores(s.cache, s'.cache, key, Entry(f.scope, s.now + cfg.ttl, f.id), cfg.maxCache, s.now) by {
      assert RoomMade(s.cache, map[], cfg.maxCache, s.now);
    }
    assert s.stores + multiset{key} == multiset{key};
    var gone := (s.cache.Keys - s'.cache.Keys) + ({key} * s.cache.Keys);
    assert gone == {} && s.ended + multiset(gone) == s.ended;
  }

  lemma StoringStale(cfg: Config)
    requires cfg.maxCache > 0
    ensures Acts(cfg, AtStep(cfg, 6), MOVES[6], AtStep(cfg, 7))
  {
    var s, key := AtStep(cfg, 6), CacheKey(CALLER);
    assert s.flights - {key} == map[];
    FirstStore(cfg, s, key, AtStep(cfg, 7));
  }

  lemma EachStep(cfg: Config, i: nat)
    requires cfg.ttl > 0 && cfg.maxCache > 0 && i < 7
    ensures Acts(cfg, AtStep(cfg, i), MOVES[i], AtStep(cfg, i + 1))
  {
    if i < 3 {
      Resolving(cfg);
    } else if i < 5 {
      Revoking(cfg);
    } else if i < 6 {
      Overtaking(cfg);
    } else {
      StoringStale(cfg);
    }
  }

  lemma StepOfRun(cfg: Config, trace: seq<Sys>, i: nat)
    requires cfg.ttl > 0 && cfg.maxCache > 0 && i < 7 && |trace| == 8
    requires trace[i] == AtStep(cfg, i) && trace[i + 1] == AtStep(cfg, i + 1)
    ensures StepAt(cfg, trace, MOVES, i)
  {
    EachStep(cfg, i);
  }

  lemma OvertakenRun(cfg: Config) returns (trace: seq<Sys>)
    requires cfg.ttl > 0 && cfg.maxCache > 0
    ensures Trace(cfg, trace, MOVES) && trace[7] == AtStep(cfg, 7)
  {
    trace := seq(8, i requires 0 <= i < 8 => AtStep(cfg, i));
    forall i | 0 <= i < 7 ensures StepAt(cfg, trace, MOVES, i) {
      StepOfRun(cfg, trace, i);
    }
  }

  /** An overtaken resolution does leave a cached scope beyond truth, with every event delivered. */
  lemma OvertakenExceedsTruth(cfg: Config) returns (trace: seq<Sys>)
    requires cfg.ttl > 0 && cfg.maxCache > 0
    ensures Trace(cfg, trace, MOVES)
    ensures
      var last := trace[7];
      && Drained(last.feeds) && CacheKey(CALLER) in last.cache
      && !WithinTruth(last.truth, CALLER, last.cache[CacheKey(CALLER)].scope)
  {
    trace := OvertakenRun(cfg);
    StaleAtEnd(cfg);
  }

  lemma StaleAtEnd(cfg: Config)
    ensures
      var last := AtStep(cfg, 7);
      && Drained(last.feeds) && CacheKey(CALLER) in last.cache
      && !WithinTruth(last.truth, CALLER, last.cache[CacheKey(CALLER)].scope)
  {
    assert !CanList(REVOKED, CALLER, "");
  }
}
