/**
 Every answer the cache gives was true not long ago: each entry is the full
 result of one successful resolution, and each of its grants and refusals was
 the API server's answer at some moment since that resolution began.
 */
module Staleness {
  import opened Identity
  import opened Authz
  import opened ClusterRbac
  import opened ScopeCache
  import opened Protocol
  import opened Singleflight

  /** At some moment of the run up to n, from since to until, the API server's answer was yes or no as given. */
  ghost predicate Answered(trace: seq<Sys>, n: nat, since: int, until: int, id: Identity, ns: string, yes: bool)
    requires n < |trace|
  {
    exists j :: 0 <= j <= n && since <= trace[j].now <= until && CanList(trace[j].truth, id, ns) == yes
  }

  /** At some moment up to n, from since to until, these were the cluster's namespaces. */
  ghost predicate WereListed(trace: seq<Sys>, n: nat, since: int, until: int, listed: set<string>)
    requires n < |trace|
  {
    exists j :: 0 <= j <= n && since <= trace[j].now <= until && trace[j].truth.namespaces.Keys == listed
  }

  /** When a review was answered at the latest: by now while its reply is out, and by the deadline once that is in. */
  function Latest(cfg: Config, now: int, f: Flight, ns: string): int {
    if ns in f.inFlight then now else f.began + cfg.ttl
  }

  /** What a resolution that has not failed has gathered was answered since it began and, once replied, by its deadline. */
  ghost predicate FlightAnswered(cfg: Config, trace: seq<Sys>, n: nat, f: Flight)
    requires n < |trace|
  {
    && (!f.failed ==> forall ns :: ns in f.answers ==>
          Answered(trace, n, f.began, Latest(cfg, trace[n].now, f, ns), f.id, ns, f.answers[ns]))
    && (f.phase.Resolved? && f.scope.all ==> Answered(trace, n, f.began, f.began + cfg.ttl, f.id, "", true))
    && (f.phase.Reviewing? || (f.phase.Resolved? && !f.scope.all) ==> WereListed(trace, n, f.began, f.began + cfg.ttl, f.listed))
  }

  /** The scope is the full answer of a resolution that ran from since to until, over the namespaces listed. */
  ghost predicate FullAnswer(trace: seq<Sys>, n: nat, since: int, until: int, id: Identity, scope: Scope, listed: set<string>)
    requires n < |trace|
  {
    if scope.all then Answered(trace, n, since, until, id, "", true)
    else
      && WereListed(trace, n, since, until, listed) && scope.namespaces <= listed
      && forall ns :: ns in listed ==> Answered(trace, n, since, until, id, ns, ns in scope.namespaces)
  }

  // ----- Answers last -----

  lemma AnsweredLasts(trace: seq<Sys>, n: nat)
    requires n + 1 < |trace|
    ensures forall since, until, id, ns, yes :: Answered(trace, n, since, until, id, ns, yes) ==> Answered(trace, n + 1, since, until, id, ns, yes)
    ensures forall since, until, listed :: WereListed(trace, n, since, until, listed) ==> WereListed(trace, n + 1, since, until, listed)
  {
  }

  /** An answer stands when the clock goes on. */
  lemma AnsweredLater(trace: seq<Sys>, n: nat, since: int, until: int, later: int, id: Identity, ns: string, yes: bool)
    requires n < |trace| && Answered(trace, n, since, until, id, ns, yes) && until <= later
    ensures Answered(trace, n, since, later, id, ns, yes)
  {
  }

  lemma FlightAnsweredLasts(cfg: Config, trace: seq<Sys>, n: nat, f: Flight)
    requires n + 1 < |trace| && trace[n].now <= trace[n + 1].now && FlightAnswered(cfg, trace, n, f)
    ensures FlightAnswered(cfg, trace, n + 1, f)
  {
    AnsweredLasts(trace, n);
    if !f.failed {
      forall ns | ns in f.answers
        ensures Answered(trace, n + 1, f.began, Latest(cfg, trace[n + 1].now, f, ns), f.id, ns, f.answers[ns])
      {
        AnsweredLater(trace, n, f.began, Latest(cfg, trace[n].now, f, ns), Latest(cfg, trace[n + 1].now, f, ns), f.id, ns, f.answers[ns]);
      }
    }
  }

  lemma FullAnswerLasts(trace: seq<Sys>, n: nat, since: int, until: int, id: Identity, scope: Scope, listed: set<string>)
    requires n + 1 < |trace| && FullAnswer(trace, n, since, until, id, scope, listed)
    ensures FullAnswer(trace, n + 1, since, until, id, scope, listed)
  {
    AnsweredLasts(trace, n);
  }

  // ----- Resolutions gather true answers -----

  lemma FlownAnswered(cfg: Config, trace: seq<Sys>, n: nat, move: Move, f: Flight)
    requires n < |trace| && IsFlightMove(move) && MayFly(cfg, trace[n], move, f) && FlightOk(cfg, f)
    requires FlightAnswered(cfg, trace, n, f) && (f.phase.Checking? || f.began <= trace[n].now)
    ensures Flown(cfg, trace[n], move, f).Some? ==> FlightAnswered(cfg, trace, n, Flown(cfg, trace[n], move, f).value)
  {
    match move
    case Evaluate(_, _) =>
      EvaluatedAnswered(cfg, trace, n, move, f);
    case Collect(_, _) =>
      CollectedAnswered(cfg, trace, n, move, f);
    case AnswerAll(_) =>
      assert CanList(trace[n].truth, f.id, "") ==> Answered(trace, n, f.began, f.began + cfg.ttl, f.id, "", true);
    case ListNamespaces(_) =>
      assert WereListed(trace, n, f.began, f.began + cfg.ttl, trace[n].truth.namespaces.Keys);
    case _ =>
  }

  lemma CollectedAnswered(cfg: Config, trace: seq<Sys>, n: nat, move: Move, f: Flight)
    requires n < |trace| && move.Collect? && MayFly(cfg, trace[n], move, f) && FlightAnswered(cfg, trace, n, f)
    ensures FlightAnswered(cfg, trace, n, Flown(cfg, trace[n], move, f).value)
  {
    var g := Flown(cfg, trace[n], move, f).value;
    if !f.failed {
      forall m | m in g.answers
        ensures Answered(trace, n, g.began, Latest(cfg, trace[n].now, g, m), g.id, m, g.answers[m])
      {
        if m == move.ns {
          AnsweredLater(trace, n, f.began, trace[n].now, f.began + cfg.ttl, f.id, m, f.answers[m]);
        }
      }
    }
  }

  lemma EvaluatedAnswered(cfg: Config, trace: seq<Sys>, n: nat, move: Move, f: Flight)
    requires n < |trace| && move.Evaluate? && MayFly(cfg, trace[n], move, f)
    requires FlightAnswered(cfg, trace, n, f) && f.began <= trace[n].now
    ensures FlightAnswered(cfg, trace, n, Flown(cfg, trace[n], move, f).value)
  {
    var g := Flown(cfg, trace[n], move, f).value;
    assert Answered(trace, n, f.began, trace[n].now, f.id, move.ns, CanList(trace[n].truth, f.id, move.ns));
    if !f.failed {
      forall m | m in g.answers
        ensures Answered(trace, n, g.began, Latest(cfg, trace[n].now, g, m), g.id, m, g.answers[m])
      {
        assert m == move.ns || m in f.answers;
      }
    }
  }

  lemma MarkedAnswered(cfg: Config, trace: seq<Sys>, n: nat, f: Flight)
    requires n < |trace| && FlightAnswered(cfg, trace, n, f)
    ensures FlightAnswered(cfg, trace, n, f.(overtaken := true))
  {
  }

  /** The resolution a step leaves under key, as it was before the step. */
  lemma FlightStepAnswered(cfg: Config, trace: seq<Sys>, moves: seq<Move>, i: nat, key: string)
    requires Trace(cfg, trace, moves) && i < |moves| && key in trace[i + 1].flights
    requires forall k :: k in trace[i].flights ==> FlightAnswered(cfg, trace, i, trace[i].flights[k])
    ensures FlightAnswered(cfg, trace, i + 1, trace[i + 1].flights[key])
  {
    RunFlights(cfg, trace, moves, i);
    assert StepAt(cfg, trace, moves, i);
    AnsweredBefore(cfg, trace, moves, i, key);
    FlightAnsweredLasts(cfg, trace, i, trace[i + 1].flights[key]);
  }

  lemma AnsweredBefore(cfg: Config, trace: seq<Sys>, moves: seq<Move>, i: nat, key: string)
    requires |trace| == |moves| + 1 && i < |moves| && FlightInv(cfg, trace[i])
    requires Acts(cfg, trace[i], moves[i], trace[i + 1]) && key in trace[i + 1].flights
    requires forall k :: k in trace[i].flights ==> FlightAnswered(cfg, trace, i, trace[i].flights[k])
    ensures FlightAnswered(cfg, trace, i, trace[i + 1].flights[key])
  {
    var move := moves[i];
    if IsFlightMove(move) && move.key == key {
      FlownAnswered(cfg, trace, i, move, trace[i].flights[key]);
    } else if move.Handle? {
      MarkedAnswered(cfg, trace, i, trace[i].flights[key]);
    }
  }

  lemma {:induction false} FlightsAnswered(cfg: Config, trace: seq<Sys>, moves: seq<Move>, n: nat)
    requires Trace(cfg, trace, moves) && n <= |moves|
    ensures forall k :: k in trace[n].flights ==> FlightAnswered(cfg, trace, n, trace[n].flights[k])
  {
    if n > 0 {
      FlightsAnswered(cfg, trace, moves, n - 1);
      forall k | k in trace[n].flights ensures FlightAnswered(cfg, trace, n, trace[n].flights[k]) {
        FlightStepAnswered(cfg, trace, moves, n - 1, k);
      }
    }
  }

  // ----- Entries are full answers -----

  lemma ResolvedIsFullAnswer(cfg: Config, trace: seq<Sys>, n: nat, f: Flight)
    requires n < |trace| && f.phase.Resolved? && FlightOk(cfg, f) && FlightAnswered(cfg, trace, n, f)
    ensures FullAnswer(trace, n, f.began, f.began + cfg.ttl, f.id, f.scope, f.listed)
  {
  }

  /** The entry is the full answer of the resolution it came from, given from its re-check to its deadline. */
  ghost predicate FullyAnswered(cfg: Config, trace: seq<Sys>, n: nat, key: string)
    requires n < |trace| && key in trace[n].cache
  {
    && key in trace[n].origins
    && var o, e := trace[n].origins[key], trace[n].cache[key];
       FullAnswer(trace, n, o.began, o.began + cfg.ttl, e.id, e.scope, o.listed)
  }

  /**
   Every cached entry is the full answer of one successful resolution: unrestricted,
   or exactly those of the namespaces then listed that were answered yes, every
   answer given after the resolution's re-check and by its deadline.
   */
  lemma {:induction false} EntriesAreFullAnswers(cfg: Config, trace: seq<Sys>, moves: seq<Move>, n: nat, key: string)
    requires Trace(cfg, trace, moves) && n <= |moves| && key in trace[n].cache
    ensures FullyAnswered(cfg, trace, n, key)
    decreases n
  {
    if n > 0 {
      if moves[n - 1] == Store(key) {
        StoredIsFullAnswer(cfg, trace, moves, n - 1, key);
      } else {
        EntryUnchanged(cfg, trace, moves, n - 1, key);
        EntriesAreFullAnswers(cfg, trace, moves, n - 1, key);
        KeptIsFullAnswer(cfg, trace, n - 1, key);
      }
    }
  }

  lemma KeptIsFullAnswer(cfg: Config, trace: seq<Sys>, i: nat, key: string)
    requires i + 1 < |trace| && key in trace[i].cache && FullyAnswered(cfg, trace, i, key)
    requires key in trace[i + 1].cache && trace[i + 1].cache[key] == trace[i].cache[key]
    requires key in trace[i + 1].origins && trace[i + 1].origins[key] == trace[i].origins[key]
    ensures FullyAnswered(cfg, trace, i + 1, key)
  {
    var o, e := trace[i].origins[key], trace[i].cache[key];
    FullAnswerLasts(trace, i, o.began, o.began + cfg.ttl, e.id, e.scope, o.listed);
  }

  lemma StoredIsFullAnswer(cfg: Config, trace: seq<Sys>, moves: seq<Move>, i: nat, key: string)
    requires Trace(cfg, trace, moves) && i < |moves| && moves[i] == Store(key)
    ensures key in trace[i + 1].cache && FullyAnswered(cfg, trace, i + 1, key)
  {
    FlightsAnswered(cfg, trace, moves, i);
    RunFlights(cfg, trace, moves, i);
    assert StepAt(cfg, trace, moves, i);
    StoredFrame(cfg, trace[i], key, trace[i + 1]);
    var f := trace[i].flights[key];
    ResolvedIsFullAnswer(cfg, trace, i, f);
    FullAnswerLasts(trace, i, f.began, f.began + cfg.ttl, f.id, f.scope, f.listed);
  }

  // ----- The staleness bound -----

  /** The scope grants ns; an unrestricted one grants the question asked of all namespaces. */
  predicate Granted(scope: Scope, ns: string) {
    if scope.all then ns == "" else ns in scope.namespaces
  }

  /** A cached grant was true at some moment later than now less the TTL and the time its resolution took. */
  lemma StalenessBound(cfg: Config, trace: seq<Sys>, moves: seq<Move>, n: nat, key: string, ns: string)
    requires Trace(cfg, trace, moves) && n <= |moves| && Live(trace[n].cache, key, trace[n].now)
    requires Granted(trace[n].cache[key].scope, ns)
    ensures key in trace[n].origins
    ensures
      var o := trace[n].origins[key];
      && Answered(trace, n, o.began, o.began + cfg.ttl, trace[n].cache[key].id, ns, true)
      && o.began > trace[n].now - cfg.ttl - (o.stored - o.began)
  {
    EntriesAreFullAnswers(cfg, trace, moves, n, key);
    RunCache(cfg, trace, moves, n);
  }
}
