/**
 The scope cache as a concurrent protocol: API writes and their delivery by the
 informers, resolutions in flight, the cache, and the clock, in any interleaving.

 Informers deliver each kind in order but kinds independently.  Delivery has two
 stages, because an informer updates its local copy before its handler runs.
 Of one resolution every call is a step of its own, so truth may change between
 any two of them.  At most one resolution per cache key is in flight.
 */
module Protocol {
  import opened Options
  import opened Identity
  import opened Authz
  import opened ClusterRbac
  import opened ScopeCache

  datatype Config = Config(ttl: int, concurrency: nat, maxCache: int)

  // ----- Informers -----

  /** view: the local copy; queue: written, not yet in the copy; notes: in the copy, not yet handled. */
  datatype Feed<K, V> = Feed(view: map<K, V>, queue: seq<Edit<K, V>>, notes: seq<Edit<K, V>>)

  datatype Feeds = Feeds(
    namespaces: Feed<string, Namespace>,
    roles: Feed<Key, Role>,
    clusterRoles: Feed<string, Role>,
    bindings: Feed<Key, Binding>,
    clusterBindings: Feed<string, Binding>)

  datatype Kind = Namespaces | Roles | ClusterRoles | Bindings | ClusterBindings

  function Push<K, V>(f: Feed<K, V>, e: Edit<K, V>): Feed<K, V> {
    f.(queue := f.queue + [e])
  }

  function Ingested<K(==), V>(f: Feed<K, V>): Feed<K, V>
    requires f.queue != []
  {
    Feed(Edited(f.view, f.queue[0]), f.queue[1..], f.notes + [f.queue[0]])
  }

  function Handled<K, V>(f: Feed<K, V>): Feed<K, V>
    requires f.notes != []
  {
    f.(notes := f.notes[1..])
  }

  function PushWrite(fs: Feeds, w: Write): Feeds {
    match w
    case NamespaceWrite(e) => fs.(namespaces := Push(fs.namespaces, e))
    case RoleWrite(e) => fs.(roles := Push(fs.roles, e))
    case ClusterRoleWrite(e) => fs.(clusterRoles := Push(fs.clusterRoles, e))
    case RoleBindingWrite(e) => fs.(bindings := Push(fs.bindings, e))
    case ClusterRoleBindingWrite(e) => fs.(clusterBindings := Push(fs.clusterBindings, e))
  }

  predicate CanIngest(fs: Feeds, kind: Kind) {
    match kind
    case Namespaces => fs.namespaces.queue != []
    case Roles => fs.roles.queue != []
    case ClusterRoles => fs.clusterRoles.queue != []
    case Bindings => fs.bindings.queue != []
    case ClusterBindings => fs.clusterBindings.queue != []
  }

  function IngestKind(fs: Feeds, kind: Kind): Feeds
    requires CanIngest(fs, kind)
  {
    match kind
    case Namespaces => fs.(namespaces := Ingested(fs.namespaces))
    case Roles => fs.(roles := Ingested(fs.roles))
    case ClusterRoles => fs.(clusterRoles := Ingested(fs.clusterRoles))
    case Bindings => fs.(bindings := Ingested(fs.bindings))
    case ClusterBindings => fs.(clusterBindings := Ingested(fs.clusterBindings))
  }

  /** The event whose handler of this kind runs next. */
  function NextNote(fs: Feeds, kind: Kind): Option<Write> {
    match kind
    case Namespaces => if fs.namespaces.notes == [] then None else Some(NamespaceWrite(fs.namespaces.notes[0]))
    case Roles => if fs.roles.notes == [] then None else Some(RoleWrite(fs.roles.notes[0]))
    case ClusterRoles => if fs.clusterRoles.notes == [] then None else Some(ClusterRoleWrite(fs.clusterRoles.notes[0]))
    case Bindings => if fs.bindings.notes == [] then None else Some(RoleBindingWrite(fs.bindings.notes[0]))
    case ClusterBindings => if fs.clusterBindings.notes == [] then None else Some(ClusterRoleBindingWrite(fs.clusterBindings.notes[0]))
  }

  function HandleKind(fs: Feeds, kind: Kind): Feeds
    requires NextNote(fs, kind).Some?
  {
    match kind
    case Namespaces => fs.(namespaces := Handled(fs.namespaces))
    case Roles => fs.(roles := Handled(fs.roles))
    case ClusterRoles => fs.(clusterRoles := Handled(fs.clusterRoles))
    case Bindings => fs.(bindings := Handled(fs.bindings))
    case ClusterBindings => fs.(clusterBindings := Handled(fs.clusterBindings))
  }

  // ----- Resolutions in flight -----

  datatype Phase = Checking | AskingAll | Listing | Reviewing | Resolved

  /**
   began: when the re-check missed, from which the sweep's deadline runs.
   overtaken (history): some invalidation that ran meanwhile would have evicted
   an entry holding what had been gathered by then.
   */
  datatype Flight = Flight(
    id: Identity, phase: Phase, began: int,
    listed: set<string>, inFlight: set<string>, answers: map<string, bool>, failed: bool,
    scope: Scope, overtaken: bool)

  function Launch(id: Identity): Flight {
    Flight(id, Checking, 0, {}, {}, map[], false, Scope(false, {}), false)
  }

  predicate Allowed(f: Flight, ns: string) {
    ns in f.answers && f.answers[ns]
  }

  /** The flight has been told yes to something. */
  ghost predicate Claiming(f: Flight) {
    (f.phase.Resolved? && f.scope.all) || exists ns :: Allowed(f, ns)
  }

  ghost predicate Overtakes(fs: Feeds, w: Write, f: Flight) {
    if w.NamespaceWrite? then w.ns.after.None? && w.ns.key in f.listed
    else Claiming(f) && Concerns(fs.bindings.view, fs.clusterBindings.view, w, f.id)
  }

  ghost function Marked(fs: Feeds, w: Write, f: Flight): Flight {
    if Overtakes(fs, w, f) then f.(overtaken := true) else f
  }

  // ----- The system -----

  /** History of an entry: its flight's start, when and at which step it was stored, and the flight's other history. */
  datatype Origin = Origin(began: int, stored: int, step: nat, listed: set<string>, overtaken: bool)

  /**
   History, by key: begun, failed and stores count sweeps begun, failed and
   successful; ended counts entries that are gone.  steps counts steps.
   */
  datatype Sys = Sys(
    now: int, truth: Cluster, feeds: Feeds,
    cache: Cache, origins: map<string, Origin>, flights: map<string, Flight>,
    begun: multiset<string>, failed: multiset<string>, stores: multiset<string>, ended: multiset<string>, steps: nat)

  datatype Move =
    | Tick(to: int)
    | ApiWrite(w: Write)
    | Ingest(kind: Kind)
    | Handle(kind: Kind)
    | Begin(id: Identity)
    | Recheck(key: string)
    | AnswerAll(key: string)
    | ListNamespaces(key: string)
    | Issue(key: string, ns: string)
    | Evaluate(key: string, ns: string)
    | Collect(key: string, ns: string)
    | FailReview(key: string, ns: string)
    | Abort(key: string)
    | Gather(key: string)
    | Store(key: string)
    | SweepCache

  ghost predicate Starting(s: Sys) {
    && s.cache == map[] && s.origins == map[] && s.flights == map[]
    && s.begun == s.failed == s.stores == s.ended == multiset{} && s.steps == 0
    && s.feeds == Feeds(
         Feed(s.truth.namespaces, [], []), Feed(s.truth.roles, [], []), Feed(s.truth.clusterRoles, [], []),
         Feed(s.truth.roleBindings, [], []), Feed(s.truth.clusterRoleBindings, [], []))
  }

  /** The move is one a resolution in flight makes on its own. */
  predicate IsFlightMove(move: Move) {
    move.Recheck? || move.AnswerAll? || move.ListNamespaces? || move.Issue? || move.Evaluate?
    || move.Collect? || move.FailReview? || move.Abort? || move.Gather?
  }

  /** The flight after the move; None when the move ends it without an entry. */
  ghost function Flown(cfg: Config, s: Sys, move: Move, f: Flight): Option<Flight>
    requires IsFlightMove(move)
  {
    match move
    case Recheck(key) => if Live(s.cache, key, s.now) then None else Some(f.(phase := AskingAll, began := s.now))
    case AnswerAll(_) =>
      if CanList(s.truth, f.id, "") then Some(f.(phase := Resolved, scope := Scope(true, {}))) else Some(f.(phase := Listing))
    case ListNamespaces(_) => Some(f.(phase := Reviewing, listed := s.truth.namespaces.Keys))
    case Issue(_, ns) => Some(f.(inFlight := f.inFlight + {ns}))
    case Evaluate(_, ns) => Some(f.(answers := f.answers[ns := CanList(s.truth, f.id, ns)]))
    case Collect(_, ns) => Some(f.(inFlight := f.inFlight - {ns}))
    case FailReview(_, ns) => Some(f.(inFlight := f.inFlight - {ns}, failed := true))
    case Abort(_) => None
    case Gather(_) => Some(f.(phase := Resolved, scope := Scope(false, set ns | ns in f.answers && f.answers[ns])))
  }

  /** When a flight may make the move; replies count only up to the sweep's deadline. */
  predicate MayFly(cfg: Config, s: Sys, move: Move, f: Flight)
    requires IsFlightMove(move)
  {
    var inTime := s.now <= f.began + cfg.ttl;
    match move
    case Recheck(_) => f.phase.Checking?
    case AnswerAll(_) => f.phase.AskingAll? && inTime
    case ListNamespaces(_) => f.phase.Listing? && inTime
    case Issue(_, ns) => f.phase.Reviewing? && ns in f.listed && ns !in f.inFlight && ns !in f.answers && |f.inFlight| < cfg.concurrency
    case Evaluate(_, ns) => f.phase.Reviewing? && ns in f.inFlight && ns !in f.answers
    case Collect(_, ns) => f.phase.Reviewing? && ns in f.inFlight && ns in f.answers && inTime
    case FailReview(_, ns) => f.phase.Reviewing? && ns in f.inFlight
    case Abort(_) => f.phase.AskingAll? || f.phase.Listing? || (f.phase.Reviewing? && f.inFlight == {} && f.failed)
    case Gather(_) => f.phase.Reviewing? && f.inFlight == {} && !f.failed && f.answers.Keys == f.listed
  }

  /** The system with another cache; entries that are gone have ended. */
  ghost function Recached(s: Sys, cache: Cache): Sys {
    s.(cache := cache, origins := map k | k in s.origins && k in cache :: s.origins[k],
       ended := s.ended + multiset(s.cache.Keys - cache.Keys))
  }

  ghost predicate Stored(cfg: Config, s: Sys, key: string, s': Sys)
    requires key in s.flights
  {
    var f := s.flights[key];
    && f.phase.Resolved?
    && Stores(s.cache, s'.cache, key, Entry(f.scope, s.now + cfg.ttl, f.id), cfg.maxCache, s.now)
    && s' == s.(
         cache := s'.cache,
         origins := (map k | k in s.origins && k in s'.cache :: s.origins[k])[key := Origin(f.began, s.now, s.steps, f.listed, f.overtaken)],
         flights := s.flights - {key},
         stores := s.stores + multiset{key},
         ended := s.ended + multiset((s.cache.Keys - s'.cache.Keys) + ({key} * s.cache.Keys)),
         steps := s.steps + 1)
  }

  /** Storing a resolution leaves truth, feeds and every other resolution, entry it keeps and origin as they were. */
  lemma StoredFrame(cfg: Config, s: Sys, key: string, s': Sys)
    requires key in s.flights && Stored(cfg, s, key, s')
    ensures s.flights[key].phase.Resolved? && key in s'.cache
    ensures s'.cache[key] == Entry(s.flights[key].scope, s.now + cfg.ttl, s.flights[key].id)
    ensures forall k :: k in s'.cache && k != key ==> k in s.cache && s'.cache[k] == s.cache[k]
    ensures s'.truth == s.truth && s'.feeds == s.feeds && s'.flights == s.flights - {key}
    ensures key in s'.origins && s'.origins[key].overtaken == s.flights[key].overtaken
    ensures s.origins.Keys == s.cache.Keys ==>
      s'.origins.Keys == s'.cache.Keys && forall k :: k in s'.cache && k != key ==> s'.origins[k] == s.origins[k]
  {
    StoreFrame(s.cache, s'.cache, key, Entry(s.flights[key].scope, s.now + cfg.ttl, s.flights[key].id), cfg.maxCache, s.now);
  }

  ghost function SetFlight(s: Sys, key: string, f: Option<Flight>): Sys {
    s.(flights := if f.Some? then s.flights[key := f.value] else s.flights - {key})
  }

  /** The system after a resolution's own move: a missed re-check begins a sweep, an abort fails one. */
  ghost function Flew(cfg: Config, s: Sys, move: Move): Sys
    requires IsFlightMove(move) && move.key in s.flights
  {
    var g := Flown(cfg, s, move, s.flights[move.key]);
    SetFlight(s, move.key, g).(
      begun := if move.Recheck? && g.Some? then s.begun + multiset{move.key} else s.begun,
      failed := if move.Abort? then s.failed + multiset{move.key} else s.failed,
      steps := s.steps + 1)
  }

  ghost predicate Acts(cfg: Config, s: Sys, move: Move, s': Sys) {
    if IsFlightMove(move) then
      && move.key in s.flights && MayFly(cfg, s, move, s.flights[move.key])
      && s' == Flew(cfg, s, move)
    else match move
      case Tick(to) => s.now <= to && s' == s.(now := to, steps := s.steps + 1)
      case ApiWrite(w) =>
        AccurateWrite(s.truth, w) && s' == s.(truth := Written(s.truth, w), feeds := PushWrite(s.feeds, w), steps := s.steps + 1)
      case Ingest(kind) => CanIngest(s.feeds, kind) && s' == s.(feeds := IngestKind(s.feeds, kind), steps := s.steps + 1)
      case Handle(kind) =>
        && NextNote(s.feeds, kind).Some?
        && var w := NextNote(s.feeds, kind).value;
           s' == Recached(s, Spared(s.cache, s.feeds.bindings.view, s.feeds.clusterBindings.view, w)).(
             feeds := HandleKind(s.feeds, kind),
             flights := map k | k in s.flights :: Marked(s.feeds, w, s.flights[k]),
             steps := s.steps + 1)
      case Begin(id) =>
        CacheKey(id) !in s.flights && s' == s.(flights := s.flights[CacheKey(id) := Launch(id)], steps := s.steps + 1)
      case Store(key) => key in s.flights && Stored(cfg, s, key, s')
      case SweepCache => s' == Recached(s, Unexpired(s.cache, s.now)).(steps := s.steps + 1)
  }

  // ----- Runs -----

  ghost predicate StepAt(cfg: Config, trace: seq<Sys>, moves: seq<Move>, i: nat)
    requires i < |moves| && |trace| == |moves| + 1
  {
    Acts(cfg, trace[i], moves[i], trace[i + 1])
  }

  ghost predicate Trace(cfg: Config, trace: seq<Sys>, moves: seq<Move>) {
    && |trace| == |moves| + 1 && Starting(trace[0])
    && forall i :: 0 <= i < |moves| ==> StepAt(cfg, trace, moves, i)
  }
}
