/**
 The watch misses nothing: whatever the delivery order, every cached grant that
 truth has withdrawn has an undelivered event that will evict it, so once
 everything is delivered no cached scope exceeds what the API server would say.
 The one exception is an entry whose resolution was overtaken by an invalidation.
 */
module WatchCompleteness {
  import opened Options
  import opened Identity
  import opened Authz
  import opened ClusterRbac
  import opened ScopeCache
  import opened Protocol

  // ----- Undelivered events -----

  predicate Waits<K(==), V(==)>(f: Feed<K, V>, e: Edit<K, V>) {
    e in f.queue || e in f.notes
  }

  /** The write has not reached its handler yet. */
  predicate Unhandled(fs: Feeds, w: Write) {
    match w
    case NamespaceWrite(e) => Waits(fs.namespaces, e)
    case RoleWrite(e) => Waits(fs.roles, e)
    case ClusterRoleWrite(e) => Waits(fs.clusterRoles, e)
    case RoleBindingWrite(e) => Waits(fs.bindings, e)
    case ClusterRoleBindingWrite(e) => Waits(fs.clusterBindings, e)
  }

  predicate Drained(fs: Feeds) {
    && fs.namespaces.queue == [] && fs.namespaces.notes == []
    && fs.roles.queue == [] && fs.roles.notes == []
    && fs.clusterRoles.queue == [] && fs.clusterRoles.notes == []
    && fs.bindings.queue == [] && fs.bindings.notes == []
    && fs.clusterBindings.queue == [] && fs.clusterBindings.notes == []
  }

  lemma PushedWaits(fs: Feeds, w: Write, v: Write)
    ensures Unhandled(PushWrite(fs, w), v) <==> Unhandled(fs, v) || v == w
  {
  }

  lemma IngestedWaits(fs: Feeds, kind: Kind, v: Write)
    requires CanIngest(fs, kind)
    ensures Unhandled(IngestKind(fs, kind), v) <==> Unhandled(fs, v)
  {
    match kind
    case Namespaces => HeadOrTail(fs.namespaces.queue);
    case Roles => HeadOrTail(fs.roles.queue);
    case ClusterRoles => HeadOrTail(fs.clusterRoles.queue);
    case Bindings => HeadOrTail(fs.bindings.queue);
    case ClusterBindings => HeadOrTail(fs.clusterBindings.queue);
  }

  lemma HandledWaits(fs: Feeds, kind: Kind, v: Write)
    requires NextNote(fs, kind).Some? && Unhandled(fs, v)
    ensures Unhandled(HandleKind(fs, kind), v) || v == NextNote(fs, kind).value
  {
  }

  lemma HeadOrTail<T>(s: seq<T>)
    requires s != []
    ensures forall x :: x in s <==> x == s[0] || x in s[1..]
  {
  }

  // ----- Informer copies trail truth by their queue -----

  ghost predicate Follows<K, V>(view: map<K, V>, queue: seq<Edit<K, V>>, truth: map<K, V>)
    decreases queue
  {
    if queue == [] then view == truth
    else Accurate(view, queue[0]) && Follows(Edited(view, queue[0]), queue[1..], truth)
  }

  lemma {:induction false} FollowsPush<K, V>(view: map<K, V>, queue: seq<Edit<K, V>>, truth: map<K, V>, e: Edit<K, V>)
    requires Follows(view, queue, truth) && Accurate(truth, e)
    ensures Follows(view, queue + [e], Edited(truth, e))
    decreases queue
  {
    if queue == [] {
      assert (queue + [e])[1..] == [];
    } else {
      FollowsPush(Edited(view, queue[0]), queue[1..], truth, e);
      assert (queue + [e])[1..] == queue[1..] + [e];
    }
  }

  /** Copies and truth have the same bindings naming the identity, unless an edit naming it is queued. */
  ghost predicate AgreeOn<K(!new)>(view: map<K, Binding>, truth: map<K, Binding>, id: Identity) {
    forall key :: SubjectOf(Lookup(view, key), id) || SubjectOf(Lookup(truth, key), id) ==> Lookup(view, key) == Lookup(truth, key)
  }

  lemma {:induction false} FollowsAgree<K(!new)>(view: map<K, Binding>, queue: seq<Edit<K, Binding>>, truth: map<K, Binding>, id: Identity)
    requires Follows(view, queue, truth) && forall e :: e in queue ==> !EditNames(e, id)
    ensures AgreeOn(view, truth, id)
    decreases queue
  {
    if queue != [] {
      var next := Edited(view, queue[0]);
      assert queue[0] in queue && forall e :: e in queue[1..] ==> e in queue;
      FollowsAgree(next, queue[1..], truth, id);
      forall key | SubjectOf(Lookup(view, key), id) || SubjectOf(Lookup(truth, key), id)
        ensures Lookup(view, key) == Lookup(truth, key)
      {
        if key != queue[0].key {
          assert Lookup(next, key) == Lookup(view, key);
        }
      }
    }
  }

  ghost predicate Trailing(s: Sys) {
    && Follows(s.feeds.bindings.view, s.feeds.bindings.queue, s.truth.roleBindings)
    && Follows(s.feeds.clusterBindings.view, s.feeds.clusterBindings.queue, s.truth.clusterRoleBindings)
  }

  // ----- Covered grants -----

  /** Some undelivered event concerns the identity, judged by the true bindings. */
  ghost predicate Pending(truth: Cluster, fs: Feeds, id: Identity) {
    exists w :: Unhandled(fs, w) && Concerns(truth.roleBindings, truth.clusterRoleBindings, w, id)
  }

  /** The access still stands, or an undelivered event will withdraw it. */
  ghost predicate AccessCovered(truth: Cluster, fs: Feeds, id: Identity, ns: string) {
    CanList(truth, id, ns) || Pending(truth, fs, id)
  }

  predicate Deletes(w: Write, ns: string) {
    w.NamespaceWrite? && w.ns.key == ns && w.ns.after.None?
  }

  /** The namespace still exists, or its deletion is undelivered. */
  ghost predicate ExistenceCovered(truth: Cluster, fs: Feeds, ns: string) {
    ns in truth.namespaces || exists w :: Unhandled(fs, w) && Deletes(w, ns)
  }

  ghost predicate ScopeCovered(truth: Cluster, fs: Feeds, id: Identity, scope: Scope) {
    && (scope.all ==> AccessCovered(truth, fs, id, ""))
    && (!scope.all ==> forall ns :: ns in scope.namespaces ==> AccessCovered(truth, fs, id, ns) && ExistenceCovered(truth, fs, ns))
  }

  /** What a flight has gathered is covered, and so is the existence of what it listed. */
  ghost predicate FlightCovered(truth: Cluster, fs: Feeds, f: Flight) {
    && (forall ns :: ns in f.listed ==> ExistenceCovered(truth, fs, ns))
    && (forall ns :: Allowed(f, ns) ==> AccessCovered(truth, fs, f.id, ns))
    && (f.phase.Resolved? ==> ScopeCovered(truth, fs, f.id, f.scope) && ScopeFrom(f))
  }

  /** A resolved scope is unrestricted or made of listed namespaces answered yes. */
  ghost predicate ScopeFrom(f: Flight) {
    f.scope.all || forall ns :: ns in f.scope.namespaces ==> Allowed(f, ns) && ns in f.listed
  }

  ghost predicate Covered(s: Sys) {
    && Trailing(s)
    && s.origins.Keys == s.cache.Keys
    && (forall k :: k in s.cache && !s.origins[k].overtaken && !AccountShaped(s.cache[k].id) ==>
          ScopeCovered(s.truth, s.feeds, s.cache[k].id, s.cache[k].scope))
    && (forall k :: k in s.flights && !s.flights[k].overtaken && !AccountShaped(s.flights[k].id) ==>
          FlightCovered(s.truth, s.feeds, s.flights[k]))
  }

  // ----- API writes -----

  /** A write never uncovers access: if it withdraws it, the write itself is now pending. */
  lemma WriteKeepsAccess(truth: Cluster, fs: Feeds, w: Write, id: Identity, ns: string)
    requires AccurateWrite(truth, w) && !AccountShaped(id) && AccessCovered(truth, fs, id, ns)
    ensures AccessCovered(Written(truth, w), PushWrite(fs, w), id, ns)
  {
    var after, fs' := Written(truth, w), PushWrite(fs, w);
    PushedWaits(fs, w, w);
    if CanList(truth, id, ns) && !CanList(after, id, ns) {
      LosersAreConcerned(truth, w, id, ns);
      ConcernSurvives(truth, fs, w, w, id);
    } else if !CanList(truth, id, ns) {
      var v :| Unhandled(fs, v) && Concerns(truth.roleBindings, truth.clusterRoleBindings, v, id);
      PushedWaits(fs, w, v);
      ConcernSurvives(truth, fs, w, v, id);
    }
  }

  /** An undelivered concern stays one: if a write breaks the binding it rests on, that write concerns the identity itself. */
  lemma ConcernSurvives(truth: Cluster, fs: Feeds, w: Write, v: Write, id: Identity)
    requires AccurateWrite(truth, w) && Concerns(truth.roleBindings, truth.clusterRoleBindings, v, id)
    requires Unhandled(PushWrite(fs, w), v) && Unhandled(PushWrite(fs, w), w)
    ensures Pending(Written(truth, w), PushWrite(fs, w), id)
  {
    var after := Written(truth, w);
    if w.RoleBindingWrite? && EditNames(w.binding, id) {
      assert Concerns(after.roleBindings, after.clusterRoleBindings, w, id);
    } else if w.ClusterRoleBindingWrite? && EditNames(w.clusterBinding, id) {
      assert Concerns(after.roleBindings, after.clusterRoleBindings, w, id);
    } else {
      assert AgreeOn(after.roleBindings, truth.roleBindings, id);
      assert AgreeOn(after.clusterRoleBindings, truth.clusterRoleBindings, id);
      ConcernsAgree(truth.roleBindings, after.roleBindings, truth.clusterRoleBindings, after.clusterRoleBindings, v, id);
    }
  }

  /** Whom a write concerns depends only on the bindings naming the identity. */
  lemma ConcernsAgree(a: map<Key, Binding>, b: map<Key, Binding>, x: map<string, Binding>, y: map<string, Binding>, w: Write, id: Identity)
    requires AgreeOn(b, a, id) && AgreeOn(y, x, id) && Concerns(a, x, w, id)
    ensures Concerns(b, y, w, id)
  {
    match w
    case RoleWrite(e) =>
      var key :| key in a && key.0 == e.key.0 && a[key].roleRef == RoleRef("Role", e.key.1) && NamesAny(a[key].subjects, id);
      assert SubjectOf(Lookup(a, key), id) && Lookup(b, key) == Lookup(a, key);
    case ClusterRoleWrite(e) =>
      if key :| RefersAndNames(a, key, e.key, id) {
        assert SubjectOf(Lookup(a, key), id) && Lookup(b, key) == Lookup(a, key);
        assert RefersAndNames(b, key, e.key, id);
      } else {
        var name :| RefersAndNames(x, name, e.key, id);
        assert SubjectOf(Lookup(x, name), id) && Lookup(y, name) == Lookup(x, name);
        assert RefersAndNames(y, name, e.key, id);
      }
    case _ =>
  }

  lemma WriteKeepsExistence(truth: Cluster, fs: Feeds, w: Write, ns: string)
    requires ExistenceCovered(truth, fs, ns)
    ensures ExistenceCovered(Written(truth, w), PushWrite(fs, w), ns)
  {
    PushedWaits(fs, w, w);
    if ns in truth.namespaces {
      assert ns in Written(truth, w).namespaces || Deletes(w, ns);
    } else {
      var v :| Unhandled(fs, v) && Deletes(v, ns);
      PushedWaits(fs, w, v);
    }
  }

  // ----- Deliveries -----

  lemma IngestKeeps(truth: Cluster, fs: Feeds, kind: Kind)
    requires CanIngest(fs, kind)
    ensures forall id, ns :: AccessCovered(truth, fs, id, ns) ==> AccessCovered(truth, IngestKind(fs, kind), id, ns)
    ensures forall ns :: ExistenceCovered(truth, fs, ns) ==> ExistenceCovered(truth, IngestKind(fs, kind), ns)
  {
    forall v ensures Unhandled(IngestKind(fs, kind), v) <==> Unhandled(fs, v) {
      IngestedWaits(fs, kind, v);
    }
  }

  /** If no undelivered binding edit names the identity, the handler sees every binding that does. */
  lemma HandlerSees(s: Sys, w: Write, id: Identity)
    requires Trailing(s) && Concerns(s.truth.roleBindings, s.truth.clusterRoleBindings, w, id)
    requires forall e :: e in s.feeds.bindings.queue ==> !EditNames(e, id)
    requires forall e :: e in s.feeds.clusterBindings.queue ==> !EditNames(e, id)
    ensures Concerns(s.feeds.bindings.view, s.feeds.clusterBindings.view, w, id)
  {
    FollowsAgree(s.feeds.bindings.view, s.feeds.bindings.queue, s.truth.roleBindings, id);
    FollowsAgree(s.feeds.clusterBindings.view, s.feeds.clusterBindings.queue, s.truth.clusterRoleBindings, id);
    ConcernsAgree(s.truth.roleBindings, s.feeds.bindings.view, s.truth.clusterRoleBindings, s.feeds.clusterBindings.view, w, id);
  }

  /** A handler that spares an identity leaves its access covered by another undelivered event. */
  lemma HandleKeepsAccess(s: Sys, kind: Kind, id: Identity, ns: string)
    requires Trailing(s) && NextNote(s.feeds, kind).Some? && AccessCovered(s.truth, s.feeds, id, ns)
    requires !Concerns(s.feeds.bindings.view, s.feeds.clusterBindings.view, NextNote(s.feeds, kind).value, id)
    ensures AccessCovered(s.truth, HandleKind(s.feeds, kind), id, ns)
  {
    if !CanList(s.truth, id, ns) {
      var v :| Unhandled(s.feeds, v) && Concerns(s.truth.roleBindings, s.truth.clusterRoleBindings, v, id);
      HandledWaits(s.feeds, kind, v);
      if v == NextNote(s.feeds, kind).value {
        if e :| e in s.feeds.bindings.queue && EditNames(e, id) {
          HandledWaits(s.feeds, kind, RoleBindingWrite(e));
          assert Concerns(s.truth.roleBindings, s.truth.clusterRoleBindings, RoleBindingWrite(e), id);
        } else if e :| e in s.feeds.clusterBindings.queue && EditNames(e, id) {
          HandledWaits(s.feeds, kind, ClusterRoleBindingWrite(e));
          assert Concerns(s.truth.roleBindings, s.truth.clusterRoleBindings, ClusterRoleBindingWrite(e), id);
        } else {
          HandlerSees(s, v, id);
          assert false;
        }
      }
    }
  }

  lemma HandleKeepsExistence(s: Sys, kind: Kind, ns: string)
    requires NextNote(s.feeds, kind).Some? && ExistenceCovered(s.truth, s.feeds, ns)
    requires !Deletes(NextNote(s.feeds, kind).value, ns)
    ensures ExistenceCovered(s.truth, HandleKind(s.feeds, kind), ns)
  {
    if ns !in s.truth.namespaces {
      var v :| Unhandled(s.feeds, v) && Deletes(v, ns);
      HandledWaits(s.feeds, kind, v);
    }
  }

  // ----- One step -----

  lemma ScopeKept(truth: Cluster, fs: Feeds, truth': Cluster, fs': Feeds, id: Identity, scope: Scope)
    requires ScopeCovered(truth, fs, id, scope)
    requires forall ns :: AccessCovered(truth, fs, id, ns) ==> AccessCovered(truth', fs', id, ns)
    requires forall ns :: ExistenceCovered(truth, fs, ns) && (!scope.all ==> ns in scope.namespaces) ==> ExistenceCovered(truth', fs', ns)
    ensures ScopeCovered(truth', fs', id, scope)
  {
  }

  lemma FlightKept(truth: Cluster, fs: Feeds, truth': Cluster, fs': Feeds, f: Flight)
    requires FlightCovered(truth, fs, f)
    requires forall ns :: AccessCovered(truth, fs, f.id, ns) ==> AccessCovered(truth', fs', f.id, ns)
    requires forall ns :: ExistenceCovered(truth, fs, ns) && ns in f.listed ==> ExistenceCovered(truth', fs', ns)
    ensures FlightCovered(truth', fs', f)
  {
  }

  lemma WriteStep(s: Sys, w: Write, s': Sys)
    requires Covered(s) && AccurateWrite(s.truth, w)
    requires s' == s.(truth := Written(s.truth, w), feeds := PushWrite(s.feeds, w), steps := s.steps + 1)
    ensures Covered(s')
  {
    WriteTrails(s, w, s');
    forall id, ns | !AccountShaped(id) && AccessCovered(s.truth, s.feeds, id, ns) ensures AccessCovered(s'.truth, s'.feeds, id, ns) {
      WriteKeepsAccess(s.truth, s.feeds, w, id, ns);
    }
    forall ns | ExistenceCovered(s.truth, s.feeds, ns) ensures ExistenceCovered(s'.truth, s'.feeds, ns) {
      WriteKeepsExistence(s.truth, s.feeds, w, ns);
    }
    EverythingKept(s, s');
  }

  lemma WriteTrails(s: Sys, w: Write, s': Sys)
    requires Trailing(s) && AccurateWrite(s.truth, w)
    requires s' == s.(truth := Written(s.truth, w), feeds := PushWrite(s.feeds, w), steps := s.steps + 1)
    ensures Trailing(s')
  {
    if w.RoleBindingWrite? {
      FollowsPush(s.feeds.bindings.view, s.feeds.bindings.queue, s.truth.roleBindings, w.binding);
    } else if w.ClusterRoleBindingWrite? {
      FollowsPush(s.feeds.clusterBindings.view, s.feeds.clusterBindings.queue, s.truth.clusterRoleBindings, w.clusterBinding);
    }
  }

  /** If coverage lasts, everything covered stays so. */
  lemma EverythingKept(s: Sys, s': Sys)
    requires Covered(s) && Trailing(s')
    requires s'.cache == s.cache && s'.origins == s.origins && s'.flights == s.flights
    requires forall id, ns :: !AccountShaped(id) && AccessCovered(s.truth, s.feeds, id, ns) ==> AccessCovered(s'.truth, s'.feeds, id, ns)
    requires forall ns :: ExistenceCovered(s.truth, s.feeds, ns) ==> ExistenceCovered(s'.truth, s'.feeds, ns)
    ensures Covered(s')
  {
    forall k | k in s'.cache && !s'.origins[k].overtaken && !AccountShaped(s'.cache[k].id)
      ensures ScopeCovered(s'.truth, s'.feeds, s'.cache[k].id, s'.cache[k].scope)
    {
      ScopeKept(s.truth, s.feeds, s'.truth, s'.feeds, s.cache[k].id, s.cache[k].scope);
    }
    forall k | k in s'.flights && !s'.flights[k].overtaken && !AccountShaped(s'.flights[k].id)
      ensures FlightCovered(s'.truth, s'.feeds, s'.flights[k])
    {
      FlightKept(s.truth, s.feeds, s'.truth, s'.feeds, s.flights[k]);
    }
  }

  lemma IngestStep(s: Sys, kind: Kind, s': Sys)
    requires Covered(s) && CanIngest(s.feeds, kind) && s' == s.(feeds := IngestKind(s.feeds, kind), steps := s.steps + 1)
    ensures Covered(s')
  {
    IngestKeeps(s.truth, s.feeds, kind);
    EverythingKept(s, s');
  }

  lemma HandleStep(s: Sys, kind: Kind, s': Sys)
    requires Covered(s) && NextNote(s.feeds, kind).Some?
    requires
      var w := NextNote(s.feeds, kind).value;
      s' == Recached(s, Spared(s.cache, s.feeds.bindings.view, s.feeds.clusterBindings.view, w)).(
        feeds := HandleKind(s.feeds, kind), flights := map k | k in s.flights :: Marked(s.feeds, w, s.flights[k]), steps := s.steps + 1)
    ensures Covered(s')
  {
    var w := NextNote(s.feeds, kind).value;
    assert Trailing(s');
    forall k | k in s'.cache && !s'.origins[k].overtaken && !AccountShaped(s'.cache[k].id)
      ensures ScopeCovered(s'.truth, s'.feeds, s'.cache[k].id, s'.cache[k].scope)
    {
      SparedCovered(s, kind, s.cache[k]);
    }
    forall k | k in s'.flights && !s'.flights[k].overtaken && !AccountShaped(s'.flights[k].id)
      ensures FlightCovered(s'.truth, s'.feeds, s'.flights[k])
    {
      UnmarkedCovered(s, kind, s.flights[k]);
    }
  }

  lemma SparedCovered(s: Sys, kind: Kind, e: Entry)
    requires Trailing(s) && NextNote(s.feeds, kind).Some? && ScopeCovered(s.truth, s.feeds, e.id, e.scope)
    requires !Hit(s.feeds.bindings.view, s.feeds.clusterBindings.view, NextNote(s.feeds, kind).value, e)
    ensures ScopeCovered(s.truth, HandleKind(s.feeds, kind), e.id, e.scope)
  {
    if e.scope.all {
      HandleKeepsAccess(s, kind, e.id, "");
    } else {
      forall ns | ns in e.scope.namespaces
        ensures AccessCovered(s.truth, HandleKind(s.feeds, kind), e.id, ns) && ExistenceCovered(s.truth, HandleKind(s.feeds, kind), ns)
      {
        HandleKeepsAccess(s, kind, e.id, ns);
        HandleKeepsExistence(s, kind, ns);
      }
    }
  }

  lemma UnmarkedCovered(s: Sys, kind: Kind, f: Flight)
    requires Trailing(s) && NextNote(s.feeds, kind).Some? && FlightCovered(s.truth, s.feeds, f)
    requires !Overtakes(s.feeds, NextNote(s.feeds, kind).value, f)
    ensures FlightCovered(s.truth, HandleKind(s.feeds, kind), f)
  {
    var fs' := HandleKind(s.feeds, kind);
    forall ns | ns in f.listed ensures ExistenceCovered(s.truth, fs', ns) {
      HandleKeepsExistence(s, kind, ns);
    }
    forall ns | Allowed(f, ns) ensures AccessCovered(s.truth, fs', f.id, ns) {
      HandleKeepsAccess(s, kind, f.id, ns);
    }
    if f.phase.Resolved? && f.scope.all {
      HandleKeepsAccess(s, kind, f.id, "");
    }
  }

  /** A flight's own moves keep it covered: a yes is true when it is given. */
  lemma FlightStep(cfg: Config, s: Sys, move: Move, f: Flight)
    requires IsFlightMove(move) && MayFly(cfg, s, move, f) && FlightCovered(s.truth, s.feeds, f)
    ensures Flown(cfg, s, move, f).Some? ==> FlightCovered(s.truth, s.feeds, Flown(cfg, s, move, f).value)
    ensures Flown(cfg, s, move, f).Some? ==> Flown(cfg, s, move, f).value.overtaken == f.overtaken && Flown(cfg, s, move, f).value.id == f.id
  {
    match move
    case Evaluate(_, ns) =>
      var g := Flown(cfg, s, move, f).value;
      forall n | Allowed(g, n) ensures AccessCovered(s.truth, s.feeds, f.id, n) {
        assert n == ns || Allowed(f, n);
      }
    case _ =>
  }

  lemma StoreStep(cfg: Config, s: Sys, key: string, s': Sys)
    requires Covered(s) && key in s.flights && Stored(cfg, s, key, s')
    ensures Covered(s')
  {
    StoredFrame(cfg, s, key, s');
    OneEntryStored(s, key, s.flights[key], s'.cache, s');
  }

  lemma OneEntryStored(s: Sys, key: string, f: Flight, cache: Cache, s': Sys)
    requires Covered(s) && key in s.flights && s.flights[key] == f && f.phase.Resolved?
    requires key in cache && cache[key].scope == f.scope && cache[key].id == f.id
    requires forall k :: k in cache && k != key ==> k in s.cache && cache[k] == s.cache[k]
    requires s'.cache == cache && s'.truth == s.truth && s'.feeds == s.feeds && s'.flights == s.flights - {key}
    requires key in s'.origins && s'.origins[key].overtaken == f.overtaken
    requires s'.origins.Keys == cache.Keys && forall k :: k in cache && k != key ==> s'.origins[k] == s.origins[k]
    ensures Covered(s')
  {
    forall k | k in s'.cache && !s'.origins[k].overtaken && !AccountShaped(s'.cache[k].id)
      ensures ScopeCovered(s'.truth, s'.feeds, s'.cache[k].id, s'.cache[k].scope)
    {
      if k == key {
        assert FlightCovered(s.truth, s.feeds, f);
      }
    }
  }

  lemma FlightMoveStep(cfg: Config, s: Sys, move: Move, s': Sys)
    requires Covered(s) && IsFlightMove(move) && move.key in s.flights && MayFly(cfg, s, move, s.flights[move.key])
    requires s' == Flew(cfg, s, move)
    ensures Covered(s')
  {
    var f := s.flights[move.key];
    var g := Flown(cfg, s, move, f);
    if g.Some? {
      assert g.value.overtaken == f.overtaken && g.value.id == f.id;
      if !f.overtaken && !AccountShaped(f.id) {
        FlightStep(cfg, s, move, f);
      }
    }
    OneFlightChanged(s, move.key, g, s');
  }

  lemma OneFlightChanged(s: Sys, key: string, g: Option<Flight>, s': Sys)
    requires Covered(s) && s' == SetFlight(s, key, g).(begun := s'.begun, failed := s'.failed, steps := s'.steps)
    requires g.Some? && !g.value.overtaken && !AccountShaped(g.value.id) ==> FlightCovered(s.truth, s.feeds, g.value)
    ensures Covered(s')
  {
  }

  /** Dropping entries, advancing the clock and starting a resolution uncover nothing. */
  lemma QuietStep(s: Sys, cache: Cache, s': Sys)
    requires Covered(s) && SubCache(cache, s.cache)
    requires s'.cache == cache && s'.origins == Recached(s, cache).origins
    requires s'.truth == s.truth && s'.feeds == s.feeds
    requires s'.flights == s.flights || exists id :: s'.flights == s.flights[CacheKey(id) := Launch(id)]
    ensures Covered(s')
  {
  }

  /** Every step keeps every unovertaken entry and resolution covered. */
  lemma StepKeepsCovered(cfg: Config, s: Sys, move: Move, s': Sys)
    requires Covered(s) && Acts(cfg, s, move, s')
    ensures Covered(s')
  {
    if IsFlightMove(move) {
      FlightMoveStep(cfg, s, move, s');
    } else {
      match move
      case ApiWrite(w) => WriteStep(s, w, s');
      case Ingest(kind) => IngestStep(s, kind, s');
      case Handle(kind) => HandleStep(s, kind, s');
      case Store(key) => StoreStep(cfg, s, key, s');
      case Tick(_) => SameOrigins(s); QuietStep(s, s.cache, s');
      case Begin(_) => SameOrigins(s); QuietStep(s, s.cache, s');
      case SweepCache => QuietStep(s, Unexpired(s.cache, s.now), s');
    }
  }

  lemma SameOrigins(s: Sys)
    requires s.origins.Keys == s.cache.Keys
    ensures Recached(s, s.cache).origins == s.origins
  {
  }

  // ----- Whole runs -----

  lemma {:induction false} RunCovered(cfg: Config, trace: seq<Sys>, moves: seq<Move>, n: nat)
    requires Trace(cfg, trace, moves) && n <= |moves|
    ensures Covered(trace[n])
  {
    if n > 0 {
      RunCovered(cfg, trace, moves, n - 1);
      assert StepAt(cfg, trace, moves, n - 1);
      StepKeepsCovered(cfg, trace[n - 1], moves[n - 1], trace[n]);
    }
  }

  /** Every grant of the scope is one the API server would make now. */
  ghost predicate WithinTruth(truth: Cluster, id: Identity, scope: Scope) {
    if scope.all then CanList(truth, id, "")
    else forall ns :: ns in scope.namespaces ==> ns in truth.namespaces && CanList(truth, id, ns)
  }

  /** The entry's resolution was overtaken by an invalidation. */
  predicate WasOvertaken(s: Sys, key: string) {
    key in s.origins && s.origins[key].overtaken
  }

  /** An undelivered event's handler, with the bindings the informers hold now, would evict the entry. */
  ghost predicate Doomed(fs: Feeds, e: Entry) {
    exists w :: Unhandled(fs, w) && Hit(fs.bindings.view, fs.clusterBindings.view, w, e)
  }

  /** If an undelivered event concerns an identity by the true bindings, one does by the informers' too. */
  lemma PendingDooms(s: Sys, e: Entry)
    requires Trailing(s) && Pending(s.truth, s.feeds, e.id)
    ensures Doomed(s.feeds, e)
  {
    var v :| Unhandled(s.feeds, v) && Concerns(s.truth.roleBindings, s.truth.clusterRoleBindings, v, e.id);
    if b :| b in s.feeds.bindings.queue && EditNames(b, e.id) {
      assert Unhandled(s.feeds, RoleBindingWrite(b)) && Hit(s.feeds.bindings.view, s.feeds.clusterBindings.view, RoleBindingWrite(b), e);
    } else if b :| b in s.feeds.clusterBindings.queue && EditNames(b, e.id) {
      assert Unhandled(s.feeds, ClusterRoleBindingWrite(b)) && Hit(s.feeds.bindings.view, s.feeds.clusterBindings.view, ClusterRoleBindingWrite(b), e);
    } else {
      HandlerSees(s, v, e.id);
    }
  }

  lemma CoveredOrDoomed(s: Sys, e: Entry)
    requires Trailing(s) && ScopeCovered(s.truth, s.feeds, e.id, e.scope) && !WithinTruth(s.truth, e.id, e.scope)
    ensures Doomed(s.feeds, e)
  {
    if Pending(s.truth, s.feeds, e.id) {
      PendingDooms(s, e);
    } else {
      var ns :| ns in e.scope.namespaces && !(ns in s.truth.namespaces && CanList(s.truth, e.id, ns));
      var w :| Unhandled(s.feeds, w) && Deletes(w, ns);
      assert Hit(s.feeds.bindings.view, s.feeds.clusterBindings.view, w, e);
    }
  }

  /**
   Watch completeness: in every reachable state a cached scope that exceeds truth
   has an undelivered event whose handler, as the informers stand, evicts it; so
   once every event is delivered no cached scope exceeds truth.  Excepted are
   entries overtaken in flight and identities named like ServiceAccounts.
   */
  lemma WatchMissesNothing(cfg: Config, trace: seq<Sys>, moves: seq<Move>, n: nat, key: string)
    requires Trace(cfg, trace, moves) && n <= |moves| && key in trace[n].cache
    requires !WasOvertaken(trace[n], key) && !AccountShaped(trace[n].cache[key].id)
    ensures !WithinTruth(trace[n].truth, trace[n].cache[key].id, trace[n].cache[key].scope) ==> Doomed(trace[n].feeds, trace[n].cache[key])
    ensures Drained(trace[n].feeds) ==> WithinTruth(trace[n].truth, trace[n].cache[key].id, trace[n].cache[key].scope)
  {
    RunCovered(cfg, trace, moves, n);
    var s, e := trace[n], trace[n].cache[key];
    if !WithinTruth(s.truth, e.id, e.scope) {
      CoveredOrDoomed(s, e);
    }
    if Drained(s.feeds) {
      assert forall w :: !Unhandled(s.feeds, w);
    }
  }
}
