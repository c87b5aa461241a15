/** The per-identity cache of resolved scopes, and the eviction relations on it. */
module ScopeCache {
  import opened Identity
  import opened Authz
  import opened ClusterRbac

  datatype Entry = Entry(scope: Scope, expires: int, id: Identity)

  type Cache = map<string, Entry>

  predicate Live(cache: Cache, key: string, now: int) {
    key in cache && now < cache[key].expires
  }

  function Unexpired(cache: Cache, now: int): Cache {
    map k | k in cache && now < cache[k].expires :: cache[k]
  }

  ghost predicate SubCache(a: Cache, b: Cache) {
    a.Keys <= b.Keys && forall k :: k in a ==> a[k] == b[k]
  }

  /** Storing into a full cache drops expired entries first, then arbitrary ones until one more fits. */
  ghost predicate RoomMade(before: Cache, after: Cache, maxCache: int, now: int) {
    if |before| < maxCache then after == before
    else
      var live := Unexpired(before, now);
      SubCache(after, live) && |after| == if |live| < maxCache then |live| else if maxCache > 0 then maxCache - 1 else 0
  }

  ghost predicate Stores(before: Cache, after: Cache, key: string, e: Entry, maxCache: int, now: int) {
    exists roomy: Cache :: RoomMade(before, roomy, maxCache, now) && after == roomy[key := e]
  }

  /** The entry is evicted by the handler of a write. */
  ghost predicate Hit(bindings: map<Key, Binding>, clusterBindings: map<string, Binding>, w: Write, e: Entry) {
    if w.NamespaceWrite? then w.ns.after.None? && !e.scope.all && w.ns.key in e.scope.namespaces
    else Concerns(bindings, clusterBindings, w, e.id)
  }

  ghost function Spared(cache: Cache, bindings: map<Key, Binding>, clusterBindings: map<string, Binding>, w: Write): Cache {
    map k | k in cache && !Hit(bindings, clusterBindings, w, cache[k]) :: cache[k]
  }

  lemma SubCacheSize(a: Cache, b: Cache)
    requires a.Keys <= b.Keys
    ensures |a| <= |b|
  {
    assert b.Keys == a.Keys + (b.Keys - a.Keys);
    assert |a| == |a.Keys| && |b| == |b.Keys|;
  }

  /** Storing keeps what it stores and changes no other entry it keeps. */
  lemma StoreFrame(before: Cache, after: Cache, key: string, e: Entry, maxCache: int, now: int)
    requires Stores(before, after, key, e, maxCache, now)
    ensures key in after && after[key] == e
    ensures forall k :: k in after && k != key ==> k in before && after[k] == before[k]
  {
  }

  /** The cache never outgrows its bound. */
  lemma StoreBounded(before: Cache, after: Cache, key: string, e: Entry, maxCache: int, now: int)
    requires maxCache > 0 && |before| <= maxCache && Stores(before, after, key, e, maxCache, now)
    ensures |after| <= maxCache
  {
    var roomy: Cache :| RoomMade(before, roomy, maxCache, now) && after == roomy[key := e];
    SubCacheSize(Unexpired(before, now), before);
    assert after.Keys == roomy.Keys + {key};
    assert |after| == |after.Keys| <= |roomy.Keys| + 1 == |roomy| + 1;
  }

  lemma SubCacheShrinks(a: Cache, b: Cache, gone: string)
    requires a.Keys <= b.Keys && gone in b && gone !in a
    ensures |a| < |b|
  {
    assert b.Keys == a.Keys + (b.Keys - a.Keys) && gone in b.Keys - a.Keys;
    assert |a| == |a.Keys| && |b| == |b.Keys|;
  }

  /** A live entry of another caller goes only if the cache then is exactly full, and nothing expired is left. */
  lemma StoreSparesLive(before: Cache, after: Cache, key: string, e: Entry, maxCache: int, now: int, gone: string)
    requires maxCache > 0 && !Live(before, key, now) && Stores(before, after, key, e, maxCache, now)
    requires Live(before, gone, now) && gone !in after
    ensures |after| == maxCache && forall k :: k in after && k != key ==> Live(before, k, now)
  {
    var roomy: Cache :| RoomMade(before, roomy, maxCache, now) && after == roomy[key := e];
    var live := Unexpired(before, now);
    assert gone in live && gone !in roomy && key !in roomy;
    SubCacheShrinks(roomy, live, gone);
    assert after.Keys == roomy.Keys + {key};
    assert |after| == |after.Keys| && |roomy| == |roomy.Keys|;
  }

  /** Below its bound the cache drops nothing; at it, another caller's expired entry always goes. */
  lemma StoreDropsExpiredExactly(before: Cache, after: Cache, key: string, e: Entry, maxCache: int, now: int, k: string)
    requires Stores(before, after, key, e, maxCache, now) && k in before && k != key
    ensures |before| < maxCache ==> k in after
    ensures |before| >= maxCache && !Live(before, k, now) ==> k !in after
  {
  }

  // ----- Whom a handler evicts -----

  /** An event an informer can deliver: an object was there before or is there after, and bindings are in a namespace. */
  predicate Possible(w: Write) {
    match w
    case NamespaceWrite(e) => e.before.Some? || e.after.Some?
    case RoleBindingWrite(e) => e.key.0 != ""
    case _ => true
  }

  /** In some cluster with the informers' bindings, what the event is about could leave the entry beyond truth. */
  ghost predicate CouldGoStale(bindings: map<Key, Binding>, clusterBindings: map<string, Binding>, w: Write, e: Entry) {
    match w
    case NamespaceWrite(_) => !e.scope.all && exists c: Cluster, ns: string ::
      AccurateWrite(c, w) && ns in e.scope.namespaces && ns in c.namespaces && ns !in Written(c, w).namespaces
    case RoleWrite(x) => x.before.Some? && MayLose(bindings, clusterBindings, w, e.id)
    case ClusterRoleWrite(x) => x.before.Some? && MayLose(bindings, clusterBindings, w, e.id)
    case _ => MayLoseBinding(w, e.id)
  }

  /** A handler evicts just the entries its event could leave beyond truth, and touches no other. */
  lemma EvictsExactly(cache: Cache, bindings: map<Key, Binding>, clusterBindings: map<string, Binding>, w: Write, k: string)
    requires k in cache && !AccountShaped(cache[k].id) && Possible(w) && "" !in (set key | key in bindings :: key.0)
    ensures
      var spared := Spared(cache, bindings, clusterBindings, w);
      && (k !in spared <==> CouldGoStale(bindings, clusterBindings, w, cache[k]))
      && (k in spared ==> spared[k] == cache[k])
  {
    if IsBindingWrite(w) {
      BindingConcernExact(bindings, clusterBindings, w, cache[k].id);
    } else if w.NamespaceWrite? {
      DeletionExactly(bindings, clusterBindings, w, cache[k]);
    } else if (w.RoleWrite? && w.role.before.Some?) || (w.ClusterRoleWrite? && w.clusterRole.before.Some?) {
      ConcernExact(bindings, clusterBindings, w, cache[k].id);
    }
  }

  /** Of namespace events only a deletion evicts, and only restricted entries that list the namespace. */
  lemma DeletionExactly(bindings: map<Key, Binding>, clusterBindings: map<string, Binding>, w: Write, e: Entry)
    requires w.NamespaceWrite? && Possible(w)
    ensures Hit(bindings, clusterBindings, w, e) <==> CouldGoStale(bindings, clusterBindings, w, e)
  {
    if Hit(bindings, clusterBindings, w, e) {
      var c := Cluster(map[w.ns.key := w.ns.before.value], map[], map[], map[], map[]);
      assert AccurateWrite(c, w) && w.ns.key in c.namespaces && w.ns.key !in Written(c, w).namespaces;
    }
  }
}
