/** The RBAC authorizer as the mutable object the program keeps. */
module Authorizer {
  import opened Collections
  import opened Options
  import opened Identity
  import opened Authz
  import opened ClusterRbac
  import opened ScopeCache

  /** What the API server answers during one resolution: the cluster-wide review, the namespace list, one review each. */
  datatype Answers = Answers(all: Result<bool>, listed: Result<seq<string>>, each: string -> Result<bool>)

  /** The scope a resolution yields: any failed call fails the whole. */
  function Resolution(a: Answers): Result<Scope> {
    if a.all.Err? then Err
    else if a.all.value then Ok(Scope(true, {}))
    else if a.listed.Err? || exists ns :: ns in a.listed.value && a.each(ns).Err? then Err
    else Ok(Scope(false, set ns | ns in a.listed.value && a.each(ns) == Ok(true)))
  }

  /** What a cluster answers for the identity when nothing fails and nothing changes meanwhile. */
  ghost predicate AnswersOf(c: Cluster, id: Identity, a: Answers) {
    && a.all == Ok(CanList(c, id, ""))
    && a.listed.Ok? && (set ns | ns in a.listed.value) == c.namespaces.Keys
    && forall ns :: ns in a.listed.value ==> a.each(ns) == Ok(CanList(c, id, ns))
  }

  /**
   Resolving against a cluster succeeds with its truth: unrestricted exactly for
   those who may list everywhere, and otherwise just the namespaces they may list.
   */
  lemma ResolvesToTruth(c: Cluster, id: Identity, a: Answers)
    requires AnswersOf(c, id, a)
    ensures Resolution(a).Ok?
    ensures Resolution(a).value.all <==> CanList(c, id, "")
    ensures !Resolution(a).value.all ==>
      forall ns :: ns in Resolution(a).value.namespaces <==> ns in c.namespaces && CanList(c, id, ns)
  {
    forall ns ensures a.listed.Ok? && (ns in a.listed.value <==> ns in c.namespaces) {
      assert ns in (set n | n in a.listed.value) <==> ns in c.namespaces.Keys;
    }
  }

  /** A resolution succeeds exactly if no call it needs fails: the wide review and, unless that said yes, the list and each listed review. */
  lemma SucceedsOnlyWhole(a: Answers)
    ensures Resolution(a).Ok? <==>
      a.all.Ok? && (a.all == Ok(true) || (a.listed.Ok? && forall ns :: ns in a.listed.value ==> a.each(ns).Ok?))
  {
  }

  class Authorizer {
    const ttl: int
    const concurrency: nat
    const maxCache: int
    var cache: Cache
    /** The informers' local copies of the bindings. */
    var roleBindings: map<Key, Binding>
    var clusterRoleBindings: map<string, Binding>
    /** Entries evicted by the watch. */
    var invalidations: nat

    constructor (ttl: int, concurrency: nat, maxCache: int)
      ensures cache == map[] && this.ttl == ttl && this.concurrency == concurrency && this.maxCache == maxCache
    {
      this.ttl, this.concurrency, this.maxCache := ttl, concurrency, maxCache;
      cache, roleBindings, clusterRoleBindings, invalidations := map[], map[], map[], 0;
    }

    // ----- The cache -----

    method Cached(key: string, now: int) returns (scope: Option<Scope>)
      ensures scope == if Live(cache, key, now) then Some(cache[key].scope) else None
    {
      if key !in cache || !(now < cache[key].expires) {
        return None;
      }
      return Some(cache[key].scope);
    }

    method EvictExpiredLocked(now: int)
      modifies this`cache
      ensures cache == Unexpired(old(cache), now)
    {
      var todo := cache.Keys;
      while todo != {}
        invariant todo <= cache.Keys && SubCache(cache, old(cache))
        invariant forall k :: k in old(cache) && k !in todo ==> (k in cache <==> now < old(cache)[k].expires)
        decreases todo
      {
        var k :| k in todo;
        todo := todo - {k};
        if !(now < cache[k].expires) {
          cache := cache - {k};
        }
      }
    }

    method Sweep(now: int)
      modifies this`cache
      ensures cache == Unexpired(old(cache), now)
    {
      EvictExpiredLocked(now);
    }

    /** Makes room, reading the clock once, and stores with the next reading. */
    method Store(key: string, scope: Scope, id: Identity, room: int, now: int)
      modifies this`cache
      ensures Stores(old(cache), cache, key, Entry(scope, now + ttl, id), maxCache, room)
    {
      if |cache| >= maxCache {
        EvictExpiredLocked(room);
        ghost var live := cache;
        var todo := cache.Keys;
        while todo != {}
          invariant todo == cache.Keys && SubCache(cache, live)
          invariant |live| < maxCache ==> cache == live
          invariant |cache| <= |live| && (|cache| < |live| ==> |cache| >= maxCache - 1)
          decreases todo
        {
          var k :| k in todo;
          if |cache| < maxCache {
            break;
          }
          todo := todo - {k};
          RemoveSize(cache, k);
          cache := cache - {k};
        }
        assert |cache| == |cache.Keys|;
      }
      ghost var roomy := cache;
      assert RoomMade(old(cache), roomy, maxCache, room);
      cache := cache[key := Entry(scope, now + ttl, id)];
    }

    // ----- Resolution -----

    /**
     Reviews every listed namespace, at most concurrency at a time, in whatever
     order the scheduler lets reviews start and return.  schedule decides, per
     step, between starting and finishing, and which review.
     */
    method ReviewEach(listed: seq<string>, each: string -> Result<bool>, schedule: nat -> bool) returns (r: Result<Scope>)
      requires concurrency > 0
      ensures r == if exists ns :: ns in listed && each(ns).Err? then Err
                   else Ok(Scope(false, set ns | ns in listed && each(ns) == Ok(true)))
    {
      ghost var all := set ns | ns in listed;
      ghost var finished: set<string> := {};
      var waiting := set ns | ns in listed;
      var inFlight: set<string> := {};
      var allowed: set<string> := {};
      var failed := false;
      var tick := 0;
      while waiting != {} || inFlight != {}
        invariant |inFlight| <= concurrency
        invariant forall ns :: ns in all <==> ns in waiting || ns in inFlight || ns in finished
        invariant waiting !! inFlight
        invariant forall ns :: ns in allowed <==> ns in finished && each(ns) == Ok(true)
        invariant failed <==> exists ns :: ns in finished && each(ns).Err?
        invariant waiting !! finished && inFlight !! finished
        decreases waiting, inFlight
      {
        if waiting != {} && |inFlight| < concurrency && (inFlight == {} || schedule(tick)) {
          var ns :| ns in waiting;
          waiting := waiting - {ns};
          inFlight := inFlight + {ns};
        } else {
          var ns :| ns in inFlight;
          inFlight := inFlight - {ns};
          finished := finished + {ns};
          var ok := each(ns);
          if ok.Err? {
            failed := true;
          } else if ok.value {
            allowed := allowed + {ns};
          }
        }
        tick := tick + 1;
      }
      assert finished == all;
      assert !failed ==> allowed == set ns | ns in listed && each(ns) == Ok(true);
      return if failed then Err else Ok(Scope(false, allowed));
    }

    method Resolve(answers: Answers, schedule: nat -> bool) returns (r: Result<Scope>)
      requires concurrency > 0
      ensures r == Resolution(answers)
    {
      if answers.all.Err? {
        return Err;
      }
      if answers.all.value {
        return Ok(Scope(true, {}));
      }
      if answers.listed.Err? {
        return Err;
      }
      r := ReviewEach(answers.listed.value, answers.each, schedule);
    }

    /** One caller alone: a live entry answers; otherwise a successful resolution is stored and a failed one is not. */
    method AllowedNamespaces(id: Identity, answers: Answers, schedule: nat -> bool, now: int, recheck: int, room: int, stored: int)
      returns (r: Result<Scope>)
      requires concurrency > 0
      modifies this`cache
      ensures
        var key := CacheKey(id);
        if Live(old(cache), key, now) || Live(old(cache), key, recheck) then r == Ok(old(cache)[key].scope) && cache == old(cache)
        else
          && r == Resolution(answers)
          && (r.Err? ==> cache == old(cache))
          && (r.Ok? ==> Stores(old(cache), cache, key, Entry(r.value, stored + ttl, id), maxCache, room))
    {
      var key := CacheKey(id);
      var hit := Cached(key, now);
      if hit.Some? {
        return Ok(hit.value);
      }
      hit := Cached(key, recheck);
      if hit.Some? {
        return Ok(hit.value);
      }
      r := Resolve(answers, schedule);
      if r.Ok? {
        Store(key, r.value, id, room, stored);
      }
    }

    // ----- Watch handlers -----

    /** Evicts every entry belonging to one of the subjects. */
    method InvalidateSubjects(subjects: seq<Subject>)
      modifies this`cache, this`invalidations
      ensures cache == map k | k in old(cache) && !NamesAny(subjects, old(cache)[k].id) :: old(cache)[k]
      ensures invalidations == old(invalidations) + |old(cache)| - |cache|
    {
      var users: set<string>, groups: set<string> := {}, {};
      for i := 0 to |subjects|
        invariant forall n :: n in users <==> exists j :: 0 <= j < i && subjects[j].kind == "User" && subjects[j].name == n
        invariant forall n :: n in groups <==> exists j :: 0 <= j < i && subjects[j].kind == "Group" && subjects[j].name == n
        invariant cache == old(cache) && invalidations == old(invalidations)
      {
        if subjects[i].kind == "User" {
          users := users + {subjects[i].name};
        } else if subjects[i].kind == "Group" {
          groups := groups + {subjects[i].name};
        }
      }
      MatchIsNaming(subjects, users, groups);
      if users == {} && groups == {} {
        assert forall k :: k in cache ==> !Matched(users, groups, cache[k].id);
        return;
      }
      EvictMatched(users, groups);
    }

    /** Evicts every entry whose caller is among the users or in one of the groups. */
    method EvictMatched(users: set<string>, groups: set<string>)
      modifies this`cache, this`invalidations
      ensures cache == map k | k in old(cache) && !Matched(users, groups, old(cache)[k].id) :: old(cache)[k]
      ensures invalidations == old(invalidations) + |old(cache)| - |cache|
    {
      var todo := cache.Keys;
      while todo != {}
        invariant todo <= cache.Keys && SubCache(cache, old(cache))
        invariant forall k :: k in old(cache) && k !in todo ==> (k in cache <==> !Matched(users, groups, old(cache)[k].id))
        invariant invalidations == old(invalidations) + |old(cache)| - |cache|
        decreases todo
      {
        var k :| k in todo;
        todo := todo - {k};
        var matched := Belongs(cache[k].id, users, groups);
        if matched {
          RemoveSize(cache, k);
          cache := cache - {k};
          invalidations := invalidations + 1;
        }
      }
    }

    method Belongs(id: Identity, users: set<string>, groups: set<string>) returns (matched: bool)
      ensures matched == Matched(users, groups, id)
    {
      matched := Username(id) in users;
      if !matched {
        for i := 0 to |id.groups|
          invariant matched <==> exists j :: 0 <= j < i && id.groups[j] in groups
        {
          if id.groups[i] in groups {
            matched := true;
            break;
          }
        }
      }
    }

    /** Evicts every entry whose scope lists the namespace; unrestricted entries list none. */
    method InvalidateNamespace(ns: string)
      modifies this`cache, this`invalidations
      ensures cache == map k | k in old(cache) && !(!old(cache)[k].scope.all && ns in old(cache)[k].scope.namespaces) :: old(cache)[k]
      ensures invalidations == old(invalidations) + |old(cache)| - |cache|
    {
      var todo := cache.Keys;
      while todo != {}
        invariant todo <= cache.Keys && SubCache(cache, old(cache))
        invariant forall k :: k in old(cache) && k !in todo ==>
          (k in cache <==> !(!old(cache)[k].scope.all && ns in old(cache)[k].scope.namespaces))
        invariant invalidations == old(invalidations) + |old(cache)| - |cache|
        decreases todo
      {
        var k :| k in todo;
        todo := todo - {k};
        if !cache[k].scope.all && ns in cache[k].scope.namespaces {
          RemoveSize(cache, k);
          cache := cache - {k};
          invalidations := invalidations + 1;
        }
      }
    }

    /** The subjects of this namespace's bindings to the role. */
    method RoleSubjects(namespace: string, name: string) returns (subjects: seq<Subject>)
      ensures forall id :: NamesAny(subjects, id) <==> BoundToRole(roleBindings, (namespace, name), id)
    {
      subjects := [];
      var todo := roleBindings.Keys;
      while todo != {}
        invariant todo <= roleBindings.Keys
        invariant forall id :: NamesAny(subjects, id) <==>
          exists key :: key in roleBindings && key !in todo && key.0 == namespace
            && roleBindings[key].roleRef == RoleRef("Role", name) && NamesAny(roleBindings[key].subjects, id)
        decreases todo
      {
        var key :| key in todo;
        todo := todo - {key};
        var rb := roleBindings[key];
        if key.0 == namespace && rb.roleRef.kind == "Role" && rb.roleRef.name == name {
          NamesAnyAppend(subjects, rb.subjects);
          subjects := subjects + rb.subjects;
        }
      }
    }

    method OnRoleChanged(namespace: string, name: string)
      modifies this`cache, this`invalidations
      ensures cache == map k | k in old(cache) && !BoundToRole(roleBindings, (namespace, name), old(cache)[k].id) :: old(cache)[k]
    {
      var subjects := RoleSubjects(namespace, name);
      InvalidateSubjects(subjects);
    }

    /** The subjects of all bindings to the cluster role, in any namespace and cluster-wide. */
    method ClusterRoleSubjects(name: string) returns (subjects: seq<Subject>)
      ensures forall id :: NamesAny(subjects, id) <==> BoundToClusterRole(roleBindings, clusterRoleBindings, name, id)
    {
      var local := ReferringSubjects(roleBindings, name);
      var wide := ReferringSubjects(clusterRoleBindings, name);
      NamesAnyAppend(local, wide);
      subjects := local + wide;
    }

    method OnClusterRoleChanged(name: string)
      modifies this`cache, this`invalidations
      ensures cache == map k | k in old(cache) && !BoundToClusterRole(roleBindings, clusterRoleBindings, name, old(cache)[k].id) :: old(cache)[k]
    {
      var subjects := ClusterRoleSubjects(name);
      InvalidateSubjects(subjects);
    }

    /** Runs the handler for one informer event; only deletions of namespaces and changes of existing roles are watched. */
    method HandleEvent(w: Write)
      modifies this`cache, this`invalidations
      ensures cache == Spared(old(cache), roleBindings, clusterRoleBindings, w)
    {
      match w
      case NamespaceWrite(e) =>
        if e.after.None? {
          InvalidateNamespace(e.key);
        }
      case RoleWrite(e) =>
        if e.before.Some? {
          OnRoleChanged(e.key.0, e.key.1);
        }
      case ClusterRoleWrite(e) =>
        if e.before.Some? {
          OnClusterRoleChanged(e.key);
        }
      case RoleBindingWrite(e) =>
        NamesAnyAppend(SubjectsOf(e.before), SubjectsOf(e.after));
        InvalidateSubjects(SubjectsOf(e.before) + SubjectsOf(e.after));
      case ClusterRoleBindingWrite(e) =>
        NamesAnyAppend(SubjectsOf(e.before), SubjectsOf(e.after));
        InvalidateSubjects(SubjectsOf(e.before) + SubjectsOf(e.after));
    }
  }

  function SubjectsOf(b: Option<Binding>): seq<Subject> {
    if b.Some? then b.value.subjects else []
  }

  lemma NamesAnyAppend(a: seq<Subject>, b: seq<Subject>)
    ensures forall id :: NamesAny(a + b, id) <==> NamesAny(a, id) || NamesAny(b, id)
  {
    assert forall s :: s in a + b <==> s in a || s in b;
  }

  /** The subjects of every binding of a kind that refers to the cluster role. */
  method ReferringSubjects<K(==)>(bindings: map<K, Binding>, name: string) returns (subjects: seq<Subject>)
    ensures forall id :: NamesAny(subjects, id) <==> exists key :: RefersAndNames(bindings, key, name, id)
  {
    subjects := [];
    var todo := bindings.Keys;
    while todo != {}
      invariant todo <= bindings.Keys
      invariant forall id :: NamesAny(subjects, id) <==> exists key :: key !in todo && RefersAndNames(bindings, key, name, id)
      decreases todo
    {
      var key :| key in todo;
      todo := todo - {key};
      var b := bindings[key];
      if b.roleRef.kind == "ClusterRole" && b.roleRef.name == name {
        NamesAnyAppend(subjects, b.subjects);
        subjects := subjects + b.subjects;
      }
    }
  }

  predicate Matched(users: set<string>, groups: set<string>, id: Identity) {
    Username(id) in users || exists g :: g in id.groups && g in groups
  }

  /** Matching against the collected user and group names is being named by a subject. */
  lemma MatchIsNaming(subjects: seq<Subject>, users: set<string>, groups: set<string>)
    requires forall n :: n in users <==> exists j :: 0 <= j < |subjects| && subjects[j].kind == "User" && subjects[j].name == n
    requires forall n :: n in groups <==> exists j :: 0 <= j < |subjects| && subjects[j].kind == "Group" && subjects[j].name == n
    ensures forall id :: Matched(users, groups, id) <==> NamesAny(subjects, id)
  {
    forall id ensures Matched(users, groups, id) <==> NamesAny(subjects, id) {
      if Matched(users, groups, id) {
        if Username(id) in users {
          var j :| 0 <= j < |subjects| && subjects[j].kind == "User" && subjects[j].name == Username(id);
          assert subjects[j] in subjects && Names(subjects[j], id);
        } else {
          var g :| g in id.groups && g in groups;
          var j :| 0 <= j < |subjects| && subjects[j].kind == "Group" && subjects[j].name == g;
          assert subjects[j] in subjects && Names(subjects[j], id);
        }
      }
      if NamesAny(subjects, id) {
        var s :| s in subjects && Names(s, id);
        var j :| 0 <= j < |subjects| && subjects[j] == s;
      }
    }
  }
}
