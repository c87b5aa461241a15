/**
 What the API server would answer: allow-only RBAC over namespaces, roles and
 bindings, and the edits that change it.
 */
module ClusterRbac {
  import opened Options
  import opened Identity

  datatype Namespace = Namespace(labels: int)

  /** listsPods: whether the rules allow listing pods; rest is everything else about the object. */
  datatype Role = Role(listsPods: bool, rest: int)

  datatype Subject = Subject(kind: string, namespace: string, name: string)
  datatype RoleRef = RoleRef(kind: string, name: string)
  datatype Binding = Binding(roleRef: RoleRef, subjects: seq<Subject>)

  type Key = (string, string)

  /** Roles and role bindings are keyed by namespace and name. */
  datatype Cluster = Cluster(
    namespaces: map<string, Namespace>,
    roles: map<Key, Role>,
    clusterRoles: map<string, Role>,
    roleBindings: map<Key, Binding>,
    clusterRoleBindings: map<string, Binding>)

  const SERVICE_ACCOUNT := "system:serviceaccount:"

  /** The user name a review is made for. */
  function Username(id: Identity): string {
    if id.user != "" then id.user else id.email
  }

  // ----- Subjects -----

  /** A User or Group subject naming the identity. */
  predicate Names(s: Subject, id: Identity) {
    (s.kind == "User" && s.name == Username(id)) || (s.kind == "Group" && s.name in id.groups)
  }

  predicate NamesAny(subjects: seq<Subject>, id: Identity) {
    exists s :: s in subjects && Names(s, id)
  }

  function AccountName(s: Subject): string {
    SERVICE_ACCOUNT + s.namespace + ":" + s.name
  }

  /** How the API server matches subjects: ServiceAccounts by their user name too. */
  predicate Binds(subjects: seq<Subject>, id: Identity) {
    || (exists s :: s in subjects && s.kind == "User" && s.name == Username(id))
    || (exists s :: s in subjects && s.kind == "Group" && s.name in id.groups)
    || (exists s :: s in subjects && s.kind == "ServiceAccount" && AccountName(s) == Username(id))
  }

  /** The user name is one some ServiceAccount has. */
  ghost predicate AccountShaped(id: Identity) {
    exists s: Subject :: AccountName(s) == Username(id)
  }

  lemma OnlyNamedAreBound(subjects: seq<Subject>, id: Identity)
    requires !AccountShaped(id)
    ensures Binds(subjects, id) == NamesAny(subjects, id)
  {
  }

  // ----- Access -----

  predicate ListsPods<K(==)>(roles: map<K, Role>, key: K) {
    key in roles && roles[key].listsPods
  }

  /** What a role binding in namespace ns refers to lets its subjects list pods there. */
  predicate RefListsPods(c: Cluster, ns: string, ref: RoleRef) {
    (ref.kind == "Role" && ListsPods(c.roles, (ns, ref.name))) || (ref.kind == "ClusterRole" && ListsPods(c.clusterRoles, ref.name))
  }

  predicate GrantedClusterWide(c: Cluster, id: Identity, name: string) {
    && name in c.clusterRoleBindings
    && var b := c.clusterRoleBindings[name];
       b.roleRef.kind == "ClusterRole" && ListsPods(c.clusterRoles, b.roleRef.name) && Binds(b.subjects, id)
  }

  predicate GrantedIn(c: Cluster, id: Identity, key: Key) {
    && key in c.roleBindings
    && var b := c.roleBindings[key];
       RefListsPods(c, key.0, b.roleRef) && Binds(b.subjects, id)
  }

  /** May the identity list pods in ns?  The empty namespace asks about all of them. */
  ghost predicate CanList(c: Cluster, id: Identity, ns: string) {
    || (exists name :: GrantedClusterWide(c, id, name))
    || (ns != "" && exists key: Key :: key.0 == ns && GrantedIn(c, id, key))
  }

  /** Identities that differ in group order only have the same access: they may share a cache entry. */
  lemma SameCallerSameAccess(c: Cluster, a: Identity, b: Identity, ns: string)
    requires SameCaller(a, b)
    ensures CanList(c, a, ns) == CanList(c, b, ns)
  {
    forall g ensures g in a.groups <==> g in b.groups {
      assert g in multiset(a.groups) <==> g in multiset(b.groups);
    }
    forall subjects ensures Binds(subjects, a) == Binds(subjects, b) {
      assert forall s :: Names(s, a) == Names(s, b);
    }
    forall name ensures GrantedClusterWide(c, a, name) == GrantedClusterWide(c, b, name) {
    }
    forall key ensures GrantedIn(c, a, key) == GrantedIn(c, b, key) {
    }
  }

  /** Who may list everywhere may list in each namespace, so one review can stand for all of them. */
  lemma WideMeansEverywhere(c: Cluster, id: Identity, ns: string)
    requires CanList(c, id, "")
    ensures CanList(c, id, ns)
  {
  }

  /** A role binding reaches its own namespace only, and without bindings nobody may list anything. */
  lemma BindingReach(c: Cluster, key: Key, id: Identity, ns: string)
    requires key.0 != ns || ns == ""
    ensures CanList(c, id, ns) == CanList(c.(roleBindings := c.roleBindings - {key}), id, ns)
    ensures c.roleBindings == map[] && c.clusterRoleBindings == map[] ==> !CanList(c, id, ns)
  {
    var without := c.(roleBindings := c.roleBindings - {key});
    forall name ensures GrantedClusterWide(c, id, name) == GrantedClusterWide(without, id, name) {
    }
    forall k: Key | k != key ensures GrantedIn(c, id, k) == GrantedIn(without, id, k) {
    }
  }

  // ----- Edits -----

  /** One write to one object: created without before, deleted without after, updated with both. */
  datatype Edit<K, V> = Edit(key: K, before: Option<V>, after: Option<V>)

  function Lookup<K(==), V>(m: map<K, V>, key: K): Option<V> {
    if key in m then Some(m[key]) else None
  }

  function Edited<K(==), V>(m: map<K, V>, e: Edit<K, V>): map<K, V> {
    match e.after
    case Some(v) => m[e.key := v]
    case None => m - {e.key}
  }

  /** The edit says truly what was there, and is no no-op on a missing object. */
  predicate Accurate<K(==), V(==)>(m: map<K, V>, e: Edit<K, V>) {
    e.before == Lookup(m, e.key) && (e.before.Some? || e.after.Some?)
  }

  datatype Write =
    | NamespaceWrite(ns: Edit<string, Namespace>)
    | RoleWrite(role: Edit<Key, Role>)
    | ClusterRoleWrite(clusterRole: Edit<string, Role>)
    | RoleBindingWrite(binding: Edit<Key, Binding>)
    | ClusterRoleBindingWrite(clusterBinding: Edit<string, Binding>)

  function Written(c: Cluster, w: Write): Cluster {
    match w
    case NamespaceWrite(e) => c.(namespaces := Edited(c.namespaces, e))
    case RoleWrite(e) => c.(roles := Edited(c.roles, e))
    case ClusterRoleWrite(e) => c.(clusterRoles := Edited(c.clusterRoles, e))
    case RoleBindingWrite(e) => c.(roleBindings := Edited(c.roleBindings, e))
    case ClusterRoleBindingWrite(e) => c.(clusterRoleBindings := Edited(c.clusterRoleBindings, e))
  }

  predicate AccurateWrite(c: Cluster, w: Write) {
    match w
    case NamespaceWrite(e) => Accurate(c.namespaces, e)
    case RoleWrite(e) => Accurate(c.roles, e)
    case ClusterRoleWrite(e) => Accurate(c.clusterRoles, e)
    case RoleBindingWrite(e) => Accurate(c.roleBindings, e)
    case ClusterRoleBindingWrite(e) => Accurate(c.clusterRoleBindings, e)
  }

  // ----- Whom a change may concern -----

  predicate SubjectOf(b: Option<Binding>, id: Identity) {
    b.Some? && NamesAny(b.value.subjects, id)
  }

  /** A binding edit names the identity before or after. */
  predicate EditNames<K>(e: Edit<K, Binding>, id: Identity) {
    SubjectOf(e.before, id) || SubjectOf(e.after, id)
  }

  /** A role binding of this namespace refers to the role and names the identity. */
  ghost predicate BoundToRole(bindings: map<Key, Binding>, role: Key, id: Identity) {
    exists key :: key in bindings && key.0 == role.0
      && bindings[key].roleRef == RoleRef("Role", role.1) && NamesAny(bindings[key].subjects, id)
  }

  predicate RefersAndNames<K(==)>(bindings: map<K, Binding>, key: K, role: string, id: Identity) {
    key in bindings && bindings[key].roleRef == RoleRef("ClusterRole", role) && NamesAny(bindings[key].subjects, id)
  }

  /** A binding anywhere refers to the cluster role and names the identity. */
  ghost predicate BoundToClusterRole(bindings: map<Key, Binding>, clusterBindings: map<string, Binding>, role: string, id: Identity) {
    (exists key :: RefersAndNames(bindings, key, role, id)) || exists name :: RefersAndNames(clusterBindings, name, role, id)
  }

  /** Whom the event handler for a write evicts for the sake of their subjects, given the informers' bindings. */
  ghost predicate Concerns(bindings: map<Key, Binding>, clusterBindings: map<string, Binding>, w: Write, id: Identity) {
    match w
    case NamespaceWrite(_) => false
    case RoleWrite(e) => e.before.Some? && BoundToRole(bindings, e.key, id)
    case ClusterRoleWrite(e) => e.before.Some? && BoundToClusterRole(bindings, clusterBindings, e.key, id)
    case RoleBindingWrite(e) => EditNames(e, id)
    case ClusterRoleBindingWrite(e) => EditNames(e, id)
  }

  // ----- Revocation -----

  ghost predicate Loses(c: Cluster, w: Write, id: Identity, ns: string) {
    CanList(c, id, ns) && !CanList(Written(c, w), id, ns)
  }

  lemma ClusterWideSurvives(c: Cluster, w: Write, id: Identity, name: string)
    requires AccurateWrite(c, w) && !AccountShaped(id) && !Concerns(c.roleBindings, c.clusterRoleBindings, w, id)
    requires GrantedClusterWide(c, id, name)
    ensures GrantedClusterWide(Written(c, w), id, name)
  {
    var b := c.clusterRoleBindings[name];
    OnlyNamedAreBound(b.subjects, id);
    if w.ClusterRoleWrite? && w.clusterRole.key == b.roleRef.name {
      assert RefersAndNames(c.clusterRoleBindings, name, b.roleRef.name, id);
    }
  }

  lemma GrantSurvives(c: Cluster, w: Write, id: Identity, key: Key)
    requires AccurateWrite(c, w) && !AccountShaped(id) && !Concerns(c.roleBindings, c.clusterRoleBindings, w, id)
    requires GrantedIn(c, id, key)
    ensures GrantedIn(Written(c, w), id, key)
  {
    var b := c.roleBindings[key];
    OnlyNamedAreBound(b.subjects, id);
    if w.ClusterRoleWrite? && b.roleRef.kind == "ClusterRole" && w.clusterRole.key == b.roleRef.name {
      assert RefersAndNames(c.roleBindings, key, b.roleRef.name, id);
    }
    if w.RoleWrite? && b.roleRef.kind == "Role" && w.role.key == (key.0, b.roleRef.name) {
      assert BoundToRole(c.roleBindings, w.role.key, id);
    }
  }

  /**
   Revocation completeness: a write that costs an identity access anywhere
   concerns it, so the handler evicts its entry.
   */
  lemma LosersAreConcerned(c: Cluster, w: Write, id: Identity, ns: string)
    requires AccurateWrite(c, w) && !AccountShaped(id) && Loses(c, w, id, ns)
    ensures Concerns(c.roleBindings, c.clusterRoleBindings, w, id)
  {
    if !Concerns(c.roleBindings, c.clusterRoleBindings, w, id) {
      if name :| GrantedClusterWide(c, id, name) {
        ClusterWideSurvives(c, w, id, name);
      } else {
        var key: Key :| key.0 == ns && GrantedIn(c, id, key);
        GrantSurvives(c, w, id, key);
      }
    }
  }

  /** Revocation is complete for exactly the identities that are not named like a ServiceAccount. */
  lemma RevocationExact(id: Identity)
    ensures !AccountShaped(id) <==>
      forall c, w, ns :: AccurateWrite(c, w) && Loses(c, w, id, ns) ==> Concerns(c.roleBindings, c.clusterRoleBindings, w, id)
  {
    if !AccountShaped(id) {
      forall c, w, ns | AccurateWrite(c, w) && Loses(c, w, id, ns) ensures Concerns(c.roleBindings, c.clusterRoleBindings, w, id) {
        LosersAreConcerned(c, w, id, ns);
      }
    } else {
      var s: Subject :| AccountName(s) == Username(id);
      var account := s.(kind := "ServiceAccount");
      var b := Binding(RoleRef("ClusterRole", "view"), [account]);
      var c := Cluster(map[], map[], map["view" := Role(true, 0)], map[], map["b" := b]);
      var w := ClusterRoleBindingWrite(Edit("b", Some(b), None));
      assert account in b.subjects && AccountName(account) == Username(id);
      assert GrantedClusterWide(c, id, "b");
      assert Loses(c, w, id, "");
      assert !NamesAny(b.subjects, id);
    }
  }

  /** Creating a role or a cluster role, or any namespace write, takes access from nobody. */
  lemma CreationsOnlyWiden(c: Cluster, w: Write, id: Identity, ns: string)
    requires AccurateWrite(c, w)
    requires match w
      case NamespaceWrite(_) => true
      case RoleWrite(e) => e.before.None?
      case ClusterRoleWrite(e) => e.before.None?
      case RoleBindingWrite(e) => e.before.None?
      case ClusterRoleBindingWrite(e) => e.before.None?
    ensures CanList(c, id, ns) ==> CanList(Written(c, w), id, ns)
  {
    forall name | GrantedClusterWide(c, id, name) ensures GrantedClusterWide(Written(c, w), id, name) {
    }
    forall key | GrantedIn(c, id, key) ensures GrantedIn(Written(c, w), id, key) {
    }
  }

  /** The deletion of the role or cluster role a write is about, when it allowed listing pods. */
  function Deletion(w: Write): Write
    requires w.RoleWrite? || w.ClusterRoleWrite?
  {
    match w
    case RoleWrite(e) => RoleWrite(Edit(e.key, Some(Role(true, 0)), None))
    case ClusterRoleWrite(e) => ClusterRoleWrite(Edit(e.key, Some(Role(true, 0)), None))
  }

  /** In some cluster with these bindings, the identity loses access when the role the write is about is deleted. */
  ghost predicate MayLose(bindings: map<Key, Binding>, clusterBindings: map<string, Binding>, w: Write, id: Identity)
    requires w.RoleWrite? || w.ClusterRoleWrite?
  {
    exists c: Cluster, ns: string :: c.roleBindings == bindings && c.clusterRoleBindings == clusterBindings
      && AccurateWrite(c, Deletion(w)) && Loses(c, Deletion(w), id, ns)
  }

  /** The reverse lookup is exact: a change of a role concerns just those its deletion could cost access. */
  lemma ConcernExact(bindings: map<Key, Binding>, clusterBindings: map<string, Binding>, w: Write, id: Identity)
    requires !AccountShaped(id) && "" !in (set key | key in bindings :: key.0)
    requires (w.RoleWrite? && w.role.before.Some?) || (w.ClusterRoleWrite? && w.clusterRole.before.Some?)
    ensures Concerns(bindings, clusterBindings, w, id) <==> MayLose(bindings, clusterBindings, w, id)
  {
    var gone := Deletion(w);
    if MayLose(bindings, clusterBindings, w, id) {
      var c: Cluster, ns: string :| c.roleBindings == bindings && c.clusterRoleBindings == clusterBindings
        && AccurateWrite(c, gone) && Loses(c, gone, id, ns);
      LosersAreConcerned(c, gone, id, ns);
    }
    if Concerns(bindings, clusterBindings, w, id) {
      if w.RoleWrite? {
        RoleConcernWarranted(bindings, clusterBindings, w.role.key, id);
      } else {
        ClusterRoleConcernWarranted(bindings, clusterBindings, w.clusterRole.key, id);
      }
    }
  }

  lemma RoleConcernWarranted(bindings: map<Key, Binding>, clusterBindings: map<string, Binding>, role: Key, id: Identity)
    requires "" !in (set key | key in bindings :: key.0) && BoundToRole(bindings, role, id)
    ensures
      var c := Cluster(map[], map[role := Role(true, 0)], map[], bindings, clusterBindings);
      Loses(c, RoleWrite(Edit(role, Some(Role(true, 0)), None)), id, role.0)
  {
    var c := Cluster(map[], map[role := Role(true, 0)], map[], bindings, clusterBindings);
    var key :| key in bindings && key.0 == role.0 && bindings[key].roleRef == RoleRef("Role", role.1) && NamesAny(bindings[key].subjects, id);
    assert GrantedIn(c, id, key);
  }

  lemma ClusterRoleConcernWarranted(bindings: map<Key, Binding>, clusterBindings: map<string, Binding>, role: string, id: Identity)
    requires "" !in (set key | key in bindings :: key.0) && BoundToClusterRole(bindings, clusterBindings, role, id)
    ensures
      var c := Cluster(map[], map[], map[role := Role(true, 0)], bindings, clusterBindings);
      exists ns :: Loses(c, ClusterRoleWrite(Edit(role, Some(Role(true, 0)), None)), id, ns)
  {
    var c := Cluster(map[], map[], map[role := Role(true, 0)], bindings, clusterBindings);
    var gone := ClusterRoleWrite(Edit(role, Some(Role(true, 0)), None));
    if key: Key :| RefersAndNames(bindings, key, role, id) {
      assert GrantedIn(c, id, key);
      assert Loses(c, gone, id, key.0);
    } else {
      var name :| RefersAndNames(clusterBindings, name, role, id);
      assert GrantedClusterWide(c, id, name);
      assert Loses(c, gone, id, "");
    }
  }

  // ----- Whom a binding edit concerns -----

  predicate IsBindingWrite(w: Write) {
    w.RoleBindingWrite? || w.ClusterRoleBindingWrite?
  }

  /** The edited binding has the subjects before or after. */
  predicate HasSubjects(w: Write, subjects: seq<Subject>)
    requires IsBindingWrite(w)
  {
    var before, after :=
      if w.RoleBindingWrite? then w.binding.before else w.clusterBinding.before,
      if w.RoleBindingWrite? then w.binding.after else w.clusterBinding.after;
    (before.Some? && before.value.subjects == subjects) || (after.Some? && after.value.subjects == subjects)
  }

  /** The deletion of the edited binding, had it been b. */
  function Unbinding(w: Write, b: Binding): Write
    requires IsBindingWrite(w)
  {
    if w.RoleBindingWrite? then RoleBindingWrite(Edit(w.binding.key, Some(b), None))
    else ClusterRoleBindingWrite(Edit(w.clusterBinding.key, Some(b), None))
  }

  /** In some cluster, for some role, deleting the binding with its old or its new subjects costs the identity access. */
  ghost predicate MayLoseBinding(w: Write, id: Identity)
    requires IsBindingWrite(w)
  {
    exists b: Binding, c: Cluster, ns: string ::
      HasSubjects(w, b.subjects) && AccurateWrite(c, Unbinding(w, b)) && Loses(c, Unbinding(w, b), id, ns)
  }

  /** A binding edit concerns just those whom deleting the binding, old or new, could cost access. */
  lemma BindingConcernExact(bindings: map<Key, Binding>, clusterBindings: map<string, Binding>, w: Write, id: Identity)
    requires !AccountShaped(id) && IsBindingWrite(w) && (w.RoleBindingWrite? ==> w.binding.key.0 != "")
    ensures Concerns(bindings, clusterBindings, w, id) <==> MayLoseBinding(w, id)
  {
    if MayLoseBinding(w, id) {
      var b: Binding, c: Cluster, ns: string :|
        HasSubjects(w, b.subjects) && AccurateWrite(c, Unbinding(w, b)) && Loses(c, Unbinding(w, b), id, ns);
      LosersAreConcerned(c, Unbinding(w, b), id, ns);
      assert NamesAny(b.subjects, id);
    }
    if Concerns(bindings, clusterBindings, w, id) {
      var subjects :| HasSubjects(w, subjects) && NamesAny(subjects, id);
      BindingConcernWarranted(w, subjects, id);
    }
  }

  lemma BindingConcernWarranted(w: Write, subjects: seq<Subject>, id: Identity)
    requires IsBindingWrite(w) && (w.RoleBindingWrite? ==> w.binding.key.0 != "") && HasSubjects(w, subjects) && NamesAny(subjects, id)
    ensures MayLoseBinding(w, id)
  {
    var b := Binding(RoleRef("ClusterRole", "view"), subjects);
    var roles := map["view" := Role(true, 0)];
    if w.RoleBindingWrite? {
      var c := Cluster(map[], map[], roles, map[w.binding.key := b], map[]);
      assert GrantedIn(c, id, w.binding.key);
      assert Loses(c, Unbinding(w, b), id, w.binding.key.0);
    } else {
      var c := Cluster(map[], map[], roles, map[], map[w.clusterBinding.key := b]);
      assert GrantedClusterWide(c, id, w.clusterBinding.key);
      assert Loses(c, Unbinding(w, b), id, "");
    }
  }

  // ----- The user name -----

  /** The email stands in for a missing user and counts for nothing beside one. */
  lemma EmailOnlyWithoutUser(c: Cluster, id: Identity, email: string, ns: string)
    ensures id.user != "" ==> CanList(c, id, ns) == CanList(c, id.(email := email), ns)
    ensures CanList(c, Identity("", email, id.groups), ns) == CanList(c, Identity(email, "", id.groups), ns)
  {
    var a, b := if id.user != "" then id else Identity("", email, id.groups),
                if id.user != "" then id.(email := email) else Identity(email, "", id.groups);
    SameNameSameAccess(a, b, c, ns);
    SameNameSameAccess(Identity("", email, id.groups), Identity(email, "", id.groups), c, ns);
  }

  lemma SameNameSameAccess(a: Identity, b: Identity, c: Cluster, ns: string)
    requires Username(a) == Username(b) && a.groups == b.groups
    ensures CanList(c, a, ns) == CanList(c, b, ns)
  {
    forall name ensures GrantedClusterWide(c, a, name) == GrantedClusterWide(c, b, name) {
    }
    forall key ensures GrantedIn(c, a, key) == GrantedIn(c, b, key) {
    }
  }
}
