/** The file-backed authorizer: a mapping kept across failed reloads. */
module Authz {
  import opened Options
  import opened Identity
  import opened Strings

  /** all means unrestricted; the namespaces are then not consulted. */
  datatype Scope = Scope(all: bool, namespaces: set<string>)

  datatype Mapping = Mapping(admins: seq<string>, groupToNs: map<string, seq<string>>, userToNs: map<string, seq<string>>)

  const NO_MAPPING: Mapping := Mapping([], map[], map[])

  datatype Read = Content(bytes: string) | ReadError

  /** The pieces of the environment: a digest, its zero value, and a parser that may fail. */
  datatype Codec<!D> = Codec(hash: string -> D, zero: D, parse: string -> Option<Mapping>)

  datatype Held<D> = Held(m: Mapping, sum: D)

  function Parses<D>(codec: Codec<D>, read: Read): Option<Mapping> {
    if read.Content? then codec.parse(read.bytes) else None
  }

  // ----- One reload -----

  function Reloaded<D(==)>(codec: Codec<D>, h: Held<D>, read: Read): (Held<D>, Result<bool>) {
    if read.ReadError? then (h, Err)
    else if codec.hash(read.bytes) == h.sum then (h, Ok(false))
    else match codec.parse(read.bytes)
      case None => (h, Err)
      case Some(m) => (Held(m, codec.hash(read.bytes)), Ok(true))
  }

  class StaticAuthorizer<D(==)> {
    const codec: Codec<D>
    var m: Mapping
    var sum: D

    constructor (codec: Codec<D>)
      ensures this.codec == codec && Holding() == Held(NO_MAPPING, codec.zero)
    {
      this.codec, m, sum := codec, NO_MAPPING, codec.zero;
    }

    ghost function Holding(): Held<D>
      reads this
    {
      Held(m, sum)
    }

    /** Rereads the mapping, reporting whether the contents changed. */
    method Reload(read: Read) returns (changed: Result<bool>)
      modifies this
      ensures (Holding(), changed) == Reloaded(codec, old(Holding()), read)
    {
      if read.ReadError? {
        return Err;
      }
      var digest := codec.hash(read.bytes);
      if digest == sum {
        return Ok(false);
      }
      var parsed := codec.parse(read.bytes);
      if parsed.None? {
        return Err;
      }
      m, sum := parsed.value, digest;
      return Ok(true);
    }

    /** Reloads once per tick, counting outcomes; a failed reload keeps the last good mapping. */
    method RunReloader(interval: int, ticks: seq<Read>) returns (errors: nat, same: nat, changes: nat)
      modifies this
      ensures interval <= 0 ==> Holding() == old(Holding()) && errors == same == changes == 0
      ensures interval > 0 ==> Holding() == After(codec, old(Holding()), ticks, |ticks|)
      ensures interval > 0 ==> errors == Outcomes(codec, old(Holding()), ticks, |ticks|, Err)
      ensures interval > 0 ==> same == Outcomes(codec, old(Holding()), ticks, |ticks|, Ok(false))
      ensures interval > 0 ==> changes == Outcomes(codec, old(Holding()), ticks, |ticks|, Ok(true))
    {
      errors, same, changes := 0, 0, 0;
      if interval <= 0 {
        return;
      }
      for i := 0 to |ticks|
        invariant Holding() == After(codec, old(Holding()), ticks, i)
        invariant errors == Outcomes(codec, old(Holding()), ticks, i, Err)
        invariant same == Outcomes(codec, old(Holding()), ticks, i, Ok(false))
        invariant changes == Outcomes(codec, old(Holding()), ticks, i, Ok(true))
      {
        var changed := Reload(ticks[i]);
        if changed.Err? {
          errors := errors + 1;
          continue;
        }
        if !changed.value {
          same := same + 1;
          continue;
        }
        changes := changes + 1;
      }
    }

    /** Resolves the caller against the mapping in force. */
    method AllowedNamespaces(id: Identity) returns (scope: Scope)
      ensures scope.all <==> IsAdmin(m, id)
      ensures !scope.all ==> forall n :: n in scope.namespaces <==> Grants(m, id, n)
    {
      if Contains(m.admins, id.user) || Contains(m.admins, id.email) {
        return Scope(true, {});
      }
      for i := 0 to |id.groups|
        invariant forall j :: 0 <= j < i ==> !Contains(m.admins, id.groups[j])
      {
        if Contains(m.admins, id.groups[i]) {
          return Scope(true, {});
        }
      }
      var ns := Members(m.userToNs, id.user) + Members(m.userToNs, id.email);
      for i := 0 to |id.groups|
        invariant forall n :: n in ns <==>
          Lists(m.userToNs, id.user, n) || Lists(m.userToNs, id.email, n)
          || exists j :: 0 <= j < i && Lists(m.groupToNs, id.groups[j], n)
      {
        ns := ns + Members(m.groupToNs, id.groups[i]);
      }
      return Scope(false, ns);
    }
  }

  predicate Contains(list: seq<string>, s: string) {
    s != "" && s in list
  }

  predicate Lists(table: map<string, seq<string>>, key: string, n: string) {
    key in table && n in table[key]
  }

  function Members(table: map<string, seq<string>>, key: string): (members: set<string>)
    ensures forall n :: n in members <==> Lists(table, key, n)
  {
    if key in table then set n | n in table[key] else {}
  }

  predicate IsAdmin(m: Mapping, id: Identity) {
    Contains(m.admins, id.user) || Contains(m.admins, id.email) || exists g :: g in id.groups && Contains(m.admins, g)
  }

  predicate Grants(m: Mapping, id: Identity, n: string) {
    Lists(m.userToNs, id.user, n) || Lists(m.userToNs, id.email, n) || exists g :: g in id.groups && Lists(m.groupToNs, g, n)
  }

  /** The mapping does not tell apart identities that differ in group order only. */
  lemma SameCallerSameScope(m: Mapping, a: Identity, b: Identity, n: string)
    requires SameCaller(a, b)
    ensures IsAdmin(m, a) == IsAdmin(m, b) && Grants(m, a, n) == Grants(m, b, n)
  {
    forall g ensures g in a.groups <==> g in b.groups {
      assert g in multiset(a.groups) <==> g in multiset(b.groups);
    }
  }

  // ----- What one rule does -----

  /** No rules grant nothing. */
  lemma NoRules(id: Identity, n: string)
    ensures !IsAdmin(NO_MAPPING, id) && !Grants(NO_MAPPING, id, n)
  {
  }

  /** A further admin name makes admins of just those who bear it; the empty name makes nobody one. */
  lemma AdminRule(m: Mapping, name: string, id: Identity, n: string)
    ensures
      var more := m.(admins := m.admins + [name]);
      && (IsAdmin(more, id) <==> IsAdmin(m, id) || (name != "" && (name == id.user || name == id.email || name in id.groups)))
      && (Grants(more, id, n) <==> Grants(m, id, n))
  {
  }

  /** A rule for a user name grants its namespaces to just those whose user or email it is. */
  lemma UserRule(m: Mapping, name: string, list: seq<string>, id: Identity, n: string)
    requires name !in m.userToNs
    ensures
      var more := m.(userToNs := m.userToNs[name := list]);
      && (Grants(more, id, n) <==> Grants(m, id, n) || ((name == id.user || name == id.email) && n in list))
      && (IsAdmin(more, id) <==> IsAdmin(m, id))
  {
  }

  /** A rule for a group grants its namespaces to just its members. */
  lemma GroupRule(m: Mapping, group: string, list: seq<string>, id: Identity, n: string)
    requires group !in m.groupToNs
    ensures
      var more := m.(groupToNs := m.groupToNs[group := list]);
      && (Grants(more, id, n) <==> Grants(m, id, n) || (group in id.groups && n in list))
      && (IsAdmin(more, id) <==> IsAdmin(m, id))
  {
  }

  /** The rule that grants n is one for a name the caller bears, and not for a missing one. */
  predicate GrantedByName(m: Mapping, id: Identity, n: string) {
    || (id.user != "" && Lists(m.userToNs, id.user, n))
    || (id.email != "" && Lists(m.userToNs, id.email, n))
    || exists g :: g in id.groups && Lists(m.groupToNs, g, n)
  }

  /**
   The user rules lack the non-empty check of the admin names: a caller without a
   user or without an email is never granted n for what is missing, whoever it is,
   exactly if no rule for the empty name grants n.
   */
  lemma MissingNameGrantsExactly(m: Mapping, n: string)
    ensures (forall id :: Grants(m, id, n) ==> GrantedByName(m, id, n)) <==> !Lists(m.userToNs, "", n)
  {
    if Lists(m.userToNs, "", n) {
      var name := Outside(m.userToNs.Keys);
      var stranger := Identity(name, "", []);
      assert Grants(m, stranger, n) && !GrantedByName(m, stranger, n);
    }
  }

  // ----- Histories of reloads -----

  function After<D(==)>(codec: Codec<D>, h: Held<D>, history: seq<Read>, n: nat): Held<D>
    requires n <= |history|
  {
    if n == 0 then h else Reloaded(codec, After(codec, h, history, n - 1), history[n - 1]).0
  }

  function Reported<D(==)>(codec: Codec<D>, h: Held<D>, history: seq<Read>, i: nat): Result<bool>
    requires i < |history|
  {
    Reloaded(codec, After(codec, h, history, i), history[i]).1
  }

  /** How often the first n reads had the given outcome. */
  function Outcomes<D(==)>(codec: Codec<D>, h: Held<D>, history: seq<Read>, n: nat, outcome: Result<bool>): nat
    requires n <= |history|
  {
    if n == 0 then 0 else
      Outcomes(codec, h, history, n - 1, outcome) + if Reported(codec, h, history, n - 1) == outcome then 1 else 0
  }

  /** The most recent of the first n reads that parses: what always reparsing would hold. */
  function LastGood<D>(codec: Codec<D>, history: seq<Read>, n: nat): Option<string>
    requires n <= |history|
  {
    if n == 0 then None
    else if Parses(codec, history[n - 1]).Some? then Some(history[n - 1].bytes)
    else LastGood(codec, history, n - 1)
  }

  function Boot<D>(codec: Codec<D>): Held<D> {
    Held(NO_MAPPING, codec.zero)
  }

  /** The mapping in force always is the parse of the most recent parseable content. */
  ghost predicate KeepsLastGood<D(!new)>(codec: Codec<D>, history: seq<Read>) {
    forall n :: 1 <= n <= |history| ==> HoldsLastGood(codec, history, n)
  }

  ghost predicate HoldsLastGood<D>(codec: Codec<D>, history: seq<Read>, n: nat)
    requires n <= |history|
  {
    && LastGood(codec, history, n).Some?
    && Some(After(codec, Boot(codec), history, n).m) == codec.parse(LastGood(codec, history, n).value)
  }

  ghost predicate GoodStart<D>(codec: Codec<D>, history: seq<Read>) {
    |history| > 0 && Parses(codec, history[0]).Some?
  }

  /** Equal digests of parseable contents mean equal mappings, and the zero digest means none. */
  ghost predicate Faithful<D(!new)>(codec: Codec<D>) {
    && (forall a, b :: codec.parse(a).Some? && codec.parse(b).Some? && codec.hash(a) == codec.hash(b) ==> codec.parse(a) == codec.parse(b))
    && (forall a :: codec.parse(a).Some? && codec.hash(a) == codec.zero ==> codec.parse(a) == Some(NO_MAPPING))
  }

  /** The held digest is that of some parseable content with the held mapping, or still the zero one. */
  ghost predicate Consistent<D(!new)>(codec: Codec<D>, h: Held<D>) {
    h == Boot(codec) || exists c :: codec.hash(c) == h.sum && codec.parse(c) == Some(h.m)
  }

  lemma {:induction false} ReloadsKeepLastGood<D(!new)>(codec: Codec<D>, history: seq<Read>, n: nat)
    requires Faithful(codec) && GoodStart(codec, history) && n <= |history|
    ensures Consistent(codec, After(codec, Boot(codec), history, n))
    ensures n > 0 ==> HoldsLastGood(codec, history, n)
  {
    if n > 0 {
      ReloadsKeepLastGood(codec, history, n - 1);
    }
  }

  /**
   The hash shortcut agrees with always reparsing on every history with a good
   start exactly when the digest never identifies contents that parse differently.
   */
  lemma LastGoodExactly<D(!new)>(codec: Codec<D>)
    ensures Faithful(codec) <==> forall history :: GoodStart(codec, history) ==> KeepsLastGood(codec, history)
  {
    if Faithful(codec) {
      forall history | GoodStart(codec, history) ensures KeepsLastGood(codec, history) {
        forall n | 1 <= n <= |history|
          ensures HoldsLastGood(codec, history, n)
        {
          ReloadsKeepLastGood(codec, history, n);
        }
      }
    } else if a :| codec.parse(a).Some? && codec.hash(a) == codec.zero && codec.parse(a) != Some(NO_MAPPING) {
      ForgedStart(codec, a);
    } else {
      var a, b :| codec.parse(a).Some? && codec.parse(b).Some? && codec.hash(a) == codec.hash(b) && codec.parse(a) != codec.parse(b);
      ForgedUpdate(codec, a, b);
    }
  }

  lemma ForgedStart<D(!new)>(codec: Codec<D>, a: string)
    requires codec.parse(a).Some? && codec.hash(a) == codec.zero && codec.parse(a) != Some(NO_MAPPING)
    ensures GoodStart(codec, [Content(a)]) && !KeepsLastGood(codec, [Content(a)])
  {
    var history := [Content(a)];
    assert After(codec, Boot(codec), history, 1) == Boot(codec);
    assert LastGood(codec, history, 1) == Some(a) && !HoldsLastGood(codec, history, 1);
  }

  lemma ForgedUpdate<D(!new)>(codec: Codec<D>, a: string, b: string)
    requires codec.parse(a).Some? && codec.parse(b).Some? && codec.hash(a) == codec.hash(b) != codec.zero
    requires codec.parse(a) != codec.parse(b)
    ensures GoodStart(codec, [Content(a), Content(b)]) && !KeepsLastGood(codec, [Content(a), Content(b)])
  {
    var history := [Content(a), Content(b)];
    assert After(codec, Boot(codec), history, 0) == Boot(codec);
    assert After(codec, Boot(codec), history, 1) == Held(codec.parse(a).value, codec.hash(a));
    assert After(codec, Boot(codec), history, 2) == Held(codec.parse(a).value, codec.hash(a));
    assert LastGood(codec, history, 2) == Some(b) && !HoldsLastGood(codec, history, 2);
  }

  /** The digest tells parseable contents apart from each other and from the zero digest. */
  ghost predicate CollisionFree<D(!new)>(codec: Codec<D>) {
    && (forall a, b :: codec.parse(a).Some? && codec.parse(b).Some? && codec.hash(a) == codec.hash(b) ==> a == b)
    && (forall a :: codec.parse(a).Some? ==> codec.hash(a) != codec.zero)
  }

  lemma {:induction false} HeldIsLastGood<D(!new)>(codec: Codec<D>, history: seq<Read>, n: nat)
    requires CollisionFree(codec) && n <= |history|
    ensures
      var h, last := After(codec, Boot(codec), history, n), LastGood(codec, history, n);
      if last.None? then h == Boot(codec)
      else codec.parse(last.value).Some? && h == Held(codec.parse(last.value).value, codec.hash(last.value))
  {
    if n > 0 {
      HeldIsLastGood(codec, history, n - 1);
    }
  }

  /** A change is reported exactly when parseable content differs from the content in force. */
  lemma ChangedExactly<D(!new)>(codec: Codec<D>, history: seq<Read>, i: nat)
    requires CollisionFree(codec) && i < |history|
    ensures Reported(codec, Boot(codec), history, i) == Ok(true)
       <==> Parses(codec, history[i]).Some? && LastGood(codec, history, i) != Some(history[i].bytes)
  {
    HeldIsLastGood(codec, history, i);
  }

  // ----- Errors and counts -----

  /** No digest of unparseable content passes for that of a parseable one, or for the zero digest. */
  ghost predicate ErrorsShow<D(!new)>(codec: Codec<D>) {
    && (forall a, b :: codec.parse(a).None? && codec.parse(b).Some? ==> codec.hash(a) != codec.hash(b))
    && (forall a :: codec.parse(a).None? ==> codec.hash(a) != codec.zero)
  }

  lemma {:induction false} HeldIsConsistent<D(!new)>(codec: Codec<D>, history: seq<Read>, n: nat)
    requires n <= |history|
    ensures Consistent(codec, After(codec, Boot(codec), history, n))
  {
    if n > 0 {
      HeldIsConsistent(codec, history, n - 1);
    }
  }

  /** Only reads that fail or do not parse are reported as errors; all of them are, in every history, exactly if their digests show. */
  lemma ErrorsExactly<D(!new)>(codec: Codec<D>)
    ensures forall history, i: nat :: i < |history| && Reported(codec, Boot(codec), history, i) == Err ==> Parses(codec, history[i]).None?
    ensures ErrorsShow(codec) <==>
      forall history, i: nat :: i < |history| && Parses(codec, history[i]).None? ==> Reported(codec, Boot(codec), history, i) == Err
  {
    if ErrorsShow(codec) {
      forall history, i: nat | i < |history| && Parses(codec, history[i]).None?
        ensures Reported(codec, Boot(codec), history, i) == Err
      {
        HeldIsConsistent(codec, history, i);
      }
    } else if a :| codec.parse(a).None? && codec.hash(a) == codec.zero {
      var history := [Content(a)];
      assert Parses(codec, history[0]).None? && Reported(codec, Boot(codec), history, 0) == Ok(false);
    } else {
      var a, b :| codec.parse(a).None? && codec.parse(b).Some? && codec.hash(a) == codec.hash(b);
      var history := [Content(b), Content(a)];
      assert After(codec, Boot(codec), history, 0) == Boot(codec);
      assert After(codec, Boot(codec), history, 1) == Held(codec.parse(b).value, codec.hash(b));
      assert Parses(codec, history[1]).None? && Reported(codec, Boot(codec), history, 1) == Ok(false);
    }
  }

  /** What the first n reads were reported as. */
  function Reports<D(==)>(codec: Codec<D>, h: Held<D>, history: seq<Read>, n: nat): seq<Result<bool>>
    requires n <= |history|
  {
    seq(n, i requires 0 <= i < n => Reported(codec, h, history, i))
  }

  /** Each outcome is counted as often as it was reported. */
  lemma {:induction false} OutcomesCount<D>(codec: Codec<D>, h: Held<D>, history: seq<Read>, n: nat, outcome: Result<bool>)
    requires n <= |history|
    ensures Outcomes(codec, h, history, n, outcome) == multiset(Reports(codec, h, history, n))[outcome]
  {
    if n > 0 {
      OutcomesCount(codec, h, history, n - 1, outcome);
      assert Reports(codec, h, history, n) == Reports(codec, h, history, n - 1) + [Reported(codec, h, history, n - 1)];
    }
  }
}
