/** The caller's identity, read from headers, and the key it is cached under. */
module Identity {
  import opened Options
  import opened Strings

  datatype Identity = Identity(user: string, email: string, groups: seq<string>)

  const COMMA := ','
  const NUL := '\0'

  // ----- The groups header -----

  function NonEmpty(parts: seq<string>): seq<string> {
    if parts == [] then [] else
      var g := TrimSpace(parts[0]);
      (if g == "" then [] else [g]) + NonEmpty(parts[1..])
  }

  /** What one header value lists. */
  function Listed(item: string): seq<string> {
    NonEmpty(Split(item, COMMA))
  }

  function Groups(values: seq<string>): seq<string> {
    if values == [] then [] else Listed(values[0]) + Groups(values[1..])
  }

  method SplitGroups(values: seq<string>) returns (out: seq<string>)
    ensures out == Groups(values)
  {
    out := [];
    for i := 0 to |values|
      invariant out + Groups(values[i..]) == Groups(values)
    {
      var parts := Split(values[i], COMMA);
      ghost var before := out;
      for j := 0 to |parts|
        invariant out + NonEmpty(parts[j..]) == before + NonEmpty(parts)
      {
        assert parts[j..][1..] == parts[j + 1..];
        var g := TrimSpace(parts[j]);
        if g != "" {
          Associative(out, [g], NonEmpty(parts[j + 1..]));
          out := out + [g];
        }
      }
      assert parts[|parts|..] == [] && out == before + Listed(values[i]);
      assert values[i..][1..] == values[i + 1..];
      Associative(before, Listed(values[i]), Groups(values[i + 1..]));
    }
  }

  /** The identity on a request, or Err when neither a user nor an email is present. */
  function From(user: string, email: string, groupValues: seq<string>): Result<Identity> {
    if user == "" && email == "" then Err else Ok(Identity(user, email, Groups(groupValues)))
  }

  /** A group name the header format can carry. */
  predicate WellFormedGroup(g: string) {
    g != "" && Trimmed(g) && Free(g, COMMA)
  }

  lemma {:induction false} NonEmptyDistributes(a: seq<string>, b: seq<string>)
    ensures NonEmpty(a + b) == NonEmpty(a) + NonEmpty(b)
  {
    if a == [] {
      assert a + b == b;
    } else {
      NonEmptyDistributes(a[1..], b);
      var all, g := a + b, TrimSpace(a[0]);
      assert all[0] == a[0] && all[1..] == a[1..] + b;
      Associative(if g == "" then [] else [g], NonEmpty(a[1..]), NonEmpty(b));
    }
  }

  /** Reading headers distributes over concatenation. */
  lemma {:induction false} GroupsDistribute(a: seq<string>, b: seq<string>)
    ensures Groups(a + b) == Groups(a) + Groups(b)
  {
    if a == [] {
      assert a + b == b;
    } else {
      GroupsDistribute(a[1..], b);
      var all := a + b;
      assert all[0] == a[0] && all[1..] == a[1..] + b;
      Associative(Listed(a[0]), Groups(a[1..]), Groups(b));
    }
  }

  /** Repeated headers mean the same as one comma-joined header (sections 5.3 and 5.6.1 of RFC 9110). */
  lemma {:induction false} RepeatedOrJoined(values: seq<string>)
    ensures Groups([Join(values, COMMA)]) == Groups(values)
  {
    if values == [] {
      assert NonEmpty([""]) == [];
    } else if |values| > 1 {
      RepeatedOrJoined(values[1..]);
      var rest := Join(values[1..], COMMA);
      SplitAt(values[0], rest, COMMA);
      NonEmptyDistributes(Split(values[0], COMMA), Split(rest, COMMA));
      assert Groups([rest]) == Listed(rest) && Groups([Join(values, COMMA)]) == Listed(Join(values, COMMA));
    }
  }

  lemma {:induction false} NonEmptyWellFormed(parts: seq<string>)
    requires forall p :: p in parts ==> Free(p, COMMA)
    ensures forall g :: g in NonEmpty(parts) ==> WellFormedGroup(g)
  {
    if parts != [] {
      TrimSpaceFacts(parts[0]);
      NonEmptyWellFormed(parts[1..]);
      assert parts[0] in parts && forall p :: p in parts[1..] ==> p in parts;
      forall g | g in NonEmpty(parts) ensures WellFormedGroup(g) {
        assert g in NonEmpty(parts[1..]) || g == TrimSpace(parts[0]);
      }
    }
  }

  /** Only trimmed, non-empty, comma-free groups are ever read. */
  lemma {:induction false} GroupsWellFormed(values: seq<string>)
    ensures forall g :: g in Groups(values) ==> WellFormedGroup(g)
  {
    if values != [] {
      SplitPiecesFree(values[0], COMMA);
      NonEmptyWellFormed(Split(values[0], COMMA));
      GroupsWellFormed(values[1..]);
    }
  }

  lemma {:induction false} NonEmptyKeeps(gs: seq<string>)
    requires forall g :: g in gs ==> WellFormedGroup(g)
    ensures NonEmpty(gs) == gs
  {
    if gs != [] {
      assert gs[0] in gs && forall g :: g in gs[1..] ==> g in gs;
      TrimSpaceFacts(gs[0]);
      NonEmptyKeeps(gs[1..]);
      assert [gs[0]] + gs[1..] == gs;
    }
  }

  /** Reading a header undoes writing it for exactly the well-formed group lists. */
  lemma GroupsRoundTrip(gs: seq<string>)
    ensures Groups([Join(gs, COMMA)]) == gs <==> forall g :: g in gs ==> WellFormedGroup(g)
  {
    GroupsWellFormed([Join(gs, COMMA)]);
    if forall g :: g in gs ==> WellFormedGroup(g) {
      assert Groups([Join(gs, COMMA)]) == Listed(Join(gs, COMMA));
      if gs == [] {
        assert NonEmpty([""]) == [];
      } else {
        SplitJoin(gs, COMMA);
        NonEmptyKeeps(gs);
      }
    }
  }

  /** p is g with white space around it; for an empty g nothing but white space. */
  ghost predicate Pads(p: string, g: string) {
    Trimmed(g) && exists left, right :: Blank(left) && Blank(right) && p == left + g + right
  }

  /** The names that are there. */
  function Present(gs: seq<string>): seq<string> {
    if gs == [] then [] else (if gs[0] == "" then [] else [gs[0]]) + Present(gs[1..])
  }

  lemma {:induction false} PaddedPieces(ps: seq<string>, gs: seq<string>)
    requires |ps| == |gs| && forall i :: 0 <= i < |ps| ==> Pads(ps[i], gs[i])
    ensures NonEmpty(ps) == Present(gs)
  {
    if ps != [] {
      assert Pads(ps[0], gs[0]);
      var left, right :| Blank(left) && Blank(right) && ps[0] == left + gs[0] + right;
      TrimsExactly(left, gs[0], right);
      forall i | 0 <= i < |ps[1..]| ensures Pads(ps[1..][i], gs[1..][i]) {
        assert Pads(ps[i + 1], gs[i + 1]);
      }
      PaddedPieces(ps[1..], gs[1..]);
    }
  }

  /** A header lists its groups whatever white space is around them, and empty ones not at all. */
  lemma PaddedGroupsRead(ps: seq<string>, gs: seq<string>)
    requires |ps| == |gs| > 0 && forall i :: 0 <= i < |ps| ==> Pads(ps[i], gs[i]) && Free(ps[i], COMMA)
    ensures Groups([Join(ps, COMMA)]) == Present(gs)
  {
    assert Groups([Join(ps, COMMA)]) == Listed(Join(ps, COMMA)) + Groups([]);
    SplitJoin(ps, COMMA);
    PaddedPieces(ps, gs);
  }

  // ----- The cache key -----

  function CacheKey(id: Identity): string {
    id.user + [NUL] + id.email + [NUL] + Join(Sort(id.groups), NUL)
  }

  /** Section 5.5 of RFC 9110 rules NUL out of field values; reading headers rules out empty groups. */
  predicate WellFormed(id: Identity) {
    && Free(id.user, NUL) && Free(id.email, NUL)
    && forall g :: g in id.groups ==> Free(g, NUL) && g != ""
  }

  /** The same caller, with the groups possibly in another order. */
  predicate SameCaller(a: Identity, b: Identity) {
    a.user == b.user && a.email == b.email && multiset(a.groups) == multiset(b.groups)
  }

  lemma SortKeepsMembers(gs: seq<string>)
    ensures forall g :: g in Sort(gs) <==> g in gs
    ensures |Sort(gs)| == |gs|
  {
    SortFacts(gs);
    forall g ensures g in Sort(gs) <==> g in gs {
      assert g in multiset(Sort(gs)) <==> g in multiset(gs);
    }
    assert |multiset(Sort(gs))| == |multiset(gs)|;
  }

  /** The key spells out user, email and sorted groups, unambiguously. */
  lemma KeySpells(id: Identity)
    requires WellFormed(id)
    ensures Split(CacheKey(id), NUL) == [id.user, id.email] + if id.groups == [] then [""] else Sort(id.groups)
  {
    var tail := Join(Sort(id.groups), NUL);
    Associative(id.user + [NUL], id.email, [NUL]);
    Associative(id.user + [NUL], id.email + [NUL], tail);
    assert CacheKey(id) == id.user + [NUL] + (id.email + [NUL] + tail);
    SplitAt(id.user, id.email + [NUL] + tail, NUL);
    SplitAt(id.email, tail, NUL);
    SplitFree(id.user, NUL);
    SplitFree(id.email, NUL);
    Associative([id.user], [id.email], Split(tail, NUL));
    assert [id.user] + [id.email] == [id.user, id.email];
    GroupsSpelt(id.groups);
  }

  lemma GroupsSpelt(gs: seq<string>)
    requires forall g :: g in gs ==> Free(g, NUL)
    ensures Split(Join(Sort(gs), NUL), NUL) == if gs == [] then [""] else Sort(gs)
  {
    SortKeepsMembers(gs);
    if gs != [] {
      SplitJoin(Sort(gs), NUL);
    }
  }

  /** Two well-formed identities share a cache entry exactly when they are the same caller. */
  lemma CacheKeyInjective(a: Identity, b: Identity)
    requires WellFormed(a) && WellFormed(b)
    ensures CacheKey(a) == CacheKey(b) <==> SameCaller(a, b)
  {
    SortFacts(a.groups);
    SortFacts(b.groups);
    if SameCaller(a, b) {
      SortedUnique(Sort(a.groups), Sort(b.groups));
    }
    if CacheKey(a) == CacheKey(b) {
      KeySpells(a);
      KeySpells(b);
      SortKeepsMembers(a.groups);
      SortKeepsMembers(b.groups);
      var ta, tb := if a.groups == [] then [""] else Sort(a.groups), if b.groups == [] then [""] else Sort(b.groups);
      assert ([a.user, a.email] + ta)[0] == ([b.user, b.email] + tb)[0];
      assert ([a.user, a.email] + ta)[1] == ([b.user, b.email] + tb)[1];
      assert ([a.user, a.email] + ta)[2..] == ta && ([b.user, b.email] + tb)[2..] == tb;
      if a.groups == [] || b.groups == [] {
        assert "" !in Sort(a.groups) && "" !in Sort(b.groups);
        assert ta == tb;
        assert "" in ta || "" in tb;
      }
    }
  }

  /** Both conditions are needed: without them different callers share a key. */
  lemma CacheKeyCollides()
    ensures
      var a, b := Identity("u", "", [""]), Identity("u", "", []);
      CacheKey(a) == CacheKey(b) && !SameCaller(a, b)
    ensures
      var a, b := Identity("u", "e", ["g", "h"]), Identity("u", "e" + [NUL] + "g", ["h"]);
      CacheKey(a) == CacheKey(b) && !SameCaller(a, b)
  {
  }

  /** An identity read from NUL-free headers is well formed. */
  lemma FromWellFormed(user: string, email: string, values: seq<string>)
    requires Free(user, NUL) && Free(email, NUL) && forall v :: v in values ==> Free(v, NUL)
    ensures From(user, email, values).Ok? ==> WellFormed(From(user, email, values).value)
    ensures From(user, email, values).Err? <==> user == "" && email == ""
    ensures From(user, email, values).Ok? ==>
      var id := From(user, email, values).value; id.user == user && id.email == email && id.groups == Groups(values)
  {
    GroupsWellFormed(values);
    GroupsNulFree(values);
  }

  lemma {:induction false} GroupsNulFree(values: seq<string>)
    requires forall v :: v in values ==> Free(v, NUL)
    ensures forall g :: g in Groups(values) ==> Free(g, NUL)
  {
    if values != [] {
      GroupsNulFree(values[1..]);
      PiecesNulFree(values[0]);
      NonEmptyNulFree(Split(values[0], COMMA));
    }
  }

  lemma {:induction false} PiecesNulFree(s: string)
    requires Free(s, NUL)
    ensures forall p :: p in Split(s, COMMA) ==> Free(p, NUL)
  {
    if s != "" {
      PiecesNulFree(s[1..]);
      var rest := Split(s[1..], COMMA);
      assert rest[0] in rest && forall p :: p in rest[1..] ==> p in rest;
      forall p | p in Split(s, COMMA) ensures Free(p, NUL) {
        assert p == "" || p in rest || p == [s[0]] + rest[0];
      }
    }
  }

  lemma {:induction false} NonEmptyNulFree(parts: seq<string>)
    requires forall p :: p in parts ==> Free(p, NUL)
    ensures forall g :: g in NonEmpty(parts) ==> Free(g, NUL)
  {
    if parts != [] {
      TrimSpaceFacts(parts[0]);
      assert parts[0] in parts && forall p :: p in parts[1..] ==> p in parts;
      NonEmptyNulFree(parts[1..]);
      forall g | g in NonEmpty(parts) ensures Free(g, NUL) {
        assert g in NonEmpty(parts[1..]) || g == TrimSpace(parts[0]);
      }
    }
  }
}
