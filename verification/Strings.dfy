/** Splitting, joining, trimming and ordering of strings. */
module Strings {

  // ----- Split and join -----

  predicate Free(s: string, sep: char) {
    sep !in s
  }

  /** Every piece between separators, empty ones included; never an empty list. */
  function Split(s: string, sep: char): (parts: seq<string>)
    ensures |parts| > 0
  {
    if s == "" then [""] else
      var rest := Split(s[1..], sep);
      if s[0] == sep then [""] + rest else [[s[0]] + rest[0]] + rest[1..]
  }

  function Join(parts: seq<string>, sep: char): string {
    if parts == [] then "" else if |parts| == 1 then parts[0] else parts[0] + [sep] + Join(parts[1..], sep)
  }

  lemma Associative<T>(a: seq<T>, b: seq<T>, c: seq<T>)
    ensures (a + b) + c == a + (b + c)
  {
  }

  /** What is put before the first piece stays out of the way of the pieces after it. */
  lemma HeadApart<T>(head: T, a: seq<T>, b: seq<T>)
    requires a != []
    ensures (a + b)[0] == a[0] && [head] + (a + b)[1..] == ([head] + a[1..]) + b
  {
    assert (a + b)[1..] == a[1..] + b;
  }

  /** A separator between two strings separates their pieces. */
  lemma {:induction false} SplitAt(a: string, b: string, sep: char)
    ensures Split(a + [sep] + b, sep) == Split(a, sep) + Split(b, sep)
  {
    var whole := a + [sep] + b;
    if a == "" {
      assert whole[0] == sep && whole[1..] == b;
    } else {
      SplitAt(a[1..], b, sep);
      assert whole[0] == a[0] && whole[1..] == a[1..] + [sep] + b;
      var rest := Split(a[1..], sep);
      Associative([""], rest, Split(b, sep));
      HeadApart([a[0]] + rest[0], rest, Split(b, sep));
    }
  }

  lemma {:induction false} SplitFree(a: string, sep: char)
    requires Free(a, sep)
    ensures Split(a, sep) == [a]
  {
    if a != "" {
      SplitFree(a[1..], sep);
      assert [a[0]] + a[1..] == a;
    }
  }

  /** Splitting undoes joining on separator-free pieces. */
  lemma {:induction false} SplitJoin(parts: seq<string>, sep: char)
    requires parts != [] && forall p :: p in parts ==> Free(p, sep)
    ensures Split(Join(parts, sep), sep) == parts
  {
    SplitFree(parts[0], sep);
    if |parts| > 1 {
      SplitJoin(parts[1..], sep);
      SplitAt(parts[0], Join(parts[1..], sep), sep);
      assert [parts[0]] + parts[1..] == parts;
    }
  }

  lemma {:induction false} SplitPiecesFree(s: string, sep: char)
    ensures forall p :: p in Split(s, sep) ==> Free(p, sep)
  {
    if s != "" {
      SplitPiecesFree(s[1..], sep);
      var rest := Split(s[1..], sep);
      assert rest[0] in rest && forall p :: p in rest[1..] ==> p in rest;
      forall p | p in Split(s, sep) ensures Free(p, sep) {
        assert p == "" || p in rest || (s[0] != sep && p == [s[0]] + rest[0]);
      }
    }
  }

  // ----- Trimming -----

  /** Unicode white space. */
  predicate IsSpace(c: char) {
    || c in {'\t', '\n', '\U{000B}', '\U{000C}', '\r', ' ', '\U{0085}', '\U{00A0}', '\U{1680}', '\U{2028}', '\U{2029}', '\U{202F}', '\U{205F}', '\U{3000}'}
    || '\U{2000}' <= c <= '\U{200A}'
  }

  function TrimLeft(s: string): string {
    if s != "" && IsSpace(s[0]) then TrimLeft(s[1..]) else s
  }

  function TrimRight(s: string): string {
    if s != "" && IsSpace(s[|s| - 1]) then TrimRight(s[..|s| - 1]) else s
  }

  function TrimSpace(s: string): string {
    TrimRight(TrimLeft(s))
  }

  predicate Trimmed(s: string) {
    s == "" || (!IsSpace(s[0]) && !IsSpace(s[|s| - 1]))
  }

  lemma {:induction false} TrimLeftFacts(s: string)
    ensures var t := TrimLeft(s); (t != "" ==> !IsSpace(t[0])) && forall c :: c in t ==> c in s
  {
    if s != "" && IsSpace(s[0]) {
      TrimLeftFacts(s[1..]);
    }
  }

  lemma {:induction false} TrimRightFacts(s: string)
    ensures var t := TrimRight(s);
      && (t != "" ==> !IsSpace(t[|t| - 1])) && (forall c :: c in t ==> c in s) && t <= s
  {
    if s != "" && IsSpace(s[|s| - 1]) {
      TrimRightFacts(s[..|s| - 1]);
    }
  }

  lemma TrimSpaceFacts(s: string)
    ensures Trimmed(TrimSpace(s)) && forall c :: c in TrimSpace(s) ==> c in s
    ensures Trimmed(s) ==> TrimSpace(s) == s
  {
    TrimLeftFacts(s);
    TrimRightFacts(TrimLeft(s));
  }

  /** Nothing but white space. */
  predicate Blank(s: string) {
    forall c :: c in s ==> IsSpace(c)
  }

  lemma {:induction false} TrimLeftStops(left: string, rest: string)
    requires Blank(left)
    ensures TrimLeft(left + rest) == TrimLeft(rest)
  {
    if left == "" {
      assert left + rest == rest;
    } else {
      assert (left + rest)[0] == left[0] && (left + rest)[1..] == left[1..] + rest;
      TrimLeftStops(left[1..], rest);
    }
  }

  lemma {:induction false} TrimRightStops(rest: string, right: string)
    requires Blank(right)
    ensures TrimRight(rest + right) == TrimRight(rest)
  {
    if right == "" {
      assert rest + right == rest;
    } else {
      var whole, n := rest + right, |rest + right|;
      assert whole[n - 1] == right[|right| - 1] && whole[..n - 1] == rest + right[..|right| - 1];
      TrimRightStops(rest, right[..|right| - 1]);
    }
  }

  /** Trimming strips all white space around what neither begins nor ends with it, and nothing else. */
  lemma TrimsExactly(left: string, core: string, right: string)
    requires Blank(left) && Blank(right) && Trimmed(core)
    ensures TrimSpace(left + core + right) == core
  {
    Associative(left, core, right);
    TrimLeftStops(left, core + right);
    if core == "" {
      assert core + right == right + "";
      TrimLeftStops(right, "");
    } else {
      assert (core + right)[0] == core[0];
      TrimRightStops(core, right);
    }
  }

  /** White space is what the White_Space property of Unicode says, by code point. */
  lemma SpacesExactly(c: char)
    ensures IsSpace(c) <==>
      var p := c as int;
      0x9 <= p <= 0xD || 0x2000 <= p <= 0x200A || p in {0x20, 0x85, 0xA0, 0x1680, 0x2028, 0x2029, 0x202F, 0x205F, 0x3000}
  {
  }

  // ----- Order -----

  /** Lexicographic order by code point, which is byte order in UTF-8. */
  predicate Leq(a: string, b: string) {
    if a == "" then true
    else if b == "" then false
    else if a[0] != b[0] then a[0] < b[0]
    else Leq(a[1..], b[1..])
  }

  lemma {:induction false} LeqTotal(a: string, b: string)
    ensures Leq(a, b) || Leq(b, a)
  {
    if a != "" && b != "" { LeqTotal(a[1..], b[1..]); }
  }

  lemma {:induction false} LeqAntisymmetric(a: string, b: string)
    requires Leq(a, b) && Leq(b, a)
    ensures a == b
  {
    if a != "" && b != "" {
      LeqAntisymmetric(a[1..], b[1..]);
      assert a == [a[0]] + a[1..] && b == [b[0]] + b[1..];
    }
  }

  lemma {:induction false} LeqTransitive(a: string, b: string, c: string)
    requires Leq(a, b) && Leq(b, c)
    ensures Leq(a, c)
  {
    if a != "" && b != "" && c != "" && a[0] == b[0] == c[0] { LeqTransitive(a[1..], b[1..], c[1..]); }
  }

  predicate Sorted(parts: seq<string>) {
    forall i, j :: 0 <= i < j < |parts| ==> Leq(parts[i], parts[j])
  }

  function Insert(x: string, parts: seq<string>): seq<string> {
    if parts == [] || Leq(x, parts[0]) then [x] + parts else [parts[0]] + Insert(x, parts[1..])
  }

  function Sort(parts: seq<string>): seq<string> {
    if parts == [] then [] else Insert(parts[0], Sort(parts[1..]))
  }

  lemma {:induction false} InsertFacts(x: string, parts: seq<string>)
    requires Sorted(parts)
    ensures Sorted(Insert(x, parts)) && multiset(Insert(x, parts)) == multiset(parts) + multiset{x}
  {
    if parts == [] {
    } else if Leq(x, parts[0]) {
      forall j | 0 <= j < |parts| ensures Leq(x, parts[j]) {
        if j > 0 { LeqTransitive(x, parts[0], parts[j]); }
      }
      SortedBehind(x, parts);
    } else {
      InsertFacts(x, parts[1..]);
      LeqTotal(x, parts[0]);
      var rest := Insert(x, parts[1..]);
      assert parts == [parts[0]] + parts[1..];
      forall j | 0 <= j < |rest| ensures Leq(parts[0], rest[j]) {
        assert rest[j] in multiset(rest);
        assert rest[j] == x || rest[j] in parts[1..];
      }
      SortedBehind(parts[0], rest);
    }
  }

  lemma SortedBehind(head: string, rest: seq<string>)
    requires Sorted(rest) && forall j :: 0 <= j < |rest| ==> Leq(head, rest[j])
    ensures Sorted([head] + rest) && multiset([head] + rest) == multiset(rest) + multiset{head}
  {
  }

  lemma {:induction false} SortFacts(parts: seq<string>)
    ensures Sorted(Sort(parts)) && multiset(Sort(parts)) == multiset(parts)
  {
    if parts != [] {
      SortFacts(parts[1..]);
      InsertFacts(parts[0], Sort(parts[1..]));
      assert parts == [parts[0]] + parts[1..];
    }
  }

  lemma HeadsAgree(a: seq<string>, b: seq<string>)
    requires Sorted(a) && Sorted(b) && multiset(a) == multiset(b) && a != []
    ensures b != [] && a[0] == b[0]
  {
    assert a[0] in multiset(b);
    assert b[0] in multiset(a);
    var i :| 0 <= i < |b| && b[i] == a[0];
    var j :| 0 <= j < |a| && a[j] == b[0];
    if i > 0 && j > 0 {
      LeqAntisymmetric(a[0], b[0]);
    }
  }

  /** A collection has one sorted listing. */
  lemma {:induction false} SortedUnique(a: seq<string>, b: seq<string>)
    requires Sorted(a) && Sorted(b) && multiset(a) == multiset(b)
    ensures a == b
  {
    if a == [] {
      assert |multiset(b)| == 0;
    } else {
      HeadsAgree(a, b);
      assert a == [a[0]] + a[1..] && b == [b[0]] + b[1..];
      assert multiset(a[1..]) == multiset(a) - multiset{a[0]};
      SortedUnique(a[1..], b[1..]);
    }
  }

  // ----- Fresh names -----

  /** Every set of names leaves some non-empty one out. */
  lemma Outside(names: set<string>) returns (ns: string)
    ensures ns != "" && ns !in names
  {
    var longest := Longest(names);
    ns := seq(longest + 1, _ => 'n');
  }

  lemma Longest(names: set<string>) returns (n: nat)
    ensures forall ns :: ns in names ==> |ns| <= n
  {
    n := 0;
    if names != {} {
      var ns :| ns in names;
      n := Longest(names - {ns});
      if n < |ns| { n := |ns|; }
    }
  }
}
