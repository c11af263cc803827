/**
 The text keys by which a cached row is compared with a server row. A set-valued
 column is sorted and comma-joined; the columns are joined by the unit separator.
 */
module ContentKeys {
  import Wrappers

  const UNIT_SEPARATOR: char := '\U{1f}'
  const COMMA: char := ','

  // ---------------------------------------------------------------------------
  // Lexicographic order and sorting
  // ---------------------------------------------------------------------------

  predicate Below(a: string, b: string) {
    a == [] || (b != [] && (a[0] < b[0] || (a[0] == b[0] && Below(a[1..], b[1..]))))
  }

  lemma {:induction false} BelowTotal(a: string, b: string)
    ensures Below(a, b) || Below(b, a)
  {
    if a != [] && b != [] {
      BelowTotal(a[1..], b[1..]);
    }
  }

  lemma {:induction false} BelowAntisymmetric(a: string, b: string)
    requires Below(a, b) && Below(b, a)
    ensures a == b
  {
    if a != [] && b != [] {
      BelowAntisymmetric(a[1..], b[1..]);
      assert a == [a[0]] + a[1..] && b == [b[0]] + b[1..];
    }
  }

  lemma {:induction false} BelowTransitive(a: string, b: string, c: string)
    requires Below(a, b) && Below(b, c)
    ensures Below(a, c)
  {
    if a != [] && a[0] == b[0] && b[0] == c[0] {
      BelowTransitive(a[1..], b[1..], c[1..]);
    }
  }

  function Insert(x: string, sorted: seq<string>): (r: seq<string>)
    ensures multiset(r) == multiset(sorted) + multiset{x}
  {
    if sorted == [] then [x]
    else if Below(x, sorted[0]) then [x] + sorted
    else
      assert sorted == [sorted[0]] + sorted[1..];
      [sorted[0]] + Insert(x, sorted[1..])
  }

  /** sort.Strings. */
  function Sorted(values: seq<string>): (r: seq<string>)
    ensures multiset(r) == multiset(values)
  {
    if values == [] then []
    else
      assert values == [values[0]] + values[1..];
      Insert(values[0], Sorted(values[1..]))
  }

  ghost predicate IsSorted(s: seq<string>) {
    forall i, j :: 0 <= i < j < |s| ==> Below(s[i], s[j])
  }

  lemma InMultiset(x: string, s: seq<string>)
    ensures x in s <==> x in multiset(s)
  {
  }

  lemma {:induction false} InsertSorts(x: string, s: seq<string>)
    requires IsSorted(s)
    ensures IsSorted(Insert(x, s))
  {
    if s != [] {
      if Below(x, s[0]) {
        forall j | 0 <= j < |s| ensures Below(x, s[j]) {
          if j > 0 {
            BelowTransitive(x, s[0], s[j]);
          }
        }
      } else {
        BelowTotal(x, s[0]);
        InsertSorts(x, s[1..]);
        var rest := Insert(x, s[1..]);
        forall j | 0 <= j < |rest| ensures Below(s[0], rest[j]) {
          InMultiset(rest[j], rest);
          InMultiset(rest[j], s[1..]);
          if rest[j] != x {
            assert rest[j] in s[1..];
          }
        }
      }
    }
  }

  lemma {:induction false} SortedSorts(values: seq<string>)
    ensures IsSorted(Sorted(values))
  {
    if values != [] {
      SortedSorts(values[1..]);
      InsertSorts(values[0], Sorted(values[1..]));
    }
  }

  lemma SortedHeadsEqual(a: seq<string>, b: seq<string>)
    requires IsSorted(a) && IsSorted(b) && multiset(a) == multiset(b) && a != [] && b != []
    ensures a[0] == b[0]
  {
    InMultiset(a[0], a);
    InMultiset(a[0], b);
    InMultiset(b[0], a);
    InMultiset(b[0], b);
    var i :| 0 <= i < |b| && b[i] == a[0];
    var j :| 0 <= j < |a| && a[j] == b[0];
    if i > 0 && j > 0 {
      BelowAntisymmetric(a[0], b[0]);
    }
  }

  lemma TailMultiset(a: seq<string>)
    requires a != []
    ensures multiset(a[1..]) == multiset(a) - multiset{a[0]}
  {
    assert a == [a[0]] + a[1..];
  }

  lemma {:induction false} SortedUnique(a: seq<string>, b: seq<string>)
    requires IsSorted(a) && IsSorted(b) && multiset(a) == multiset(b)
    ensures a == b
  {
    assert |a| == |multiset(a)| == |multiset(b)| == |b|;
    if a != [] {
      SortedHeadsEqual(a, b);
      TailMultiset(a);
      TailMultiset(b);
      SortedUnique(a[1..], b[1..]);
      assert a == [a[0]] + a[1..] && b == [b[0]] + b[1..];
    }
  }

  ghost predicate Strict(s: seq<string>) {
    IsSorted(s) && Wrappers.Distinct(s)
  }

  lemma {:induction false} StrictMultiset(s: seq<string>, x: string)
    requires Wrappers.Distinct(s)
    ensures multiset(s)[x] == if x in s then 1 else 0
  {
    if s != [] {
      var last := |s| - 1;
      StrictMultiset(s[..last], x);
      assert s == s[..last] + [s[last]];
    }
  }

  lemma {:induction false} RepeatedCounts(s: seq<string>, i: int, j: int)
    requires 0 <= i < j < |s| && s[i] == s[j]
    ensures multiset(s)[s[i]] >= 2
  {
    assert s == s[..j] + s[j..];
    assert s[i] in s[..j] && s[j] in s[j..];
  }

  lemma MultisetKeepsDistinct(a: seq<string>, b: seq<string>)
    requires Wrappers.Distinct(a) && multiset(a) == multiset(b)
    ensures Wrappers.Distinct(b)
  {
    forall i, j | 0 <= i < j < |b| ensures b[i] != b[j] {
      StrictMultiset(a, b[i]);
      if b[i] == b[j] {
        RepeatedCounts(b, i, j);
      }
    }
  }

  lemma StrictLists(a: seq<string>, b: seq<string>)
    requires Strict(a) && Strict(b) && forall x :: x in a <==> x in b
    ensures a == b
  {
    forall x ensures multiset(a)[x] == multiset(b)[x] {
      StrictMultiset(a, x);
      StrictMultiset(b, x);
    }
    assert multiset(a) == multiset(b);
    SortedUnique(a, b);
  }

  // ---------------------------------------------------------------------------
  // Joining
  // ---------------------------------------------------------------------------

  /** strings.Join with a one-character separator. */
  function Join(parts: seq<string>, sep: char): string {
    if parts == [] then ""
    else if |parts| == 1 then parts[0]
    else parts[0] + [sep] + Join(parts[1..], sep)
  }

  predicate Free(s: string, sep: char) {
    sep !in s
  }

  predicate AllFree(parts: seq<string>, sep: char) {
    forall p <- parts :: Free(p, sep)
  }

  lemma FirstFieldDetermined(x: string, y: string, r: string, s: string, sep: char)
    requires Free(x, sep) && Free(y, sep)
    requires x + [sep] + r == y + [sep] + s
    ensures x == y && r == s
  {
    var u, v := x + [sep] + r, y + [sep] + s;
    assert u[|x|] == sep && v[|y|] == sep;
    assert |x| == |y|;
    assert x == u[..|x|] && y == v[..|y|];
    assert r == u[|x| + 1..] && s == v[|y| + 1..];
  }

  lemma JoinHasSeparator(parts: seq<string>, sep: char)
    requires |parts| > 1
    ensures !Free(Join(parts, sep), sep)
  {
  }

  /** On separator-free fields joining loses nothing, not even how many fields there were. */
  lemma {:induction false} JoinInjective(a: seq<string>, b: seq<string>, sep: char)
    requires a != [] && b != [] && AllFree(a, sep) && AllFree(b, sep)
    requires Join(a, sep) == Join(b, sep)
    ensures a == b
  {
    if |a| == 1 && |b| == 1 {
    } else if |a| == 1 {
      JoinHasSeparator(b, sep);
    } else if |b| == 1 {
      JoinHasSeparator(a, sep);
    } else {
      FirstFieldDetermined(a[0], b[0], Join(a[1..], sep), Join(b[1..], sep), sep);
      JoinInjective(a[1..], b[1..], sep);
      assert a == [a[0]] + a[1..] && b == [b[0]] + b[1..];
    }
  }

  lemma {:induction false} JoinFree(parts: seq<string>, sep: char, other: char)
    requires AllFree(parts, other) && sep != other
    ensures Free(Join(parts, sep), other)
  {
    if |parts| >= 1 {
      assert parts[0] in parts;
    }
    if |parts| > 1 {
      assert forall p <- parts[1..] :: p in parts;
      JoinFree(parts[1..], sep, other);
    }
  }

  lemma JoinEmpty(parts: seq<string>, sep: char)
    requires forall p <- parts :: p != ""
    ensures Join(parts, sep) == "" <==> parts == []
  {
    if parts != [] {
      assert parts[0] in parts;
    }
  }

  // ---------------------------------------------------------------------------
  // Content keys
  // ---------------------------------------------------------------------------

  function ContentKey(parts: seq<string>): string {
    Join(parts, UNIT_SEPARATOR)
  }

  function SortedJoin(values: seq<string>): string {
    Join(Sorted(values), COMMA)
  }

  /** Members a set-valued column can have: not empty, with neither separator in them. */
  ghost predicate CleanSet(values: seq<string>) {
    forall v <- values :: v != "" && Free(v, COMMA) && Free(v, UNIT_SEPARATOR)
  }

  ghost predicate CleanParts(parts: seq<string>) {
    AllFree(parts, UNIT_SEPARATOR)
  }

  lemma SortedMembers(values: seq<string>)
    ensures forall v :: v in Sorted(values) <==> v in values
  {
    forall v ensures v in Sorted(values) <==> v in values {
      InMultiset(v, Sorted(values));
      InMultiset(v, values);
    }
  }

  /** Two columns get the same text exactly if they hold the same members, in any order. */
  lemma SortedJoinDecides(a: seq<string>, b: seq<string>)
    requires CleanSet(a) && CleanSet(b)
    ensures SortedJoin(a) == SortedJoin(b) <==> multiset(a) == multiset(b)
    ensures Free(SortedJoin(a), UNIT_SEPARATOR)
  {
    SortedMembers(a);
    SortedMembers(b);
    JoinFree(Sorted(a), COMMA, UNIT_SEPARATOR);
    SortedSorts(a);
    SortedSorts(b);
    if multiset(a) == multiset(b) {
      SortedUnique(Sorted(a), Sorted(b));
    }
    if SortedJoin(a) == SortedJoin(b) {
      JoinEmpty(Sorted(a), COMMA);
      JoinEmpty(Sorted(b), COMMA);
      if Sorted(a) != [] {
        JoinInjective(Sorted(a), Sorted(b), COMMA);
      }
    }
  }

  /** Two rows get the same key exactly if all their key fields are equal. */
  lemma ContentKeyDecides(a: seq<string>, b: seq<string>)
    requires a != [] && b != [] && CleanParts(a) && CleanParts(b)
    ensures ContentKey(a) == ContentKey(b) <==> a == b
  {
    if ContentKey(a) == ContentKey(b) {
      JoinInjective(a, b, UNIT_SEPARATOR);
    }
  }

  lemma EqualMultisetsEqualSets(a: seq<string>, b: seq<string>)
    requires multiset(a) == multiset(b)
    ensures (set x | x in a) == (set x | x in b)
  {
    forall x ensures x in a <==> x in b {
      InMultiset(x, a);
      InMultiset(x, b);
    }
  }
}
