/**
 Strings as the source compares, splits and sorts them.  A Go string is modelled
 as a sequence of characters, one per byte where the source works on bytes.
 */
module Text {

  // ----- order -----

  /** The order of the < operator on strings. */
  predicate Less(a: string, b: string) {
    if b == "" then false
    else if a == "" then true
    else a[0] < b[0] || (a[0] == b[0] && Less(a[1..], b[1..]))
  }

  lemma {:induction false} LessIsTotal(a: string, b: string)
    ensures !(Less(a, b) && Less(b, a))
    ensures Less(a, b) || Less(b, a) || a == b
    ensures !Less(a, a)
  {
    if a != "" && b != "" {
      LessIsTotal(a[1..], b[1..]);
      assert a == [a[0]] + a[1..] && b == [b[0]] + b[1..];
    }
    if a != "" {
      LessIsTotal(a[1..], a[1..]);
    }
  }

  /** The shorter of two texts, where one starts with the other, and else the one with the lower first difference. */
  lemma {:induction false} LessIsLexicographic(a: string, b: string)
    ensures Less(a, b) <==> exists i | 0 <= i <= |a| :: DiffersAt(a, b, i)
  {
    if a != "" && b != "" && a[0] == b[0] {
      LessIsLexicographic(a[1..], b[1..]);
      assert a == [a[0]] + a[1..] && b == [b[0]] + b[1..];
      if i :| 0 <= i <= |a| && DiffersAt(a, b, i) {
        assert i > 0 && a[..i] == [a[0]] + a[1..][..i - 1] && b[..i] == [b[0]] + b[1..][..i - 1];
        assert DiffersAt(a[1..], b[1..], i - 1);
      }
      if i :| 0 <= i <= |a[1..]| && DiffersAt(a[1..], b[1..], i) {
        assert a[..i + 1] == [a[0]] + a[1..][..i] && b[..i + 1] == [b[0]] + b[1..][..i];
        assert DiffersAt(a, b, i + 1);
      }
    } else {
      assert a[..0] == b[..0];
      assert b != "" ==> (DiffersAt(a, b, 0) <==> a == "" || a[0] < b[0]);
    }
  }

  /** Up to here both are equal, and here the first one is at its end or lower. */
  predicate DiffersAt(a: string, b: string, i: int) {
    0 <= i <= |a| && i < |b| && a[..i] == b[..i] && (i < |a| ==> a[i] < b[i])
  }

  lemma {:induction false} LessIsTransitive(a: string, b: string, c: string)
    requires Less(a, b) && Less(b, c)
    ensures Less(a, c)
  {
    if a != "" && a[0] == b[0] == c[0] {
      LessIsTransitive(a[1..], b[1..], c[1..]);
    }
  }

  predicate Sorted(xs: seq<string>) {
    forall i, j | 0 <= i < j < |xs| :: !Less(xs[j], xs[i])
  }

  predicate StrictlySorted(xs: seq<string>) {
    forall i, j | 0 <= i < j < |xs| :: Less(xs[i], xs[j])
  }

  /** Insertion into a sorted list without duplicates: the sorted list of a string set. */
  function Insert(xs: seq<string>, x: string): seq<string> {
    if xs == [] then [x]
    else if x == xs[0] then xs
    else if Less(x, xs[0]) then [x] + xs
    else [xs[0]] + Insert(xs[1..], x)
  }

  lemma ConsKeepsOrder(x: string, xs: seq<string>)
    requires StrictlySorted(xs) && (xs != [] ==> Less(x, xs[0]))
    ensures StrictlySorted([x] + xs)
  {
    hide Less;
    forall j | 0 < j < |xs| ensures Less(x, xs[j]) {
      LessIsTransitive(x, xs[0], xs[j]);
    }
  }

  lemma {:induction false} InsertKeepsOrder(xs: seq<string>, x: string)
    requires StrictlySorted(xs)
    ensures StrictlySorted(Insert(xs, x))
    ensures forall y :: y in Insert(xs, x) <==> y == x || y in xs
  {
    hide Less, StrictlySorted;
    if xs == [] {
      OneIsSorted(x);
    } else {
      LessIsTotal(x, xs[0]);
      assert xs == [xs[0]] + xs[1..];
      if Less(x, xs[0]) {
        ConsKeepsOrder(x, xs);
      } else if x != xs[0] {
        TailIsSorted(xs);
        var r := Insert(xs[1..], x);
        InsertKeepsOrder(xs[1..], x);
        assert r != [] ==> r[0] in r;
        ConsKeepsOrder(xs[0], r);
      }
    }
  }

  lemma OneIsSorted(x: string)
    ensures StrictlySorted([x])
  {
  }

  lemma TailIsSorted(xs: seq<string>)
    requires StrictlySorted(xs) && xs != []
    ensures StrictlySorted(xs[1..]) && forall y | y in xs[1..] :: Less(xs[0], y)
  {
    hide Less;
    var rest := xs[1..];
    forall y | y in rest ensures Less(xs[0], y) {
      var k :| 0 <= k < |rest| && rest[k] == y;
      assert xs[k + 1] == y;
    }
  }

  /** Insertion into a sorted list that keeps duplicates. */
  function InsertSorted(xs: seq<string>, x: string): seq<string> {
    if xs == [] || !Less(xs[0], x) then [x] + xs else [xs[0]] + InsertSorted(xs[1..], x)
  }

  /** sort.Strings: the sorted permutation of a list of strings. */
  function SortStrings(xs: seq<string>): seq<string> {
    if xs == [] then [] else InsertSorted(SortStrings(xs[1..]), xs[0])
  }

  lemma {:induction false} InsertSortedKeepsOrder(xs: seq<string>, x: string)
    requires Sorted(xs)
    ensures Sorted(InsertSorted(xs, x))
    ensures multiset(InsertSorted(xs, x)) == multiset(xs) + multiset{x}
  {
    hide Less;
    if xs == [] || !Less(xs[0], x) {
      forall j | 0 <= j < |xs| ensures !Less(xs[j], x) {
        if j > 0 && Less(xs[j], x) {
          LessIsTotal(xs[0], xs[j]);
          if Less(xs[0], xs[j]) {
            LessIsTransitive(xs[0], xs[j], x);
          }
        }
      }
    } else {
      assert xs == [xs[0]] + xs[1..];
      InsertSortedKeepsOrder(xs[1..], x);
      LessIsTotal(xs[0], x);
      var rest := InsertSorted(xs[1..], x);
      forall y | y in rest ensures !Less(y, xs[0]) {
        assert y in multiset(rest);
      }
    }
  }

  lemma {:induction false} SortStringsSorts(xs: seq<string>)
    ensures Sorted(SortStrings(xs)) && multiset(SortStrings(xs)) == multiset(xs)
  {
    if xs != [] {
      assert xs == [xs[0]] + xs[1..];
      SortStringsSorts(xs[1..]);
      InsertSortedKeepsOrder(SortStrings(xs[1..]), xs[0]);
    }
  }

  /** The members of a set in increasing order. */
  ghost function InOrder(keys: set<string>): (r: seq<string>)
    ensures StrictlySorted(r) && forall k :: k in r <==> k in keys
  {
    if keys == {} then []
    else
      var k :| k in keys;
      var rest := InOrder(keys - {k});
      InsertKeepsOrder(rest, k);
      Insert(rest, k)
  }

  /** Sorting a list without duplicates gives its members in order. */
  lemma SortOfDistinct(xs: seq<string>, keys: set<string>)
    requires forall i, j | 0 <= i < j < |xs| :: xs[i] != xs[j]
    requires forall k :: k in xs <==> k in keys
    ensures SortStrings(xs) == InOrder(keys)
  {
    SortStringsSorts(xs);
    var sorted := SortStrings(xs);
    forall k ensures k in sorted <==> k in keys {
      assert k in sorted <==> k in multiset(sorted);
      assert k in xs <==> k in multiset(xs);
    }
    forall i, j | 0 <= i < j < |sorted| ensures Less(sorted[i], sorted[j]) {
      LessIsTotal(sorted[i], sorted[j]);
      if sorted[i] == sorted[j] {
        DistinctCountsOnce(xs, sorted[i]);
        RepeatedCountsTwice(sorted, i, j);
      }
    }
    StrictlySortedIsUnique(sorted, InOrder(keys));
  }

  lemma {:induction false} DistinctCountsOnce(xs: seq<string>, x: string)
    requires forall i, j | 0 <= i < j < |xs| :: xs[i] != xs[j]
    ensures multiset(xs)[x] <= 1
  {
    if xs != [] {
      DistinctCountsOnce(xs[1..], x);
      assert xs == [xs[0]] + xs[1..];
      assert xs[0] == x ==> x !in xs[1..];
    }
  }

  lemma RepeatedCountsTwice(xs: seq<string>, i: nat, j: nat)
    requires i < j < |xs| && xs[i] == xs[j]
    ensures multiset(xs)[xs[i]] >= 2
  {
    assert xs == xs[..j] + [xs[j]] + xs[j + 1..];
    assert xs[i] in xs[..j];
  }

  lemma TailOfStrictlySorted(xs: seq<string>, x: string)
    requires xs != [] && StrictlySorted(xs)
    ensures x in xs[1..] <==> x in xs && x != xs[0]
  {
    LessIsTotal(xs[0], x);
    assert xs == [xs[0]] + xs[1..];
    if x in xs[1..] {
      var k :| 1 <= k < |xs| && xs[k] == x;
      assert Less(xs[0], xs[k]);
    }
  }

  lemma {:induction false} StrictlySortedIsUnique(a: seq<string>, b: seq<string>)
    requires StrictlySorted(a) && StrictlySorted(b)
    requires forall x :: x in a <==> x in b
    ensures a == b
  {
    assert b != [] ==> b[0] in a;
    if a != [] {
      assert a[0] in b;
      forall x | x in a ensures x == a[0] || Less(a[0], x) {}
      forall x | x in b ensures x == b[0] || Less(b[0], x) {}
      LessIsTotal(a[0], b[0]);
      assert a[0] == b[0];
      forall x ensures x in a[1..] <==> x in b[1..] {
        TailOfStrictlySorted(a, x);
        TailOfStrictlySorted(b, x);
      }
      StrictlySortedIsUnique(a[1..], b[1..]);
      assert a == [a[0]] + a[1..] && b == [b[0]] + b[1..];
    }
  }

  // ----- join and split -----

  function Join(parts: seq<string>, separator: string): string {
    if parts == [] then ""
    else if |parts| == 1 then parts[0]
    else parts[0] + separator + Join(parts[1..], separator)
  }

  /** strings.Split by a one-character separator: always at least one part. */
  function Split(s: string, separator: char): (parts: seq<string>)
    ensures |parts| >= 1
  {
    if s == "" then [""]
    else
      var rest := Split(s[1..], separator);
      if s[0] == separator then [""] + rest else [[s[0]] + rest[0]] + rest[1..]
  }

  lemma {:induction false} SplitOfPlain(s: string, separator: char)
    requires separator !in s
    ensures Split(s, separator) == [s]
  {
    if s != "" {
      assert s == [s[0]] + s[1..];
      SplitOfPlain(s[1..], separator);
    }
  }

  /** Splitting a text put together with the separator splits both sides. */
  lemma {:induction false} SplitOfConcat(a: string, b: string, separator: char)
    ensures Split(a + [separator] + b, separator) == Split(a, separator) + Split(b, separator)
  {
    if a == "" {
      assert "" + [separator] + b == [separator] + b;
    } else {
      assert (a + [separator] + b)[1..] == a[1..] + [separator] + b;
      SplitOfConcat(a[1..], b, separator);
    }
  }

  lemma {:induction false} SplitPartsArePlain(s: string, separator: char)
    ensures forall part <- Split(s, separator) :: separator !in part
  {
    if s != "" {
      SplitPartsArePlain(s[1..], separator);
    }
  }

  lemma {:induction false} SplitOfJoin(parts: seq<string>, separator: char)
    requires parts != [] && forall part <- parts :: separator !in part
    ensures Split(Join(parts, [separator]), separator) == parts
  {
    assert parts[0] in parts;
    SplitOfPlain(parts[0], separator);
    if |parts| > 1 {
      var rest := parts[1..];
      assert forall part <- rest :: part in parts;
      SplitOfJoin(rest, separator);
      SplitOfConcat(parts[0], Join(rest, [separator]), separator);
      assert parts == [parts[0]] + rest;
    }
  }
}
