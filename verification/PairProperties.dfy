/** What merging lists of key:value pairs keeps. */
module PairProperties {
  import opened Text
  import opened Pairs

  // ----- merging -----

  lemma {:induction false} MergeKeepsOrigin(origin: seq<Pair>, added: seq<Pair>)
    ensures origin <= Merge(origin, added)
    decreases |added|
  {
    if added != [] {
      MergeKeepsOrigin(if HasKey(origin, added[0].key) then origin else origin + [added[0]], added[1..]);
    }
  }

  lemma KeysStay(a: seq<Pair>, b: seq<Pair>, key: string)
    requires a <= b && HasKey(a, key)
    ensures HasKey(b, key)
  {
    var i :| 0 <= i < |a| && a[i].key == key;
    assert b[i].key == key;
  }

  lemma {:induction false} MergeHasAllKeys(origin: seq<Pair>, added: seq<Pair>)
    ensures forall p <- added :: HasKey(Merge(origin, added), p.key)
    decreases |added|
  {
    if added != [] {
      var next := if HasKey(origin, added[0].key) then origin else origin + [added[0]];
      MergeHasAllKeys(next, added[1..]);
      MergeKeepsOrigin(next, added[1..]);
      assert next == origin || next[|origin|] == added[0];
      KeysStay(next, Merge(next, added[1..]), added[0].key);
      assert forall p <- added :: p == added[0] || p in added[1..];
    }
  }

  /** What is added are pairs of the second list under keys the first one lacked, each key once. */
  lemma {:induction false} MergeAddsNewKeys(origin: seq<Pair>, added: seq<Pair>)
    ensures var r := Merge(origin, added);
            forall i | |origin| <= i < |r| :: r[i] in added && !HasKey(r[..i], r[i].key)
    decreases |added|
  {
    if added != [] {
      var known := HasKey(origin, added[0].key);
      var next := if known then origin else origin + [added[0]];
      MergeAddsNewKeys(next, added[1..]);
      MergeKeepsOrigin(next, added[1..]);
      var r := Merge(origin, added);
      if !known {
        assert r[..|origin|] == origin && r[|origin|] == added[0];
      }
    }
  }

  lemma {:induction false} NothingToAdd(origin: seq<Pair>, added: seq<Pair>)
    requires forall p <- added :: HasKey(origin, p.key)
    ensures Merge(origin, added) == origin
    decreases |added|
  {
    if added != [] {
      assert added[0] in added;
      NothingToAdd(origin, added[1..]);
    }
  }

  lemma MergeTwice(origin: seq<Pair>, added: seq<Pair>)
    ensures Merge(Merge(origin, added), added) == Merge(origin, added)
  {
    MergeHasAllKeys(origin, added);
    NothingToAdd(Merge(origin, added), added);
  }

  // ----- texts -----

  predicate IsPlain(p: Pair) {
    ',' !in p.key && ',' !in p.value && ':' !in p.key && ':' !in p.value
  }

  lemma {:induction false} PartsHoldNoOther(s: string, separator: char, c: char)
    requires c !in s
    ensures forall part <- Split(s, separator) :: c !in part
  {
    if s != "" {
      PartsHoldNoOther(s[1..], separator, c);
    }
  }

  lemma {:induction false} WellFormedArePlain(parts: seq<string>)
    requires forall part <- parts :: ',' !in part
    ensures forall p <- WellFormed(parts) :: IsPlain(p)
  {
    if parts != [] {
      assert parts[0] in parts;
      var kv := Split(parts[0], ':');
      SplitPartsArePlain(parts[0], ':');
      PartsHoldNoOther(parts[0], ':', ',');
      if |kv| == 2 {
        assert kv[0] in kv && kv[1] in kv;
      }
      WellFormedArePlain(parts[1..]);
    }
  }

  lemma ParsedArePlain(s: string)
    ensures forall p <- Parse(s) :: IsPlain(p)
  {
    SplitPartsArePlain(s, ',');
    WellFormedArePlain(Split(s, ','));
  }

  lemma MergedArePlain(origin: seq<Pair>, added: seq<Pair>)
    requires (forall p <- origin :: IsPlain(p)) && (forall p <- added :: IsPlain(p))
    ensures forall p <- Merge(origin, added) :: IsPlain(p)
  {
    hide IsPlain, HasKey;
    MergeKeepsOrigin(origin, added);
    MergeAddsNewKeys(origin, added);
    var r := Merge(origin, added);
    forall i | 0 <= i < |r| ensures IsPlain(r[i]) {
      assert i < |origin| ==> r[i] == origin[i];
    }
  }

  lemma PrintedPairSplits(p: Pair)
    requires IsPlain(p)
    ensures Split(Print(p), ':') == [p.key, p.value] && ',' !in Print(p)
  {
    SplitOfConcat(p.key, p.value, ':');
    SplitOfPlain(p.key, ':');
    SplitOfPlain(p.value, ':');
  }

  lemma {:induction false} WellFormedOfPrinted(pairs: seq<Pair>)
    requires forall p <- pairs :: IsPlain(p)
    ensures WellFormed(PrintAll(pairs)) == pairs
    ensures forall part <- PrintAll(pairs) :: ',' !in part
  {
    if pairs != [] {
      assert pairs[0] in pairs;
      PrintedPairSplits(pairs[0]);
      WellFormedOfPrinted(pairs[1..]);
      assert PrintAll(pairs) == [Print(pairs[0])] + PrintAll(pairs[1..]);
    }
  }

  lemma NothingParsed()
    ensures Parse("") == []
  {
    SplitOfPlain("", ',');
    SplitOfPlain("", ':');
    assert WellFormed([""]) == [] + WellFormed([""][1..]);
    assert [""][1..] == [];
  }

  /** A printed list of plain pairs reads back as it was. */
  lemma ParseOfPrinted(pairs: seq<Pair>)
    requires forall p <- pairs :: IsPlain(p)
    ensures Parse(Join(PrintAll(pairs), ",")) == pairs
  {
    WellFormedOfPrinted(pairs);
    if pairs == [] {
      NothingParsed();
    } else {
      SplitOfJoin(PrintAll(pairs), ',');
    }
  }

  /** The text of a merge holds exactly the merged pairs. */
  lemma ParseOfAppend(origin: string, added: string)
    ensures Parse(Append(origin, added)) == Merge(Parse(origin), Parse(added))
  {
    ParsedArePlain(origin);
    ParsedArePlain(added);
    MergedArePlain(Parse(origin), Parse(added));
    ParseOfPrinted(Merge(Parse(origin), Parse(added)));
  }

  /** The well-formed pairs of the first text stay in front, in order; the second text counts once. */
  lemma AppendKeepsAndSettles(origin: string, added: string)
    ensures Parse(origin) <= Parse(Append(origin, added))
    ensures forall p <- Parse(added) :: HasKey(Parse(Append(origin, added)), p.key)
    ensures Append(Append(origin, added), added) == Append(origin, added)
  {
    ParseOfAppend(origin, added);
    MergeKeepsOrigin(Parse(origin), Parse(added));
    MergeHasAllKeys(Parse(origin), Parse(added));
    MergeTwice(Parse(origin), Parse(added));
  }

  // ----- the loops of the source -----

  method ParsePairs(s: string) returns (pairs: seq<Pair>)
    ensures pairs == Parse(s)
  {
    pairs := [];
    var parts := Split(s, ',');
    for i := 0 to |parts|
      invariant pairs + WellFormed(parts[i..]) == Parse(s)
    {
      var kv := Split(parts[i], ':');
      assert parts[i..][1..] == parts[i + 1..];
      if |kv| == 2 {
        pairs := pairs + [Pair(kv[0], kv[1])];
      }
    }
  }

  method ContainsKey(pairs: seq<Pair>, key: string) returns (found: bool)
    ensures found == HasKey(pairs, key)
  {
    for i := 0 to |pairs|
      invariant forall k | 0 <= k < i :: pairs[k].key != key
    {
      if pairs[i].key == key {
        return true;
      }
    }
    return false;
  }

  method PrintPairs(pairs: seq<Pair>) returns (printed: seq<string>)
    ensures printed == PrintAll(pairs)
  {
    printed := [];
    for i := 0 to |pairs|
      invariant printed == PrintAll(pairs[..i])
    {
      printed := printed + [Print(pairs[i])];
    }
    assert pairs[..|pairs|] == pairs;
  }

  method AppendKVPairs(origin: string, added: string) returns (r: string)
    ensures r == Append(origin, added)
    ensures Parse(origin) <= Parse(r)
  {
    hide HasKey, PrintAll, Join, Split;
    var pairs := ParsePairs(origin);
    var parts := Split(added, ',');
    for i := 0 to |parts|
      invariant Merge(pairs, WellFormed(parts[i..])) == Merge(Parse(origin), Parse(added))
    {
      var kv := Split(parts[i], ':');
      assert parts[i..][1..] == parts[i + 1..];
      var rest := WellFormed(parts[i + 1..]);
      assert WellFormed(parts[i..]) == (if |kv| == 2 then [Pair(kv[0], kv[1])] else []) + rest;
      assert |kv| != 2 ==> [] + rest == rest;
      if |kv| == 2 {
        assert WellFormed(parts[i..])[1..] == rest;
        var known := ContainsKey(pairs, kv[0]);
        if !known {
          pairs := pairs + [Pair(kv[0], kv[1])];
        }
      }
    }
    var printed := PrintPairs(pairs);
    r := Join(printed, ",");
    AppendKeepsAndSettles(origin, added);
  }
}
