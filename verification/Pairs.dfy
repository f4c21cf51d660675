/** Lists of key:value pairs in one text, as the DD_TAGS variable holds them. */
module Pairs {
  import opened Text

  datatype Pair = Pair(key: string, value: string)

  /** The well-formed pairs of a text, in order; other parts are dropped. */
  function Parse(s: string): seq<Pair> {
    WellFormed(Split(s, ','))
  }

  function WellFormed(parts: seq<string>): seq<Pair> {
    if parts == [] then []
    else
      var kv := Split(parts[0], ':');
      (if |kv| == 2 then [Pair(kv[0], kv[1])] else []) + WellFormed(parts[1..])
  }

  predicate HasKey(pairs: seq<Pair>, key: string) {
    exists i | 0 <= i < |pairs| :: pairs[i].key == key
  }

  /** Adds, in order, the pairs whose keys are not there yet. */
  function Merge(origin: seq<Pair>, added: seq<Pair>): seq<Pair>
    decreases |added|
  {
    if added == [] then origin
    else Merge(if HasKey(origin, added[0].key) then origin else origin + [added[0]], added[1..])
  }

  function Print(p: Pair): string {
    p.key + ":" + p.value
  }

  function PrintAll(pairs: seq<Pair>): seq<string> {
    seq(|pairs|, i requires 0 <= i < |pairs| => Print(pairs[i]))
  }

  /** appendKVPairs. */
  function Append(origin: string, added: string): string {
    Join(PrintAll(Merge(Parse(origin), Parse(added))), ",")
  }
}
