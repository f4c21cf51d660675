/**
 The language of label selectors, told from the texts: which texts that spell a key, an operator
 and values are accepted, and which requirements they give.
 */
module SelectorTexts {
  import opened Options
  import opened Text
  import opened LabelLexer
  import opened Selectors
  import opened LabelParser

  // ----- the items of a written requirement -----

  predicate Value(v: string) {
    v == "" || Literal(v)
  }

  function Word(w: string): ScannedItem {
    ScannedItem(WordToken(w), w)
  }

  const COMMA := ScannedItem(CommaToken, ",")
  const OPEN := ScannedItem(OpenParToken, "(")
  const CLOSE := ScannedItem(ClosedParToken, ")")
  const BANG := ScannedItem(DoesNotExistToken, "!")
  const END := ScannedItem(EndOfStringToken, "")

  /** The words of a list of values between parentheses: empty values are spelled by their commas alone. */
  function ListWords(values: seq<string>): seq<string> {
    if values == [] then []
    else (if values[0] == "" then [] else [values[0]]) + (if |values| == 1 then [] else [","] + ListWords(values[1..]))
  }

  function SymbolText(op: Operator): string {
    match op
    case In => "in"
    case NotIn => "notin"
    case Equals => "="
    case DoubleEquals => "=="
    case NotEquals => "!="
    case GreaterThan => ">"
    case LessThan => "<"
    case Exists => ""
    case DoesNotExist => "!"
  }

  predicate IsBinary(op: Operator) {
    op != Exists && op != DoesNotExist
  }

  /** A requirement as it is written: the values of a set in any order, repeated or empty. */
  predicate WellWritten(w: Requirement) {
    && Literal(w.key)
    && (forall v <- w.values :: Value(v))
    && if !IsBinary(w.operator) then w.values == []
       else if IsSetOperator(w.operator) then w.values != []
       else |w.values| == 1
  }

  function WordsOf(w: Requirement): seq<string> {
    match w.operator
    case Exists => [w.key]
    case DoesNotExist => ["!", w.key]
    case In => [w.key, "in", "("] + ListWords(w.values) + [")"]
    case NotIn => [w.key, "notin", "("] + ListWords(w.values) + [")"]
    case op => [w.key, SymbolText(op)] + ListWords(w.values)
  }

  /** The words of a selector: its requirements between commas. */
  function SelectorWords(ws: seq<Requirement>): seq<string> {
    if ws == [] then []
    else if |ws| == 1 then WordsOf(ws[0])
    else WordsOf(ws[0]) + ([","] + SelectorWords(ws[1..]))
  }

  function Items(words: seq<string>): seq<ScannedItem> {
    seq(|words|, i requires 0 <= i < |words| => Word(words[i]))
  }

  lemma ItemsConcat(a: seq<string>, b: seq<string>)
    ensures Items(a + b) == Items(a) + Items(b)
  {
    hide WordToken;
  }

  lemma WordInFront(w: string, words: seq<string>, after: seq<ScannedItem>)
    ensures Items([w] + words) + after == [Word(w)] + (Items(words) + after)
  {
    ItemsConcat([w], words);
    OneItem(w);
  }

  lemma NoItems()
    ensures Items([]) == []
  {
  }

  lemma OneItem(w: string)
    ensures Items([w]) == [Word(w)]
  {
  }

  // ----- scanning -----

  /** A text that ends the word in front of it and does not swallow a byte. */
  predicate EndsWord(rest: string) {
    rest == "" || (!IsPlain(rest[0]) && rest[0] != NUL)
  }

  predicate Clean(rest: string) {
    rest == "" || rest[0] != NUL
  }

  lemma {:induction false} SpanOfWord(w: string, rest: string)
    requires (forall c <- w :: IsPlain(c)) && (rest == "" || !IsPlain(rest[0]))
    ensures Span(w + rest) == |w|
  {
    if w != "" {
      assert w[0] in w;
      assert (w + rest)[1..] == w[1..] + rest;
      SpanOfWord(w[1..], rest);
    } else {
      assert w + rest == rest;
    }
  }

  lemma ScanWord(w: string, rest: string)
    requires Literal(w) && EndsWord(rest)
    ensures Scan(w + rest) == [Word(w)] + Scan(rest)
  {
    var t := w + rest;
    assert t[0] == w[0] && w[0] in w;
    SpanOfWord(w, rest);
    assert t[..|w|] == w && t[|w|..] == rest;
    assert SkipSpaces(t) == t;
    WordTokenIsNoEnd(w);
  }

  lemma WordTokenIsNoEnd(w: string)
    ensures WordToken(w) != EndOfStringToken && WordToken(w) != ErrorToken
  {
  }

  /** Spaces, tabs and line ends between words, and no other characters. */
  predicate Gap(gap: string) {
    forall c <- gap :: c == ' ' || c == '\t' || c == '\r' || c == '\n'
  }

  lemma {:induction false} ScanGap(gap: string, rest: string)
    requires Gap(gap)
    ensures Scan(gap + rest) == Scan(rest)
  {
    if gap == "" {
      assert gap + rest == rest;
    } else {
      var t := gap + rest;
      assert gap[0] in gap && t[1..] == gap[1..] + rest;
      assert forall c <- gap[1..] :: c in gap;
      assert SkipSpaces(t) == SkipSpaces(t[1..]);
      ScanGap(gap[1..], rest);
    }
  }

  /** A symbol is scanned whole when it and what follows do not make a longer one. */
  lemma ScanSymbol(symbol: string, rest: string)
    requires symbol != "" && IsSpecialSymbol(symbol[0]) && Clean(rest)
    requires SymbolLength(symbol + rest) == |symbol|
    ensures Scan(symbol + rest) == [Word(symbol)] + Scan(rest)
  {
    var t := symbol + rest;
    assert SkipSpaces(t) == t;
    assert t[..|symbol|] == symbol && t[|symbol|..] == rest;
    WordTokenIsNoEnd(symbol);
  }

  predicate StartsWith(rest: string, c: char) {
    rest != "" && rest[0] == c
  }

  predicate IsSymbol(w: string) {
    w == "=" || w == "==" || w == "!=" || w == "!" || w == "(" || w == ")" || w == "," || w == ">" || w == "<"
  }

  lemma ScanSymbolWord(w: string, rest: string)
    requires IsSymbol(w) && Clean(rest) && (w == "=" || w == "!" ==> !StartsWith(rest, '='))
    ensures Scan(w + rest) == [Word(w)] + Scan(rest)
  {
    var t := w + rest;
    if |t| >= 2 {
      assert t[..2] == [t[0], t[1]];
    }
    ScanSymbol(w, rest);
  }

  predicate IsWord(w: string) {
    Literal(w) || IsSymbol(w)
  }

  /** Two neighbouring words that would run into each other without a gap. */
  predicate Fuses(a: string, b: string) {
    (Literal(a) && Literal(b)) || ((a == "=" || a == "!") && (b == "=" || b == "=="))
  }

  /** A text of these words, with a gap in front of each. */
  function Spaced(words: seq<string>, gaps: seq<string>): string
    requires |gaps| == |words|
  {
    if words == [] then "" else gaps[0] + (words[0] + Spaced(words[1..], gaps[1..]))
  }

  predicate Separated(words: seq<string>, gaps: seq<string>) {
    && |gaps| == |words|
    && (forall g <- gaps :: Gap(g))
    && (forall i | 0 <= i < |words| - 1 :: Fuses(words[i], words[i + 1]) ==> gaps[i + 1] != "")
  }

  lemma StartOfSpaced(words: seq<string>, gaps: seq<string>, end: string)
    requires Separated(words, gaps) && Gap(end) && forall w <- words :: IsWord(w)
    ensures var t := Spaced(words, gaps) + end;
            && Clean(t)
            && (words != [] && gaps[0] == "" ==> words[0] != "" && StartsWith(t, words[0][0]))
            && (words == [] || gaps[0] != "" ==> EndsWord(t) && !StartsWith(t, '='))
  {
    if words == [] {
      assert end != "" ==> end[0] in end;
    } else if gaps[0] != "" {
      assert gaps[0] in gaps && gaps[0][0] in gaps[0];
    } else {
      assert words[0] in words;
      FirstOfWord(words[0]);
    }
  }

  lemma ScanFront(words: seq<string>, gaps: seq<string>, end: string)
    requires words != [] && Separated(words, gaps) && Gap(end) && forall w <- words :: IsWord(w)
    ensures Separated(words[1..], gaps[1..])
    ensures Scan(Spaced(words, gaps) + end) == [Word(words[0])] + Scan(Spaced(words[1..], gaps[1..]) + end)
  {
    hide Scan, IsWord, Fuses, Gap, Separated, WordToken;
    SeparatedSplits(words, gaps);
    var w, rest := words[0], Spaced(words[1..], gaps[1..]) + end;
    assert w in words && forall v <- words[1..] :: v in words;
    ScanFirst(w, words[1..], gaps[1..], end);
    ScanGap(gaps[0], w + rest);
    assert Spaced(words, gaps) + end == gaps[0] + (w + rest);
  }

  lemma ScanEnd(end: string)
    requires Gap(end)
    ensures Scan("" + end) == [END]
  {
    hide Scan, Gap;
    assert "" + end == end + "" == end;
    ScanGap(end, "");
    ScanNothing();
  }

  lemma FrontOfItems(words: seq<string>)
    requires words != []
    ensures Items(words) + [END] == [Word(words[0])] + (Items(words[1..]) + [END])
  {
    hide WordToken, Items;
    WordInFront(words[0], words[1..], [END]);
    assert words == [words[0]] + words[1..];
  }

  /** However a text is spaced, it scans to its words. */
  lemma {:induction false} ScanSpaced(words: seq<string>, gaps: seq<string>, end: string)
    requires Separated(words, gaps) && Gap(end) && forall w <- words :: IsWord(w)
    ensures Scan(Spaced(words, gaps) + end) == Items(words) + [END]
    decreases |words|
  {
    hide Scan, IsWord, Gap, Separated, Items, WordToken;
    SeparatedSplits(words, gaps);
    if words == [] {
      ScanEnd(end);
      NoItems();
      assert [] + [END] == [END];
    } else {
      ScanFront(words, gaps, end);
      assert forall v <- words[1..] :: v in words;
      ScanSpaced(words[1..], gaps[1..], end);
      FrontOfItems(words);
    }
  }

  lemma SeparatedSplits(words: seq<string>, gaps: seq<string>)
    requires Separated(words, gaps)
    ensures |gaps| == |words|
    ensures words != [] ==> Gap(gaps[0]) && Separated(words[1..], gaps[1..])
    ensures |words| > 1 && Fuses(words[0], words[1]) ==> gaps[1] != ""
  {
    hide Gap, Fuses;
    if words != [] {
      assert gaps[0] in gaps;
      assert forall g <- gaps[1..] :: g in gaps;
      assert forall i | 0 <= i < |words[1..]| - 1 :: words[1..][i] == words[i + 1] && gaps[1..][i + 1] == gaps[i + 2];
    }
  }

  lemma ScanNothing()
    ensures Scan("") == [END]
  {
  }

  lemma ScanFirst(w: string, words: seq<string>, gaps: seq<string>, end: string)
    requires IsWord(w) && Separated(words, gaps) && Gap(end) && forall v <- words :: IsWord(v)
    requires words != [] && Fuses(w, words[0]) ==> gaps[0] != ""
    ensures var rest := Spaced(words, gaps) + end;
            Scan(w + rest) == [Word(w)] + Scan(rest)
  {
    hide Scan, Gap, Spaced;
    var rest := Spaced(words, gaps) + end;
    StartOfSpaced(words, gaps, end);
    if words != [] {
      assert words[0] in words;
      FirstOfWord(words[0]);
    }
    if Literal(w) {
      ScanWord(w, rest);
    } else {
      ScanSymbolWord(w, rest);
    }
  }

  lemma FirstOfWord(w: string)
    requires IsWord(w)
    ensures w != "" && w[0] != NUL && (IsPlain(w[0]) <==> Literal(w)) && (w[0] == '=' <==> w == "=" || w == "==")
  {
    if Literal(w) {
      assert w[0] in w;
    }
  }

  lemma {:induction false} WordsAreWords(w: Requirement)
    requires WellWritten(w)
    ensures forall x <- WordsOf(w) :: IsWord(x)
  {
    ListWordsAreWords(w.values);
    LiteralWords();
  }

  lemma LiteralWords()
    ensures Literal("in") && Literal("notin")
  {
  }

  lemma {:induction false} ListWordsAreWords(values: seq<string>)
    requires forall v <- values :: Value(v)
    ensures forall x <- ListWords(values) :: IsWord(x)
  {
    if values != [] {
      assert values[0] in values;
      assert forall v <- values[1..] :: v in values;
      if |values| > 1 {
        ListWordsAreWords(values[1..]);
      }
    }
  }

  lemma {:induction false} SelectorWordsAreWords(ws: seq<Requirement>)
    requires forall w <- ws :: WellWritten(w)
    ensures forall x <- SelectorWords(ws) :: IsWord(x)
  {
    hide WellWritten, WordsOf, IsWord;
    if ws != [] {
      assert ws[0] in ws;
      WordsAreWords(ws[0]);
      assert forall w <- ws[1..] :: w in ws;
      SelectorWordsAreWords(ws[1..]);
      CommaIsAWord();
    }
  }

  lemma CommaIsAWord()
    ensures IsWord(",")
  {
  }

  // ----- parsing a list of values -----

  predicate NoEnd(items: seq<ScannedItem>) {
    forall item <- items :: item.tok != EndOfStringToken
  }

  lemma PrependKeepsTerminated(front: seq<ScannedItem>, tail: seq<ScannedItem>)
    requires NoEnd(front) && Terminated(tail)
    ensures Terminated(front + tail)
  {
    forall i | 0 <= i < |front + tail| - 1 ensures (front + tail)[i].tok != EndOfStringToken {
      if i < |front| {
        assert front[i] in front;
      }
    }
  }

  lemma WordsHaveNoEnd(words: seq<string>)
    ensures NoEnd(Items(words))
  {
    forall i | 0 <= i < |words| ensures Items(words)[i].tok != EndOfStringToken {
      WordTokenIsNoEnd(words[i]);
    }
  }

  lemma LiteralIsIdentifier(w: string)
    requires Literal(w)
    ensures InContext(WordToken(w), Values) == IdentifierToken
  {
    assert w[0] in w && IsPlain(w[0]);
  }

  /** How many commas stand behind the last non-empty value. */
  function CommasAtEnd(values: seq<string>): nat {
    if |values| <= 1 || values[|values| - 1] != "" then 0 else 1 + CommasAtEnd(values[..|values| - 1])
  }

  predicate AllEmpty(values: seq<string>) {
    forall v <- values :: v == ""
  }

  lemma {:induction false} CommasBehind(first: string, rest: seq<string>)
    ensures CommasAtEnd([first] + rest) == if AllEmpty(rest) then |rest| else CommasAtEnd(rest)
  {
    var values := [first] + rest;
    if rest != [] {
      var init := rest[..|rest| - 1];
      assert values[..|values| - 1] == [first] + init;
      var last := rest[|rest| - 1];
      assert rest == init + [last] && values[|values| - 1] == last;
      assert last in rest && (forall v <- init :: v in rest) && forall v <- rest :: v in init || v == last;
      CommasBehind(first, init);
    }
  }

  /** The list parser takes commas in pairs, and a pair must not be the last thing before the parenthesis. */
  predicate Closes(values: seq<string>) {
    CommasAtEnd(values) == 0 || CommasAtEnd(values) % 2 == 1
  }

  /** What is left to read when these values and the closing parenthesis are left. */
  function Listed(values: seq<string>, tail: seq<ScannedItem>): seq<ScannedItem> {
    Items(ListWords(values)) + ([CLOSE] + tail)
  }

  lemma ListedUnfolds(values: seq<string>, tail: seq<ScannedItem>)
    requires values != []
    ensures var more := if |values| == 1 then [CLOSE] + tail else [COMMA] + Listed(values[1..], tail);
            Listed(values, tail) == if values[0] == "" then more else [Word(values[0])] + more
  {
    hide Items, WordToken;
    SymbolWords();
    NoItems();
    var after := [CLOSE] + tail;
    var rest := if |values| == 1 then [] else [","] + ListWords(values[1..]);
    assert ListWords(values) == if values[0] == "" then rest else [values[0]] + rest;
    WordInFront(values[0], rest, after);
    if |values| > 1 {
      WordInFront(",", ListWords(values[1..]), after);
    } else {
      assert [] + after == after;
    }
  }

  lemma ListedIsTerminated(values: seq<string>, tail: seq<ScannedItem>)
    requires Terminated(tail)
    ensures Terminated(Listed(values, tail)) && Terminated([COMMA] + Listed(values, tail))
    ensures Terminated([OPEN] + Listed(values, tail))
  {
    PrependKeepsTerminated([CLOSE], tail);
    WordsHaveNoEnd(ListWords(values));
    PrependKeepsTerminated(Items(ListWords(values)), [CLOSE] + tail);
    PrependKeepsTerminated([COMMA], Listed(values, tail));
    PrependKeepsTerminated([OPEN], Listed(values, tail));
  }

  /** The parsed values are those collected before and those of the list, once each and in order. */
  ghost predicate Collects(r: Parsed<seq<string>>, s: seq<string>, values: seq<string>, tail: seq<ScannedItem>) {
    && (r.Ok? <==> Closes(values))
    && (r.Ok? ==>
          r.rest == [CLOSE] + tail && StrictlySorted(r.value)
          && forall v :: v in r.value <==> v in s || v in values)
  }

  lemma {:induction false} ParseListed(values: seq<string>, s: seq<string>, tail: seq<ScannedItem>)
    requires values != [] && values != [""] && (forall v <- values :: Value(v)) && StrictlySorted(s) && Terminated(tail)
    requires values[0] == "" ==> s == [] || "" in s
    ensures Terminated(Listed(values, tail))
    ensures Collects(ParseIdentifiersList(Listed(values, tail), s), s, values, tail)
    decreases |values|, 0
  {
    hide ParseIdentifiersList, Literal, WordToken, Listed, Insert, StrictlySorted, Terminated;
    var v, rest := values[0], values[1..];
    ListedIsTerminated(values, tail);
    ListedIsTerminated(rest, tail);
    ListedUnfolds(values, tail);
    assert v in values && values == [v] + rest;
    if v != "" {
      InsertKeepsOrder(s, v);
      InsertIsNotEmpty(s, v);
      if rest == [] {
        ParseLastWord(v, s, tail);
      } else {
        ParseWordAndComma(v, Listed(rest, tail), s);
        ParseListedBehindComma(v, rest, Insert(s, v), tail);
      }
    } else {
      FirstCommaInserts(Listed(rest, tail));
      EmptyInOrder();
      ParseListedBehindComma("", rest, if s == [] then [""] else s, tail);
    }
  }

  lemma EmptyInOrder()
    ensures StrictlySorted([""]) && forall v :: v in [""] <==> v == ""
  {
  }

  lemma InsertIsNotEmpty(s: seq<string>, v: string)
    ensures Insert(s, v) != []
  {
  }

  lemma {:induction false} ParseListedBehindComma(first: string, values: seq<string>, s: seq<string>,
        tail: seq<ScannedItem>)
    requires values != [] && (forall v <- values :: Value(v)) && StrictlySorted(s) && Terminated(tail)
    requires s != [] && first in s
    ensures Terminated([COMMA] + Listed(values, tail))
    ensures Collects(ParseIdentifiersList([COMMA] + Listed(values, tail), s), s, [first] + values, tail)
    decreases |values|, 1
  {
    hide ParseIdentifiersList, Literal, WordToken, Listed, Insert, StrictlySorted, Terminated, Closes;
    var v, rest := values[0], values[1..];
    ListedIsTerminated(values, tail);
    ListedIsTerminated(rest, tail);
    ListedUnfolds(values, tail);
    assert v in values && values == [v] + rest;
    InsertKeepsOrder(s, "");
    ClosesBehind(first, values);
    if values == [""] {
      ParseLastComma(s, tail);
    } else if v == "" {
      TwoCommas(Listed(rest, tail), s);
      if rest == [""] {
        assert Listed(rest, tail) == [CLOSE] + tail by {
          ListedUnfolds(rest, tail);
        }
        ParseClosed(tail, Insert(s, ""));
      } else {
        ParseListed(rest, Insert(s, ""), tail);
      }
    } else {
      WordBehindComma(v, Listed(values, tail), s);
      ParseListed(values, s, tail);
    }
  }

  lemma NotAllEmpty(values: seq<string>)
    requires values != [] && values[0] != ""
    ensures !AllEmpty(values)
  {
    assert values[0] in values;
  }

  /** One comma may close a list, two may not, and behind a value only what follows it counts. */
  lemma ClosesBehind(first: string, values: seq<string>)
    requires values != []
    ensures values[0] != "" ==> (Closes([first] + values) <==> Closes(values))
    ensures values == [""] ==> Closes([first] + values)
    ensures values[0] == "" && |values| > 1 ==>
              (Closes([first] + values) <==> values[1..] != [""] && Closes(values[1..]))
  {
    hide CommasAtEnd, AllEmpty;
    var rest := values[1..];
    assert values == [values[0]] + rest;
    CommasBehind(first, values);
    CommasBehindAll(values);
    if values[0] != "" {
      NotAllEmpty(values);
    } else if rest != [] {
      CommasBehind("", rest);
      CommasBehindAll(rest);
    }
  }

  lemma CommasBehindAll(rest: seq<string>)
    requires rest != []
    ensures AllEmpty(rest) ==> CommasAtEnd(rest) == |rest| - 1 && (|rest| == 1 ==> rest == [""])
    ensures AllEmpty([""] + rest) <==> AllEmpty(rest)
    ensures rest == [""] ==> AllEmpty(rest)
  {
    assert AllEmpty(rest) ==> rest[0] in rest && rest[0] == "";
    assert forall v <- rest :: v in [""] + rest;
    CommasBehind(rest[0], rest[1..]);
    assert rest == [rest[0]] + rest[1..];
    assert forall v <- rest[1..] :: v in rest;
  }

  lemma ParseLastWord(v: string, s: seq<string>, tail: seq<ScannedItem>)
    requires Literal(v) && Terminated([Word(v)] + ([CLOSE] + tail))
    ensures ParseIdentifiersList([Word(v)] + ([CLOSE] + tail), s) == Ok(Insert(s, v), [CLOSE] + tail)
  {
    LiteralIsIdentifier(v);
    assert ([Word(v)] + ([CLOSE] + tail))[1..] == [CLOSE] + tail;
  }

  lemma ParseWordAndComma(v: string, more: seq<ScannedItem>, s: seq<string>)
    requires Literal(v) && Terminated([Word(v)] + ([COMMA] + more)) && Terminated([COMMA] + more)
    ensures ParseIdentifiersList([Word(v)] + ([COMMA] + more), s) == ParseIdentifiersList([COMMA] + more, Insert(s, v))
  {
    LiteralIsIdentifier(v);
    assert ([Word(v)] + ([COMMA] + more))[1..] == [COMMA] + more;
  }

  lemma FirstCommaInserts(more: seq<ScannedItem>)
    requires Terminated([COMMA] + more)
    ensures ParseIdentifiersList([COMMA] + more, []) == ParseIdentifiersList([COMMA] + more, [""])
  {
  }

  lemma ParseLastComma(s: seq<string>, tail: seq<ScannedItem>)
    requires s != [] && Terminated([COMMA] + ([CLOSE] + tail))
    ensures ParseIdentifiersList([COMMA] + ([CLOSE] + tail), s) == Ok(Insert(s, ""), [CLOSE] + tail)
  {
    assert ([COMMA] + ([CLOSE] + tail))[1..] == [CLOSE] + tail;
  }

  lemma TwoCommas(more: seq<ScannedItem>, s: seq<string>)
    requires s != [] && Terminated([COMMA] + ([COMMA] + more)) && Terminated(more)
    ensures ParseIdentifiersList([COMMA] + ([COMMA] + more), s) == ParseIdentifiersList(more, Insert(s, ""))
  {
    var items := [COMMA] + ([COMMA] + more);
    assert items[1..] == [COMMA] + more && items[2..] == more;
  }

  lemma WordBehindComma(v: string, more: seq<ScannedItem>, s: seq<string>)
    requires Literal(v) && s != [] && more != [] && more[0] == Word(v)
    requires Terminated([COMMA] + more) && Terminated(more)
    ensures ParseIdentifiersList([COMMA] + more, s) == ParseIdentifiersList(more, s)
  {
    LiteralIsIdentifier(v);
    assert ([COMMA] + more)[1..] == more;
  }

  lemma ParseClosed(tail: seq<ScannedItem>, s: seq<string>)
    requires Terminated([CLOSE] + tail)
    ensures ParseIdentifiersList([CLOSE] + tail, s).Err?
  {
  }

  /** The sorted set of the values. */
  ghost function SetOf(values: seq<string>): seq<string> {
    InOrder(set v | v in values)
  }

  /** A list of values between parentheses parses, to their sorted set, if and only if its commas close. */
  lemma ParseWrittenSet(values: seq<string>, tail: seq<ScannedItem>)
    requires values != [] && (forall v <- values :: Value(v)) && Terminated(tail)
    ensures Terminated([OPEN] + Listed(values, tail))
    ensures ParseValues([OPEN] + Listed(values, tail)) == if Closes(values) then Ok(SetOf(values), tail) else Err
  {
    hide ParseIdentifiersList, Value, WordToken, Closes, InOrder, Listed, ListWords, StrictlySorted, Terminated,
         Literal;
    ListedIsTerminated(values, tail);
    ListedUnfolds(values, tail);
    var items := [OPEN] + Listed(values, tail);
    assert items[1..] == Listed(values, tail);
    if values == [""] {
      assert items[2..] == tail;
      EmptyInOrder();
      StrictlySortedIsUnique([""], SetOf(values));
      EmptyCloses();
    } else {
      StrictlySortedEmpty();
      ParseListed(values, [], tail);
      StartOfListed(values, tail);
      var list := ParseIdentifiersList(Listed(values, tail), []);
      if list.Ok? {
        StrictlySortedIsUnique(list.value, SetOf(values));
        assert list.rest[1..] == tail;
      }
    }
  }

  lemma StrictlySortedEmpty()
    ensures StrictlySorted([])
  {
  }

  lemma EmptyCloses()
    ensures Closes([""])
  {
  }

  lemma StartOfListed(values: seq<string>, tail: seq<ScannedItem>)
    requires values != [] && values != [""] && forall v <- values :: Value(v)
    ensures var items := Listed(values, tail);
            items != [] && (Front(items, Values) == IdentifierToken || Front(items, Values) == CommaToken)
  {
    ListedUnfolds(values, tail);
    assert values[0] in values;
    if values[0] != "" {
      LiteralIsIdentifier(values[0]);
    }
  }

  // ----- parsing a requirement -----

  predicate AllOk(values: seq<string>, ok: string -> bool) {
    forall v <- values :: ok(v)
  }

  /** Which written requirements are accepted. */
  predicate Accepts(rules: Rules, w: Requirement) {
    && rules.validKey(w.key)
    && match w.operator
       case Exists => w.values == []
       case DoesNotExist => w.values == []
       case In => w.values != [] && AllOk(w.values, rules.validValue) && Closes(w.values)
       case NotIn => w.values != [] && AllOk(w.values, rules.validValue) && Closes(w.values)
       case Equals => |w.values| == 1 && rules.compiles(w.values[0])
       case DoubleEquals => |w.values| == 1 && rules.compiles(w.values[0])
       case NotEquals => |w.values| == 1 && rules.compiles(w.values[0])
       case GreaterThan => |w.values| == 1 && rules.parseInt(w.values[0]).Some? && rules.validValue(w.values[0])
       case LessThan => |w.values| == 1 && rules.parseInt(w.values[0]).Some? && rules.validValue(w.values[0])
  }

  /** The requirement that a written one stands for: the values of a set once each and in order. */
  ghost function Meant(w: Requirement): Requirement {
    if IsSetOperator(w.operator) then w.(values := SetOf(w.values)) else w
  }

  predicate EndsRequirement(tail: seq<ScannedItem>) {
    Terminated(tail) && (tail[0].tok == CommaToken || tail[0].tok == EndOfStringToken)
  }

  lemma KeyInFront(rules: Rules, key: string, rest: seq<ScannedItem>)
    requires Literal(key) && Terminated(rest)
    ensures var keyed := [Word(key)] + rest;
            && Terminated(keyed) && Front(keyed, Values) == IdentifierToken
            && keyed[0].literal == key && keyed[1..] == rest
    ensures ParseKeyAndInferOperator(rules, [Word(key)] + rest) ==
            if !rules.validKey(key) then Err
            else Ok((key, if EndsRequirement(rest) then Some(Exists) else None), rest)
  {
    WordTokenIsNoEnd(key);
    PrependKeepsTerminated([Word(key)], rest);
    LiteralIsIdentifier(key);
  }

  lemma NegatedKey(rules: Rules, key: string, rest: seq<ScannedItem>)
    requires Literal(key) && Terminated(rest)
    ensures var items := [BANG] + ([Word(key)] + rest);
            && Terminated(items)
            && ParseKeyAndInferOperator(rules, items) ==
               if rules.validKey(key) then Ok((key, Some(DoesNotExist)), rest) else Err
  {
    hide WordToken, Literal;
    KeyInFront(rules, key, rest);
    PrependKeepsTerminated([BANG], [Word(key)] + rest);
    assert ([BANG] + ([Word(key)] + rest))[1..] == [Word(key)] + rest;
  }

  lemma UnaryItems(w: Requirement, tail: seq<ScannedItem>)
    requires !IsBinary(w.operator)
    ensures Items(WordsOf(w)) + tail ==
            if w.operator == Exists then [Word(w.key)] + tail else [BANG] + ([Word(w.key)] + tail)
  {
    hide Items, WordToken;
    SymbolWords();
    NoItems();
    assert [] + tail == tail && [w.key] + [] == [w.key] && ["!"] + [w.key] == ["!", w.key];
    WordInFront(w.key, [], tail);
    WordInFront("!", [w.key], tail);
  }

  lemma ParseWrittenUnary(rules: Rules, w: Requirement, tail: seq<ScannedItem>)
    requires WellWritten(w) && !IsBinary(w.operator) && EndsRequirement(tail)
    ensures Terminated(Items(WordsOf(w)) + tail)
    ensures ParseRequirement(rules, Items(WordsOf(w)) + tail) == if Accepts(rules, w) then Ok(w, tail) else Err
  {
    hide ParseRestriction, ParseKeyAndInferOperator, WordToken, Literal, Items, WordsOf, Terminated;
    EndIsTail(tail);
    UnaryItems(w, tail);
    if w.operator == DoesNotExist {
      NegatedKey(rules, w.key, tail);
    } else {
      KeyInFront(rules, w.key, tail);
    }
  }

  lemma EndIsTail(tail: seq<ScannedItem>)
    requires EndsRequirement(tail)
    ensures Terminated(tail)
  {
  }

  lemma SymbolWords()
    ensures Word("!") == BANG && Word("(") == OPEN && Word(")") == CLOSE && Word(",") == COMMA
  {
  }

  lemma ParseWrittenOperator(op: Operator, operands: seq<ScannedItem>)
    requires IsBinary(op) && Terminated(operands)
    ensures var items := [Word(SymbolText(op))] + operands;
            Terminated(items) && !EndsRequirement(items) && ParseOperator(items) == Ok(op, operands)
  {
    PrependKeepsTerminated([Word(SymbolText(op))], operands);
    assert ([Word(SymbolText(op))] + operands)[1..] == operands;
  }

  /** The operands of a binary requirement, and what is parsed of them. */
  lemma ParseWrittenOperands(w: Requirement, tail: seq<ScannedItem>)
    requires WellWritten(w) && IsBinary(w.operator) && EndsRequirement(tail)
    ensures var operands := Operands(w, tail);
            && Terminated(operands)
            && ParseOperands(w.operator, operands) ==
               if IsSetOperator(w.operator) && !Closes(w.values) then Err else Ok(Meant(w).values, tail)
  {
    hide ParseIdentifiersList, ParseValues, Closes, Literal, InOrder, WordToken;
    if IsSetOperator(w.operator) {
      ParseWrittenSet(w.values, tail);
    } else {
      ParseWrittenExact(w.values[0], tail);
      assert w.values == [w.values[0]];
      OneWord(w.values[0]);
    }
  }

  function Operands(w: Requirement, tail: seq<ScannedItem>): seq<ScannedItem> {
    if IsSetOperator(w.operator) then [OPEN] + Listed(w.values, tail) else Items(ListWords(w.values)) + tail
  }

  lemma OneWord(v: string)
    ensures Items(ListWords([v])) == if v == "" then [] else [Word(v)]
  {
  }

  lemma ParseWrittenExact(v: string, tail: seq<ScannedItem>)
    requires Value(v) && EndsRequirement(tail)
    ensures var items := (if v == "" then [] else [Word(v)]) + tail;
            Terminated(items) && ParseExactValue(items) == Ok([v], tail)
  {
    if v == "" {
      assert [] + tail == tail;
    } else {
      WordTokenIsNoEnd(v);
      PrependKeepsTerminated([Word(v)], tail);
      LiteralIsIdentifier(v);
      assert ([Word(v)] + tail)[1..] == tail;
    }
  }

  lemma WordsOfBinary(w: Requirement, tail: seq<ScannedItem>)
    requires IsBinary(w.operator)
    ensures Items(WordsOf(w)) + tail == [Word(w.key)] + ([Word(SymbolText(w.operator))] + Operands(w, tail))
  {
    SymbolWords();
    hide WordToken, ListWords;
    var words := ListWords(w.values);
    if IsSetOperator(w.operator) {
      var all := [w.key, SymbolText(w.operator), "("] + words + [")"];
      assert WordsOf(w) == all;
      assert Items(all) == [Word(w.key), Word(SymbolText(w.operator)), OPEN] + Items(words) + [CLOSE];
    } else {
      assert Items(WordsOf(w)) == [Word(w.key), Word(SymbolText(w.operator))] + Items(words);
    }
  }

  lemma ParseWrittenBinary(rules: Rules, w: Requirement, tail: seq<ScannedItem>)
    requires WellWritten(w) && IsBinary(w.operator) && EndsRequirement(tail)
    ensures Terminated(Items(WordsOf(w)) + tail)
    ensures ParseRequirement(rules, Items(WordsOf(w)) + tail) == if Accepts(rules, w) then Ok(Meant(w), tail) else Err
  {
    hide ParseOperands, ParseOperator, ParseKeyAndInferOperator, WordToken, Literal, Closes, Operands, Terminated,
         EndsRequirement, InOrder;
    var operands := Operands(w, tail);
    ParseWrittenOperands(w, tail);
    ParseWrittenOperator(w.operator, operands);
    KeyInFront(rules, w.key, [Word(SymbolText(w.operator))] + operands);
    WordsOfBinary(w, tail);
    SetHasSameValues(w.values, rules.validValue);
  }

  lemma SetHasSameValues(values: seq<string>, ok: string -> bool)
    ensures AllOk(SetOf(values), ok) <==> AllOk(values, ok)
    ensures values != [] ==> SetOf(values) != []
  {
    if values != [] {
      assert values[0] in SetOf(values);
    }
  }

  /** A written requirement parses to what it means, if it is accepted, and to nothing else. */
  lemma ParseWritten(rules: Rules, w: Requirement, tail: seq<ScannedItem>)
    requires WellWritten(w) && EndsRequirement(tail)
    ensures var items := Items(WordsOf(w)) + tail;
            && Terminated(items) && StartsRequirement(Front(items, Values))
            && ParseRequirement(rules, items) == if Accepts(rules, w) then Ok(Meant(w), tail) else Err
  {
    hide ParseRequirement, Accepts;
    LiteralIsIdentifier(w.key);
    SymbolWords();
    if IsBinary(w.operator) {
      ParseWrittenBinary(rules, w, tail);
    } else {
      ParseWrittenUnary(rules, w, tail);
    }
  }

  // ----- parsing a selector -----

  ghost predicate AllAccepted(rules: Rules, ws: seq<Requirement>) {
    forall w <- ws :: Accepts(rules, w)
  }

  ghost function AllMeant(ws: seq<Requirement>): seq<Requirement> {
    seq(|ws|, i requires 0 <= i < |ws| => Meant(ws[i]))
  }

  lemma {:induction false} ParseAllWritten(rules: Rules, ws: seq<Requirement>, done: seq<Requirement>)
    requires forall w <- ws :: WellWritten(w)
    ensures ws != [] ==> StartsRequirement(Front(SelectorItems(ws), Values))
    ensures ParseItems(rules, SelectorItems(ws), done) ==
            if AllAccepted(rules, ws) then Some(done + AllMeant(ws)) else None
  {
    hide ParseRequirement, ParseItems, WellWritten, WordsOf, Accepts, Meant;
    if ws == [] {
      ParseNothing(rules, done);
      NoItems();
      assert done + [] == done && SelectorItems(ws) == [END];
    } else {
      assert ws[0] in ws;
      ParseFirst(rules, ws, done);
      if |ws| > 1 {
        assert forall w <- ws[1..] :: w in ws;
        ParseAllWritten(rules, ws[1..], done + [Meant(ws[0])]);
        assert done + [Meant(ws[0])] + AllMeant(ws[1..]) == done + AllMeant(ws);
        assert forall w <- ws :: w == ws[0] || w in ws[1..];
      } else {
        assert forall w <- ws :: w == ws[0];
        assert AllMeant(ws) == [Meant(ws[0])];
      }
    }
  }

  lemma ParseNothing(rules: Rules, done: seq<Requirement>)
    ensures ParseItems(rules, [END], done) == Some(done)
  {
  }

  function SelectorItems(ws: seq<Requirement>): (items: seq<ScannedItem>)
    ensures Terminated(items)
  {
    WordsHaveNoEnd(SelectorWords(ws));
    PrependKeepsTerminated(Items(SelectorWords(ws)), [END]);
    Items(SelectorWords(ws)) + [END]
  }

  /** The items behind the first requirement. */
  function Behind(ws: seq<Requirement>): seq<ScannedItem>
    requires ws != []
  {
    if |ws| == 1 then [END] else [COMMA] + SelectorItems(ws[1..])
  }

  lemma ParseFirst(rules: Rules, ws: seq<Requirement>, done: seq<Requirement>)
    requires ws != [] && forall w <- ws :: WellWritten(w)
    ensures StartsRequirement(Front(SelectorItems(ws), Values))
    ensures ParseItems(rules, SelectorItems(ws), done) ==
            if !Accepts(rules, ws[0]) then None
            else if |ws| == 1 then Some(done + [Meant(ws[0])])
            else ParseAfterComma(rules, SelectorItems(ws[1..]), done + [Meant(ws[0])])
  {
    hide ParseRequirement, WellWritten, WordsOf, Accepts, Meant, SelectorItems;
    assert ws[0] in ws;
    BehindFirst(ws);
    ParseWritten(rules, ws[0], Behind(ws));
  }

  /** The loop behind a comma. */
  function ParseAfterComma(rules: Rules, items: seq<ScannedItem>, done: seq<Requirement>): Option<seq<Requirement>>
    requires Terminated(items)
  {
    if StartsRequirement(Front(items, Values)) then ParseItems(rules, items, done) else None
  }

  lemma BehindFirst(ws: seq<Requirement>)
    requires ws != []
    ensures SelectorItems(ws) == Items(WordsOf(ws[0])) + Behind(ws)
    ensures EndsRequirement(Behind(ws))
    ensures |ws| > 1 ==> Behind(ws)[1..] == SelectorItems(ws[1..])
  {
    hide WordsOf, Items, WordToken, NoEnd, Terminated;
    SymbolWords();
    EndIsTerminated();
    if |ws| > 1 {
      var words, rest := WordsOf(ws[0]), SelectorWords(ws[1..]);
      CommaKeepsTerminated(SelectorItems(ws[1..]));
      WordInFront(",", rest, [END]);
      ItemsConcat(words, [","] + rest);
      Regroup(Items(words), Items([","] + rest), [END]);
    }
  }

  lemma Regroup<T>(a: seq<T>, b: seq<T>, c: seq<T>)
    ensures (a + b) + c == a + (b + c)
  {
  }

  lemma EndIsTerminated()
    ensures Terminated([END])
  {
  }

  lemma CommaKeepsTerminated(items: seq<ScannedItem>)
    requires Terminated(items)
    ensures Terminated([COMMA] + items)
  {
    PrependKeepsTerminated([COMMA], items);
  }

  /**
   Every text of written requirements, however it is spaced: it parses, to what they mean, if and
   only if each of them is accepted.
   */
  lemma TextParsesIff(rules: Rules, ws: seq<Requirement>, gaps: seq<string>, end: string)
    requires (forall w <- ws :: WellWritten(w)) && Separated(SelectorWords(ws), gaps) && Gap(end)
    ensures ParseText(rules, Spaced(SelectorWords(ws), gaps) + end) ==
            if AllAccepted(rules, ws) then Some(AllMeant(ws)) else None
  {
    hide Scan, ParseItems, WellWritten, AllAccepted, AllMeant, Separated;
    SelectorWordsAreWords(ws);
    ScanSpaced(SelectorWords(ws), gaps, end);
    ParseAllWritten(rules, ws, []);
    assert [] + AllMeant(ws) == AllMeant(ws);
  }

  // ----- texts as they are usually written -----

  /** A requirement as text. */
  function Written(w: Requirement): string {
    var list := Join(w.values, ",");
    match w.operator
    case Exists => w.key
    case DoesNotExist => "!" + w.key
    case Equals => w.key + "=" + list
    case DoubleEquals => w.key + "==" + list
    case NotEquals => w.key + "!=" + list
    case GreaterThan => w.key + ">" + list
    case LessThan => w.key + "<" + list
    case In => w.key + " in (" + list + ")"
    case NotIn => w.key + " notin (" + list + ")"
  }

  function AllWritten(ws: seq<Requirement>): seq<string> {
    seq(|ws|, i requires 0 <= i < |ws| => Written(ws[i]))
  }

  /** The words next to each other. */
  function Bare(words: seq<string>): string {
    if words == [] then "" else words[0] + Bare(words[1..])
  }

  predicate Apart(words: seq<string>) {
    forall i | 0 <= i < |words| - 1 :: !Fuses(words[i], words[i + 1])
  }

  function NoGaps(n: nat): seq<string> {
    seq(n, i => "")
  }

  lemma {:induction false} BareIsSpaced(words: seq<string>)
    requires Apart(words)
    ensures Separated(words, NoGaps(|words|)) && Spaced(words, NoGaps(|words|)) == Bare(words)
  {
    hide Fuses;
    if words != [] {
      assert NoGaps(|words|)[1..] == NoGaps(|words[1..]|);
      ApartSplits(words);
      BareIsSpaced(words[1..]);
    }
  }

  lemma ApartSplits(words: seq<string>)
    requires Apart(words) && words != []
    ensures Apart(words[1..])
  {
    hide Fuses;
    forall i | 0 <= i < |words[1..]| - 1 ensures !Fuses(words[1..][i], words[1..][i + 1]) {
      assert words[1..][i] == words[i + 1] && words[1..][i + 1] == words[i + 2];
    }
  }

  lemma {:induction false} BareConcat(a: seq<string>, b: seq<string>)
    ensures Bare(a + b) == Bare(a) + Bare(b)
  {
    if a == [] {
      assert a + b == b;
    } else {
      assert (a + b)[1..] == a[1..] + b;
      BareConcat(a[1..], b);
    }
  }

  lemma ApartConcat(a: seq<string>, b: seq<string>)
    requires Apart(a) && Apart(b) && (a != [] && b != [] ==> !Fuses(a[|a| - 1], b[0]))
    ensures Apart(a + b)
  {
    hide Fuses;
    forall i | 0 <= i < |a + b| - 1 ensures !Fuses((a + b)[i], (a + b)[i + 1]) {
      assert i >= |a| ==> (a + b)[i] == b[i - |a|];
    }
  }

  lemma FencesFuseNot()
    ensures forall w :: !Fuses(",", w) && !Fuses(w, ",") && !Fuses("(", w) && !Fuses(w, "(") && !Fuses(w, ")")
  {
    assert ',' in "," && '(' in "(" && ')' in ")";
  }

  lemma {:induction false} ListIsApart(values: seq<string>)
    ensures Apart(ListWords(values)) && Bare(ListWords(values)) == Join(values, ",")
  {
    hide Fuses;
    if values != [] {
      var first := if values[0] == "" then [] else [values[0]];
      assert Bare(first) == values[0];
      if |values| > 1 {
        var rest := [","] + ListWords(values[1..]);
        FencesFuseNot();
        ListIsApart(values[1..]);
        BareConcat([","], ListWords(values[1..]));
        ApartConcat([","], ListWords(values[1..]));
        BareConcat(first, rest);
        ApartConcat(first, rest);
        assert Bare([","]) == ",";
      } else {
        assert ListWords(values) == first;
      }
    }
  }

  lemma GapInFront(words: seq<string>)
    requires Apart(words) && words != []
    ensures var gaps := [" "] + NoGaps(|words| - 1);
            Separated(words, gaps) && Spaced(words, gaps) == " " + Bare(words)
  {
    hide Fuses;
    var gaps := [" "] + NoGaps(|words| - 1);
    assert gaps[1..] == NoGaps(|words[1..]|);
    ApartSplits(words);
    BareIsSpaced(words[1..]);
    assert Gap(" ");
  }

  /** One space around `in` and `notin`, and no other. */
  function UsualGaps(w: Requirement): seq<string> {
    if IsSetOperator(w.operator) then [""] + ([" "] + ([" "] + NoGaps(|ListWords(w.values)| + 1)))
    else NoGaps(|WordsOf(w)|)
  }

  lemma WrittenIsSpaced(w: Requirement)
    requires WellWritten(w)
    ensures Separated(WordsOf(w), UsualGaps(w)) && Spaced(WordsOf(w), UsualGaps(w)) == Written(w)
  {
    hide Apart, Separated, Spaced, Bare, Literal, NoGaps;
    if IsSetOperator(w.operator) {
      SetIsSpaced(w);
    } else {
      var words := WordsOf(w);
      OthersAreApart(w);
      BareIsSpaced(words);
    }
  }

  lemma OthersAreApart(w: Requirement)
    requires WellWritten(w) && !IsSetOperator(w.operator)
    ensures Apart(WordsOf(w)) && Bare(WordsOf(w)) == Written(w)
  {
    hide Apart, Bare, Fuses, Literal;
    if IsBinary(w.operator) {
      BinaryIsApart(w.key, w.operator, w.values[0]);
      assert w.values == [w.values[0]];
    } else {
      UnaryIsApart(w.key);
    }
  }

  lemma UnaryIsApart(key: string)
    requires Literal(key)
    ensures Apart([key]) && Bare([key]) == key
    ensures Apart(["!", key]) && Bare(["!", key]) == "!" + key
  {
    hide Fuses, Literal;
    SymbolsFuseNot(key);
    assert ["!", key][1..] == [key];
  }

  lemma BinaryIsApart(key: string, op: Operator, v: string)
    requires Literal(key) && Value(v) && IsBinary(op) && !IsSetOperator(op)
    ensures var words := [key, SymbolText(op)] + ListWords([v]);
            Apart(words) && Bare(words) == key + SymbolText(op) + v
  {
    hide Fuses, Literal, Value;
    var symbol := SymbolText(op);
    var front, list := [key, symbol], ListWords([v]);
    SymbolsFuseNot(key);
    ListIsApart([v]);
    OneValue(v);
    BinaryFront(key, symbol);
    ApartConcat(front, list);
    BareConcat(front, list);
    assert Join([v], ",") == v;
  }

  lemma BinaryFront(key: string, symbol: string)
    requires !Fuses(key, symbol)
    ensures Apart([key, symbol]) && Bare([key, symbol]) == key + symbol
  {
    hide Fuses;
    assert [key, symbol][1..] == [symbol] && [symbol][1..] == [];
    assert Bare([symbol]) == symbol;
  }

  lemma OneValue(v: string)
    requires Value(v)
    ensures var list := ListWords([v]);
            list == (if v == "" then [] else [v])
            && (list != [] ==> forall op | IsBinary(op) && !IsSetOperator(op) :: !Fuses(SymbolText(op), list[0]))
  {
    if v != "" {
      SymbolsFuseNot(v);
    }
  }

  /** A literal runs into no symbol. */
  lemma SymbolsFuseNot(key: string)
    requires Literal(key)
    ensures forall s | IsSymbol(s) :: !Fuses(key, s) && !Fuses(s, key)
  {
    assert key[0] in key && IsPlain(key[0]);
    forall s | IsSymbol(s) ensures !Literal(s) {
      assert s[0] in s;
    }
  }

  lemma SetIsSpaced(w: Requirement)
    requires WellWritten(w) && IsSetOperator(w.operator)
    ensures Separated(WordsOf(w), UsualGaps(w)) && Spaced(WordsOf(w), UsualGaps(w)) == Written(w)
  {
    hide Literal, NoGaps, Fuses, Apart, Separated, Spaced, Bare, Join;
    var inner, op := ["("] + ListWords(w.values) + [")"], SymbolText(w.operator);
    var gaps := [" "] + NoGaps(|inner| - 1);
    ParenthesesAreApart(w.values);
    FencesFuseNot();
    GapInFront(inner);
    SpacedInFront(op, " ", inner, gaps);
    SpacedInFront(w.key, "", [op] + inner, [" "] + gaps);
    SetText(w);
    assert WordsOf(w) == [w.key] + ([op] + inner);
  }

  lemma SetText(w: Requirement)
    requires IsSetOperator(w.operator)
    ensures Written(w) == "" + (w.key + (" " + (SymbolText(w.operator) + (" " + ("(" + Join(w.values, ",") + ")")))))
    ensures Gap(" ") && Gap("")
  {
  }

  lemma ParenthesesAreApart(values: seq<string>)
    ensures var inner := ["("] + ListWords(values) + [")"];
            Apart(inner) && Bare(inner) == "(" + Join(values, ",") + ")"
  {
    hide Fuses;
    var list := ListWords(values);
    ListIsApart(values);
    FencesFuseNot();
    ApartConcat(["("], list);
    BareConcat(["("], list);
    ApartConcat(["("] + list, [")"]);
    BareConcat(["("] + list, [")"]);
    assert Bare(["("]) == "(" && Bare([")"]) == ")";
  }

  lemma SpacedInFront(w: string, gap: string, words: seq<string>, gaps: seq<string>)
    requires Separated(words, gaps) && Gap(gap) && words != [] && (Fuses(w, words[0]) ==> gaps[0] != "")
    ensures Separated([w] + words, [gap] + gaps)
    ensures Spaced([w] + words, [gap] + gaps) == gap + (w + Spaced(words, gaps))
  {
    hide Fuses, Gap;
    assert ([w] + words)[1..] == words && ([gap] + gaps)[1..] == gaps;
    forall i | 0 <= i < |words| && Fuses(([w] + words)[i], ([w] + words)[i + 1])
      ensures ([gap] + gaps)[i + 1] != ""
    {
      assert i > 0 ==> Fuses(words[i - 1], words[i]);
    }
  }

  lemma {:induction false} SpacedConcat(a: seq<string>, ga: seq<string>, b: seq<string>, gb: seq<string>)
    requires |a| == |ga| && |b| == |gb|
    ensures Spaced(a + b, ga + gb) == Spaced(a, ga) + Spaced(b, gb)
  {
    if a == [] {
      assert a + b == b && ga + gb == gb;
    } else {
      assert (a + b)[1..] == a[1..] + b && (ga + gb)[1..] == ga[1..] + gb;
      SpacedConcat(a[1..], ga[1..], b, gb);
    }
  }

  lemma SeparatedConcat(a: seq<string>, ga: seq<string>, b: seq<string>, gb: seq<string>)
    requires Separated(a, ga) && Separated(b, gb) && b != [] && forall w :: !Fuses(w, b[0])
    ensures Separated(a + b, ga + gb)
  {
    hide Fuses, Gap;
    var words, gaps := a + b, ga + gb;
    forall i | 0 <= i < |words| - 1 && Fuses(words[i], words[i + 1]) ensures gaps[i + 1] != "" {
      if i < |a| - 1 {
        assert Fuses(a[i], a[i + 1]);
      } else if i >= |a| {
        assert Fuses(b[i - |a|], b[i - |a| + 1]);
      }
    }
  }

  function SelectorGaps(ws: seq<Requirement>): seq<string> {
    if ws == [] then []
    else if |ws| == 1 then UsualGaps(ws[0])
    else UsualGaps(ws[0]) + ([""] + SelectorGaps(ws[1..]))
  }

  lemma {:induction false} SelectorIsSpaced(ws: seq<Requirement>)
    requires forall w <- ws :: WellWritten(w)
    ensures Separated(SelectorWords(ws), SelectorGaps(ws))
    ensures Spaced(SelectorWords(ws), SelectorGaps(ws)) == Join(AllWritten(ws), ",")
  {
    hide WellWritten, WordsOf, UsualGaps, Written, Spaced, Separated;
    if ws == [] {
      NothingIsSpaced();
    } else {
      assert ws[0] in ws;
      WrittenIsSpaced(ws[0]);
      if |ws| > 1 {
        var rest := ws[1..];
        assert AllWritten(ws)[1..] == AllWritten(rest);
        assert forall w <- rest :: w in ws;
        SelectorIsSpaced(rest);
        TwoAreSpaced(WordsOf(ws[0]), UsualGaps(ws[0]), SelectorWords(rest), SelectorGaps(rest));
        Regroup(Written(ws[0]), ",", Join(AllWritten(rest), ","));
      }
    }
  }

  lemma TwoAreSpaced(a: seq<string>, ga: seq<string>, b: seq<string>, gb: seq<string>)
    requires Separated(a, ga) && Separated(b, gb)
    ensures Separated(a + ([","] + b), ga + ([""] + gb))
    ensures Spaced(a + ([","] + b), ga + ([""] + gb)) == Spaced(a, ga) + ("," + Spaced(b, gb))
  {
    hide Fuses, Spaced;
    BehindCommaIsSpaced(b, gb);
    FencesFuseNot();
    SeparatedConcat(a, ga, [","] + b, [""] + gb);
    SpacedConcat(a, ga, [","] + b, [""] + gb);
  }

  lemma NothingIsSpaced()
    ensures Separated([], []) && Spaced([], []) == ""
  {
  }

  lemma SameLength(words: seq<string>, gaps: seq<string>)
    requires Separated(words, gaps)
    ensures |words| == |gaps|
  {
  }

  lemma BehindCommaIsSpaced(words: seq<string>, gaps: seq<string>)
    requires Separated(words, gaps)
    ensures Separated([","] + words, [""] + gaps)
    ensures Spaced([","] + words, [""] + gaps) == "," + Spaced(words, gaps)
  {
    hide Fuses;
    FencesFuseNot();
    assert Gap("");
    if words == [] {
      assert [","] + words == [","] && [""] + gaps == [""] && Spaced([], []) == "";
    } else {
      SpacedInFront(",", "", words, gaps);
    }
  }

  /** Requirements written one after the other, between commas. */
  lemma WrittenParsesIff(rules: Rules, ws: seq<Requirement>)
    requires forall w <- ws :: WellWritten(w)
    ensures ParseText(rules, Join(AllWritten(ws), ",")) == if AllAccepted(rules, ws) then Some(AllMeant(ws)) else None
  {
    hide WellWritten, AllAccepted, AllMeant, Written, Separated, Spaced, ParseText;
    SelectorIsSpaced(ws);
    SameLength(SelectorWords(ws), SelectorGaps(ws));
    TextParsesIff(rules, ws, SelectorGaps(ws), "");
    var text := Spaced(SelectorWords(ws), SelectorGaps(ws));
    assert text + "" == text;
    assert Gap("");
  }

  /** One requirement. */
  lemma OneParsesIff(rules: Rules, w: Requirement)
    requires WellWritten(w)
    ensures ParseText(rules, Written(w)) == if Accepts(rules, w) then Some([Meant(w)]) else None
  {
    hide WellWritten, Accepts, Meant, Written, ParseText;
    WrittenParsesIff(rules, [w]);
    assert AllWritten([w]) == [Written(w)] && AllMeant([w]) == [Meant(w)];
    assert AllAccepted(rules, [w]) <==> Accepts(rules, w);
  }
}
