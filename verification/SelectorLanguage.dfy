/** Exactly which texts are label selectors: those that scan to the words of written requirements that are accepted. */
module SelectorLanguage {
  import opened Options
  import opened Text
  import opened LabelLexer
  import opened Selectors
  import opened LabelParser
  import opened SelectorTexts

  // ----- what the lexer gives -----

  /** Every item but the last is a word with the token of its spelling. */
  predicate Spelled(items: seq<ScannedItem>) {
    && Terminated(items) && items[|items| - 1] == END
    && forall i | 0 <= i < |items| - 1 :: IsSpelled(items[i])
  }

  predicate IsSpelled(item: ScannedItem) {
    item == Word(item.literal) && IsWord(item.literal)
  }

  lemma LexedIsSpelled(t: string)
    ensures Lexed(t).tok != EndOfStringToken ==> IsSpelled(ScannedItem(Lexed(t).tok, Lexed(t).literal))
  {
    var u := SkipSpaces(t);
    LexAdvances(t);
    if u != "" && u[0] != NUL {
      if IsSpecialSymbol(u[0]) {
        var n := SymbolLength(u);
        assert u[..n] == if n == 2 then [u[0], u[1]] else [u[0]];
      } else {
        assert IsPlain(u[0]);
      }
    }
  }

  lemma {:induction false} ScanIsSpelled(t: string)
    ensures Spelled(Scan(t))
    decreases |t|
  {
    hide Lexed, IsSpelled, Terminated;
    LexAdvances(t);
    LexedIsSpelled(t);
    ScanTerminates(t);
    var x := Lexed(t);
    if x.tok != EndOfStringToken {
      ScanIsSpelled(x.rest);
      ScanTerminates(x.rest);
    }
  }

  lemma RestIsSpelled(items: seq<ScannedItem>, n: nat)
    requires Spelled(items) && n < |items|
    ensures Spelled(items[n..])
  {
    hide IsSpelled;
    forall i | 0 <= i < |items[n..]| - 1 ensures IsSpelled(items[n..][i]) {
      assert items[n..][i] == items[n + i];
    }
  }

  /** A word is known by its token, and an identifier in value position is a literal. */
  lemma SpelledToken(item: ScannedItem)
    requires IsSpelled(item)
    ensures InContext(item.tok, Values) == IdentifierToken <==> Literal(item.literal)
    ensures item.tok == CommaToken ==> item == COMMA
    ensures item.tok == OpenParToken ==> item == OPEN
    ensures item.tok == ClosedParToken ==> item == CLOSE
    ensures item.tok == DoesNotExistToken ==> item == BANG
    ensures forall op | IsBinary(op) :: item.tok == WordToken(SymbolText(op)) ==> item == Word(SymbolText(op))
  {
    if Literal(item.literal) {
      LiteralIsIdentifier(item.literal);
    }
  }

  // ----- what was parsed was written -----

  lemma EmptyInFront(more: seq<string>, tail: seq<ScannedItem>)
    requires more != []
    ensures Listed([""] + more, tail) == [COMMA] + Listed(more, tail)
  {
    hide Listed;
    ListedUnfolds([""] + more, tail);
    assert ([""] + more)[1..] == more;
  }

  lemma ValueInFront(v: string, more: seq<string>, tail: seq<ScannedItem>)
    requires v != "" && |more| > 1 && more[0] == ""
    ensures Listed([v] + more[1..], tail) == [Word(v)] + Listed(more, tail)
  {
    hide Listed, WordToken;
    ListedUnfolds([v] + more[1..], tail);
    ListedUnfolds(more, tail);
    assert ([v] + more[1..])[1..] == more[1..];
  }

  lemma LastInList(v: string, tail: seq<ScannedItem>)
    ensures Listed([v], tail) == (if v == "" then [] else [Word(v)]) + ([CLOSE] + tail)
  {
    hide Listed, WordToken;
    ListedUnfolds([v], tail);
  }

  /** The items that a parsed list of values took are those of a written list. */
  ghost predicate WasList(items: seq<ScannedItem>, rest: seq<ScannedItem>, values: seq<string>) {
    && values != [] && values != [""] && (forall v <- values :: Value(v))
    && rest != [] && rest[0] == CLOSE && items == Listed(values, rest[1..])
    && (items != [] && items[0] == COMMA ==> values[0] == "" && |values| > 1)
  }

  /**
   The list parser meets a value and a comma, a last value, a last comma, two commas, or a comma and a
   value; in three of the cases it goes on with what is left.
   */
  ghost predicate ListStep(items: seq<ScannedItem>, s: seq<string>, next: seq<ScannedItem>, s': seq<string>)
    requires Spelled(items) && |items| > 1 && ParseIdentifiersList(items, s).Ok?
  {
    Spelled(next) && |next| < |items| && ParseIdentifiersList(items, s) == ParseIdentifiersList(next, s')
  }

  ghost predicate MeetsWord(items: seq<ScannedItem>, s: seq<string>)
    requires Spelled(items) && |items| > 1 && ParseIdentifiersList(items, s).Ok?
  {
    && Literal(items[0].literal) && items[0] == Word(items[0].literal) && items[1] == COMMA
    && ListStep(items, s, items[1..], Insert(s, items[0].literal))
  }

  ghost predicate MeetsLastWord(items: seq<ScannedItem>, s: seq<string>)
    requires Spelled(items) && |items| > 1 && ParseIdentifiersList(items, s).Ok?
  {
    && Literal(items[0].literal) && items[0] == Word(items[0].literal) && items[1] == CLOSE
    && ParseIdentifiersList(items, s).rest == items[1..]
  }

  ghost predicate MeetsLastComma(items: seq<ScannedItem>, s: seq<string>)
    requires Spelled(items) && |items| > 1 && ParseIdentifiersList(items, s).Ok?
  {
    items[0] == COMMA && items[1] == CLOSE && ParseIdentifiersList(items, s).rest == items[1..]
  }

  ghost predicate MeetsCommas(items: seq<ScannedItem>, s: seq<string>)
    requires Spelled(items) && |items| > 1 && ParseIdentifiersList(items, s).Ok?
  {
    && items[0] == COMMA && items[1] == COMMA
    && exists s' :: ListStep(items, s, items[2..], s')
  }

  ghost predicate MeetsComma(items: seq<ScannedItem>, s: seq<string>)
    requires Spelled(items) && |items| > 1 && ParseIdentifiersList(items, s).Ok?
  {
    items[0] == COMMA && exists s' :: ListStep(items, s, items[1..], s')
  }

  lemma EndIsNoList(s: seq<string>)
    ensures Terminated([END]) && ParseIdentifiersList([END], s).Err?
  {
  }

  lemma SpelledIsTerminated(items: seq<ScannedItem>)
    requires Spelled(items)
    ensures Terminated(items)
  {
  }

  lemma ListMeets(items: seq<ScannedItem>, s: seq<string>)
    requires Spelled(items) && ParseIdentifiersList(items, s).Ok?
    ensures |items| > 1
    ensures MeetsWord(items, s) || MeetsLastWord(items, s) || MeetsLastComma(items, s) || MeetsCommas(items, s)
            || MeetsComma(items, s)
  {
    hide Literal, WordToken, IsSpelled, Spelled, Insert, Terminated;
    SpelledFront(items);
    EndIsNoList(s);
    SpelledFront(items[1..]);
    var started := if s == [] then Insert(s, "") else s;
    if Front(items, Values) == CommaToken {
      assert Front(items[1..], Values) == CommaToken ==> ListStep(items, s, items[2..], Insert(started, "")) by {
        if Front(items[1..], Values) == CommaToken {
          assert items[1..][1..] == items[2..];
        }
      }
      assert Front(items[1..], Values) != CommaToken && Front(items[1..], Values) != ClosedParToken ==>
          ListStep(items, s, items[1..], started);
    }
  }

  lemma {:induction false} ListWasWritten(items: seq<ScannedItem>, s: seq<string>) returns (values: seq<string>)
    requires Spelled(items) && ParseIdentifiersList(items, s).Ok?
    ensures WasList(items, ParseIdentifiersList(items, s).rest, values)
    decreases |items|
  {
    hide Literal, WordToken, Spelled, WasList, ParseIdentifiersList, Terminated;
    SpelledIsTerminated(items);
    var rest := ParseIdentifiersList(items, s).rest;
    ListMeets(items, s);
    if MeetsWord(items, s) {
      var more := ListWasWritten(items[1..], Insert(s, items[0].literal));
      values := WordWasWritten(items, items[0].literal, more, rest);
    } else if MeetsLastWord(items, s) {
      values := LastWasWritten(items, items[0].literal, rest);
    } else if MeetsLastComma(items, s) {
      LastInList("", rest[1..]);
      values := CommaWasWritten(items, [""], rest);
    } else if MeetsCommas(items, s) {
      var s' :| ListStep(items, s, items[2..], s');
      var more := ListWasWritten(items[2..], s');
      WasListIsNotEmpty(items[2..], rest, more);
      assert items[1..][1..] == items[2..];
      var again := CommaWasWritten(items[1..], more, rest);
      WasListIsNotEmpty(items[1..], rest, again);
      values := CommaWasWritten(items, again, rest);
    } else {
      var s' :| ListStep(items, s, items[1..], s');
      var more := ListWasWritten(items[1..], s');
      WasListIsNotEmpty(items[1..], rest, more);
      values := CommaWasWritten(items, more, rest);
    }
  }

  lemma WasListIsNotEmpty(items: seq<ScannedItem>, rest: seq<ScannedItem>, values: seq<string>)
    requires WasList(items, rest, values)
    ensures values != [] && (forall v <- values :: Value(v))
    ensures rest != [] && rest[0] == CLOSE && items == Listed(values, rest[1..])
  {
  }

  lemma WordWasWritten(items: seq<ScannedItem>, v: string, more: seq<string>, rest: seq<ScannedItem>)
    returns (values: seq<string>)
    requires Literal(v) && |items| > 1 && items[0] == Word(v) && items[1] == COMMA && WasList(items[1..], rest, more)
    ensures WasList(items, rest, values)
  {
    hide WordToken, Listed;
    values := [v] + more[1..];
    ValueInFront(v, more, rest[1..]);
    assert items == [Word(v)] + items[1..];
    LiteralIsIdentifier(v);
    assert forall x <- more[1..] :: x in more;
  }

  lemma LastWasWritten(items: seq<ScannedItem>, v: string, rest: seq<ScannedItem>) returns (values: seq<string>)
    requires Literal(v) && |items| > 1 && items[0] == Word(v) && items[1] == CLOSE && rest == items[1..]
    ensures WasList(items, rest, values)
  {
    hide WordToken, Listed;
    values := [v];
    LastInList(v, rest[1..]);
    assert items == [Word(v)] + rest && rest == [CLOSE] + rest[1..];
    LiteralIsIdentifier(v);
  }

  lemma CommaWasWritten(items: seq<ScannedItem>, more: seq<string>, rest: seq<ScannedItem>)
    returns (values: seq<string>)
    requires items != [] && items[0] == COMMA && more != [] && forall v <- more :: Value(v)
    requires rest != [] && rest[0] == CLOSE && items[1..] == Listed(more, rest[1..])
    ensures WasList(items, rest, values)
  {
    hide Literal, Listed;
    values := [""] + more;
    EmptyInFront(more, rest[1..]);
    assert items == [COMMA] + items[1..];
  }

  lemma SpelledFront(items: seq<ScannedItem>)
    requires Spelled(items)
    ensures Terminated(items)
    ensures items[0].tok != EndOfStringToken ==> |items| > 1 && IsSpelled(items[0]) && Spelled(items[1..])
    ensures InContext(items[0].tok, Values) == IdentifierToken ==>
              Literal(items[0].literal) && items[0] == Word(items[0].literal)
    ensures items[0].tok == CommaToken ==> items[0] == COMMA
    ensures items[0].tok == OpenParToken ==> items[0] == OPEN
    ensures items[0].tok == ClosedParToken ==> items[0] == CLOSE
    ensures items[0].tok == DoesNotExistToken ==> items[0] == BANG
    ensures items[0].tok == EndOfStringToken ==> items == [END]
  {
    hide IsWord, Literal;
    if items[0].tok != EndOfStringToken {
      SpelledToken(items[0]);
      RestIsSpelled(items, 1);
    }
  }

  lemma ValuesWereWritten(items: seq<ScannedItem>) returns (values: seq<string>)
    requires Spelled(items) && Terminated(items) && ParseValues(items).Ok?
    ensures values != [] && forall v <- values :: Value(v)
    ensures items == [OPEN] + Listed(values, ParseValues(items).rest)
    ensures Spelled(ParseValues(items).rest)
  {
    hide Literal, WordToken, Spelled, Listed, ParseIdentifiersList, Terminated;
    var rest := ParseValues(items).rest;
    SpelledFront(items);
    assert items == [OPEN] + items[1..];
    SpelledFront(items[1..]);
    if Front(items[1..], Values) == ClosedParToken {
      values := [""];
      LastInList("", rest);
      assert items[1..] == [CLOSE] + items[2..] && items[1..][1..] == items[2..];
      assert [] + ([CLOSE] + rest) == [CLOSE] + rest;
    } else {
      values := ListWasWritten(items[1..], []);
      WasListIsNotEmpty(items[1..], ParseIdentifiersList(items[1..], []).rest, values);
      TerminatedIsNotEmpty(rest);
      ListedIsSpelled(items[1..], values, rest);
    }
  }

  lemma TerminatedIsNotEmpty(items: seq<ScannedItem>)
    requires Terminated(items)
    ensures items != []
  {
  }

  lemma ListedIsSpelled(items: seq<ScannedItem>, values: seq<string>, rest: seq<ScannedItem>)
    requires Spelled(items) && items == Listed(values, rest) && rest != []
    ensures Spelled(rest)
  {
    hide IsSpelled, ListWords, WordToken, Terminated;
    var n := |items| - |rest|;
    assert items[n..] == rest;
    RestIsSpelled(items, n);
  }

  lemma ValueWasWritten(items: seq<ScannedItem>) returns (v: string)
    requires Spelled(items) && Terminated(items) && ParseExactValue(items).Ok?
    ensures Value(v)
    ensures items == Items(ListWords([v])) + ParseExactValue(items).rest && Spelled(ParseExactValue(items).rest)
  {
    hide Literal, WordToken, Spelled, Terminated, Items, ListWords;
    SpelledFront(items);
    v := if Front(items, Values) == IdentifierToken then items[0].literal else "";
    OneWord(v);
    EmptyIsNoLiteral();
    assert v != "" ==> items == [items[0]] + items[1..];
    assert v == "" ==> [] + items == items;
  }

  lemma OperandsWereWritten(key: string, op: Operator, items: seq<ScannedItem>) returns (w: Requirement)
    requires Literal(key) && IsBinary(op) && Spelled(items) && Terminated(items) && ParseOperands(op, items).Ok?
    ensures WellWritten(w) && w.key == key && w.operator == op
    ensures items == Operands(w, ParseOperands(op, items).rest) && Spelled(ParseOperands(op, items).rest)
  {
    hide Literal, WordToken, Spelled, Listed, ParseValues, ParseExactValue, Terminated, Items, ListWords;
    var values: seq<string>;
    if IsSetOperator(op) {
      values := ValuesWereWritten(items);
    } else {
      var v := ValueWasWritten(items);
      values := [v];
    }
    w := Requirement(key, op, values);
  }

  lemma EmptyIsNoLiteral()
    ensures !Literal("")
  {
  }

  lemma RequirementWasWritten(rules: Rules, items: seq<ScannedItem>) returns (w: Requirement)
    requires Spelled(items) && Terminated(items) && ParseRequirement(rules, items).Ok?
    ensures WellWritten(w)
    ensures items == Items(WordsOf(w)) + ParseRequirement(rules, items).rest
    ensures Spelled(ParseRequirement(rules, items).rest)
  {
    hide Literal, WordToken, Spelled, ParseOperands, Terminated, Operands, ListWords, NewRequirement, WordsOf, Items,
         ParseOperator;
    SpelledFront(items);
    var negated := Front(items, Values) == DoesNotExistToken;
    var keyed := if negated then items[1..] else items;
    SpelledFront(keyed);
    var key, rest := keyed[0].literal, keyed[1..];
    assert keyed == [Word(key)] + rest;
    if ParseKeyAndInferOperator(rules, items).value.1.Some? {
      w := Requirement(key, if negated then DoesNotExist else Exists, []);
      assert negated ==> items == [BANG] + keyed;
      UnaryItems(w, rest);
    } else {
      var op := OperatorWasWritten(rest);
      assert rest == [rest[0]] + rest[1..];
      w := OperandsWereWritten(key, op, rest[1..]);
      WordsOfBinary(w, ParseRequirement(rules, items).rest);
    }
  }

  lemma OperatorWasWritten(items: seq<ScannedItem>) returns (op: Operator)
    requires Spelled(items) && Terminated(items) && ParseOperator(items).Ok?
    ensures op == ParseOperator(items).value && IsBinary(op) && items[0] == Word(SymbolText(op))
    ensures ParseOperator(items).rest == items[1..] && Spelled(items[1..]) && Terminated(items[1..])
  {
    hide Spelled, IsSpelled, Terminated;
    SpelledFront(items);
    op := ParseOperator(items).value;
    SpelledToken(items[0]);
    SpelledFront(items[1..]);
  }

  /** A parsed selector was written: its items are those of written requirements. */
  lemma {:induction false} SelectorWasWritten(rules: Rules, items: seq<ScannedItem>, done: seq<Requirement>)
    returns (ws: seq<Requirement>)
    requires Spelled(items) && Terminated(items) && ParseItems(rules, items, done).Some?
    ensures (forall w <- ws :: WellWritten(w)) && items == SelectorItems(ws)
    decreases |items|
  {
    hide WellWritten, WordsOf, ParseRequirement, Spelled, WordToken, Terminated;
    SpelledFront(items);
    if Front(items, Values) == EndOfStringToken {
      ws := [];
      NoItems();
      assert SelectorItems(ws) == [END];
    } else {
      var w := RequirementWasWritten(rules, items);
      var rest := ParseRequirement(rules, items).rest;
      SpelledFront(rest);
      if Front(rest, Values) == EndOfStringToken {
        ws := [w];
        BehindFirst(ws);
      } else {
        SpelledFront(rest[1..]);
        assert rest == [COMMA] + rest[1..];
        var more := SelectorWasWritten(rules, rest[1..], done + [ParseRequirement(rules, items).value]);
        ws := [w] + more;
        MoreIsNotEmpty(more);
        assert ws[1..] == more;
        BehindFirst(ws);
      }
    }
  }

  lemma MoreIsNotEmpty(more: seq<Requirement>)
    requires StartsRequirement(Front(SelectorItems(more), Values))
    ensures more != []
  {
    NoItems();
  }

  /**
   A text is a selector exactly when it scans to the words of written requirements that are all
   accepted, and then it gives what they mean, in the order of the text.
   */
  lemma SelectorLanguageIs(rules: Rules, text: string)
    ensures ParseText(rules, text).Some? <==>
            exists ws :: (forall w <- ws :: WellWritten(w)) && AllAccepted(rules, ws) && Scan(text) == SelectorItems(ws)
    ensures forall ws :: (forall w <- ws :: WellWritten(w)) && AllAccepted(rules, ws) && Scan(text) == SelectorItems(ws)
              ==> ParseText(rules, text) == Some(AllMeant(ws))
  {
    hide WellWritten, AllAccepted, AllMeant, ParseItems, Scan, SelectorItems, Terminated, Spelled;
    ScanTerminates(text);
    ScanIsSpelled(text);
    forall ws | (forall w <- ws :: WellWritten(w)) && Scan(text) == SelectorItems(ws)
      ensures ParseText(rules, text) == if AllAccepted(rules, ws) then Some(AllMeant(ws)) else None
    {
      ParseAllWritten(rules, ws, []);
      assert [] + AllMeant(ws) == AllMeant(ws);
    }
    if ParseText(rules, text).Some? {
      var ws := SelectorWasWritten(rules, Scan(text), []);
    }
  }
}
