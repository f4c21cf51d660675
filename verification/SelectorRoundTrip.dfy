/** Printing a parsed selector and parsing the text again gives the same requirements. */
module SelectorRoundTrip {
  import opened Options
  import opened Text
  import opened LabelLexer
  import opened Selectors
  import opened LabelParser
  import opened SelectorTexts
  import opened SelectorLanguage

  predicate ValueSet(values: seq<string>) {
    StrictlySorted(values) && forall v <- values :: Value(v)
  }

  /** What Parse returns: accepted, with a literal key, and values in the order of a sorted set. */
  predicate Printable(rules: Rules, r: Requirement) {
    && Acceptable(rules, r)
    && Literal(r.key)
    && ValueSet(r.values)
  }

  predicate AllPrintable(rules: Rules, sel: seq<Requirement>) {
    forall r <- sel :: Printable(rules, r)
  }

  // ----- what is printed parses -----

  lemma PrintedValues(r: Requirement)
    requires StrictlySorted(r.values)
    ensures ValuesText(r) == Join(r.values, ",")
  {
    forall i, j | 0 <= i < j < |r.values| ensures !Less(r.values[j], r.values[i]) {
      LessIsTotal(r.values[i], r.values[j]);
    }
  }

  /** In a sorted set only the first value can be empty. */
  lemma SortedCloses(values: seq<string>)
    requires StrictlySorted(values)
    ensures Closes(values)
  {
    if |values| > 1 {
      assert Less(values[|values| - 2], values[|values| - 1]);
    }
  }

  /** What is printed is written as requirements are, and stands for itself. */
  lemma PrintedIsWritten(rules: Rules, r: Requirement)
    requires Printable(rules, r)
    ensures RequirementString(r) == Written(r) && WellWritten(r) && Accepts(rules, r) && Meant(r) == r
  {
    hide Literal, StrictlySorted, InOrder, Closes, Less;
    PrintedValues(r);
    SortedCloses(r.values);
    StrictlySortedIsUnique(r.values, SetOf(r.values));
  }

  /** What was printed parses to exactly the requirements that were printed. */
  lemma PrintedParses(rules: Rules, sel: seq<Requirement>)
    requires AllPrintable(rules, sel)
    ensures ParseText(rules, SelectorString(sel)) == Some(sel)
  {
    hide Printable, Accepts, Meant, WellWritten, RequirementString, Written, ParseText;
    forall r | r in sel
      ensures RequirementString(r) == Written(r) && WellWritten(r) && Accepts(rules, r) && Meant(r) == r
    {
      PrintedIsWritten(rules, r);
    }
    WrittenParsesIff(rules, sel);
    assert RequirementStrings(sel) == AllWritten(sel);
    assert AllMeant(sel) == sel;
  }

  // ----- what was parsed is printable -----

  lemma MeantIsPrintable(rules: Rules, w: Requirement)
    requires WellWritten(w) && Accepts(rules, w)
    ensures Printable(rules, Meant(w))
  {
    hide Literal, InOrder, Closes, StrictlySorted;
    if IsSetOperator(w.operator) {
      SetHasSameValues(w.values, rules.validValue);
    } else {
      FewAreSorted(w.values);
    }
  }

  lemma FewAreSorted(values: seq<string>)
    requires |values| <= 1
    ensures StrictlySorted(values)
  {
  }

  lemma ParsedIsPrintable(rules: Rules, text: string)
    ensures ParseText(rules, text).Some? ==> AllPrintable(rules, ParseText(rules, text).value)
  {
    hide Printable, Meant, WellWritten, Accepts, ParseText, Scan;
    SelectorLanguageIs(rules, text);
    if ParseText(rules, text).Some? {
      var ws :| (forall w <- ws :: WellWritten(w)) && AllAccepted(rules, ws) && Scan(text) == SelectorItems(ws);
      forall i | 0 <= i < |ws| ensures Printable(rules, AllMeant(ws)[i]) {
        assert ws[i] in ws;
        MeantIsPrintable(rules, ws[i]);
      }
    }
  }

  // ----- the round trip -----

  /**
   For every selector that Parse returns, its text parses, to exactly its
   requirements, and every selector that Parse may return for that text has the
   same requirements, in key order, and matches the same label sets.
   */
  lemma RoundTrip(rules: Rules, text: string, sel: seq<Requirement>)
    requires ParsesTo(rules, text, sel)
    ensures ParseText(rules, SelectorString(sel)) == Some(sel)
    ensures forall again | ParsesTo(rules, SelectorString(sel), again) ::
              && multiset(again) == multiset(sel)
              && KeySorted(again)
              && (forall labels :: SelectorMatches(rules, again, labels) == SelectorMatches(rules, sel, labels))
  {
    var raw := ParseText(rules, text).value;
    ParsedIsPrintable(rules, text);
    forall r | r in sel ensures Printable(rules, r) {
      assert r in multiset(sel);
      assert r in raw;
    }
    PrintedParses(rules, sel);
    forall again | ParsesTo(rules, SelectorString(sel), again)
      ensures forall labels :: SelectorMatches(rules, again, labels) == SelectorMatches(rules, sel, labels)
    {
      forall labels ensures SelectorMatches(rules, again, labels) == SelectorMatches(rules, sel, labels) {
        SameRequirementsMatchAlike(rules, again, sel, labels);
      }
    }
  }
}
