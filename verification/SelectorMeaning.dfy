/** What a label selector means for labels, told from its text and by the laws between its operators. */
module SelectorMeaning {
  import opened Options
  import opened Text
  import opened LabelLexer
  import opened Selectors
  import opened LabelParser
  import opened SelectorTexts

  /** The characters of keys and values: all but the symbols, the four kinds of space and NUL. */
  lemma LiteralIff(s: string)
    ensures Literal(s) <==> s != "" && forall c <- s :: c !in "=!(),<>" && c !in " \t\r\n" && c != '\0'
  {
  }

  /** A NUL byte ends the text where a word could start, and is swallowed where it ends one. */
  lemma NulBytes(w: string, rest: string)
    requires Literal(w)
    ensures Scan(['\0'] + rest) == [END]
    ensures Scan(w + (['\0'] + rest)) == [Word(w)] + Scan(rest)
    ensures Scan("," + (['\0'] + rest)) == [COMMA] + Scan(rest)
  {
    var after := ['\0'] + rest;
    assert after[1..] == rest;
    assert w[0] in w;
    SpanOfWord(w, after);
    WordBeforeNul(w, after);
    assert ("," + after)[..1] == "," && ("," + after)[1..] == after;
    assert |("," + after)| >= 2 ==> ("," + after)[..2] == [',', '\0'];
  }

  lemma WordBeforeNul(w: string, after: string)
    requires Literal(w) && after != "" && after[0] == '\0' && Span(w + after) == |w|
    ensures Scan(w + after) == [Word(w)] + Scan(after[1..])
  {
    var t := w + after;
    assert t[0] == w[0] && w[0] in w;
    assert t[..|w|] == w && t[|w|..] == after;
    assert SkipSpaces(t) == t;
    WordTokenIsNoEnd(w);
  }

  /** Sets are printed in order, whatever the order of their values. */
  lemma SetsArePrintedInOrder(key: string, values: seq<string>)
    requires values != []
    ensures exists sorted ::
              && Sorted(sorted) && multiset(sorted) == multiset(values)
              && RequirementString(Requirement(key, In, values)) == key + " in (" + Join(sorted, ",") + ")"
              && RequirementString(Requirement(key, NotIn, values)) == key + " notin (" + Join(sorted, ",") + ")"
  {
    SortStringsSorts(values);
    var sorted := SafeSort(values);
    if |values| == 1 {
      assert Sorted(values) && Join(values, ",") == values[0];
    }
    SpacedText(key, Join(sorted, ","));
    hide Join, Sorted, SortStrings;
    assert ValuesText(Requirement(key, In, values)) == Join(sorted, ",");
    assert ValuesText(Requirement(key, NotIn, values)) == Join(sorted, ",");
  }

  lemma SpacedText(key: string, list: string)
    ensures key + OperatorText(In) + "(" + list + ")" == key + " in (" + list + ")"
    ensures key + OperatorText(NotIn) + "(" + list + ")" == key + " notin (" + list + ")"
  {
    assert " in " + "(" == " in (" && " notin " + "(" == " notin (";
  }

  // ----- laws between the operators -----

  lemma ComplementsAreComplements(rules: Rules, key: string, values: seq<string>, labels: Labels)
    ensures Matches(rules, Requirement(key, NotIn, values), labels)
            <==> !Matches(rules, Requirement(key, In, values), labels)
    ensures Matches(rules, Requirement(key, NotEquals, values), labels)
            <==> !Matches(rules, Requirement(key, Equals, values), labels)
    ensures Matches(rules, Requirement(key, DoesNotExist, values), labels)
            <==> !Matches(rules, Requirement(key, Exists, values), labels)
  {
  }

  lemma EqualSpellingsAgree(rules: Rules, key: string, pattern: string, labels: Labels)
    requires rules.compiles(pattern)
    ensures Matches(rules, Requirement(key, Equals, [pattern]), labels)
            <==> key in labels && rules.globMatches(pattern, labels[key])
    ensures Matches(rules, Requirement(key, DoubleEquals, [pattern]), labels)
            <==> key in labels && rules.globMatches(pattern, labels[key])
  {
  }

  lemma SetsAreUnions(rules: Rules, key: string, values: seq<string>, labels: Labels)
    ensures Matches(rules, Requirement(key, In, values), labels)
            <==> exists v <- values :: Matches(rules, Requirement(key, In, [v]), labels)
    ensures forall v :: Matches(rules, Requirement(key, In, [v]), labels) <==> key in labels && labels[key] == v
    ensures Matches(rules, Requirement(key, Exists, []), labels)
            <==> exists v :: Matches(rules, Requirement(key, In, [v]), labels)
  {
    forall v ensures Matches(rules, Requirement(key, In, [v]), labels) <==> key in labels && labels[key] == v {
    }
    if key in labels {
      assert Matches(rules, Requirement(key, In, [labels[key]]), labels);
    }
  }

  /** Orders need an integer label; then exactly one of greater, less and equal holds. */
  lemma OrdersAreTotal(rules: Rules, key: string, bound: string, labels: Labels)
    requires rules.parseInt(bound).Some?
    ensures var greater := Matches(rules, Requirement(key, GreaterThan, [bound]), labels);
            var less := Matches(rules, Requirement(key, LessThan, [bound]), labels);
            && !(greater && less)
            && (greater || less ==> key in labels && rules.parseInt(labels[key]).Some?)
            && (key in labels && rules.parseInt(labels[key]).Some? ==>
                  (!greater && !less <==> rules.parseInt(labels[key]) == rules.parseInt(bound)))
            && (greater ==> rules.parseInt(labels[key]).value > rules.parseInt(bound).value)
  {
  }

  // ----- from the text to the labels -----

  /** What a written requirement asks of labels. */
  predicate Satisfied(rules: Rules, w: Requirement, labels: Labels)
    requires WellWritten(w) && Accepts(rules, w)
  {
    var has := w.key in labels;
    match w.operator
    case Exists => has
    case DoesNotExist => !has
    case In => has && labels[w.key] in w.values
    case NotIn => !(has && labels[w.key] in w.values)
    case Equals => has && rules.globMatches(w.values[0], labels[w.key])
    case DoubleEquals => has && rules.globMatches(w.values[0], labels[w.key])
    case NotEquals => !(has && rules.globMatches(w.values[0], labels[w.key]))
    case GreaterThan =>
      var bound := rules.parseInt(w.values[0]).value;
      has && rules.parseInt(labels[w.key]).Some? && rules.parseInt(labels[w.key]).value > bound
    case LessThan =>
      var bound := rules.parseInt(w.values[0]).value;
      has && rules.parseInt(labels[w.key]).Some? && rules.parseInt(labels[w.key]).value < bound
  }

  lemma MeantMatches(rules: Rules, w: Requirement, labels: Labels)
    requires WellWritten(w) && Accepts(rules, w)
    ensures Matches(rules, Meant(w), labels) <==> Satisfied(rules, w, labels)
  {
    hide InOrder, Closes, Literal;
  }

  /** A text of accepted requirements matches labels if and only if each requirement, as it is written, is satisfied. */
  lemma TextMatchesIff(rules: Rules, ws: seq<Requirement>, labels: Labels)
    requires forall w <- ws :: WellWritten(w) && Accepts(rules, w)
    ensures var sel := ParseText(rules, Join(AllWritten(ws), ","));
            sel.Some? && (SelectorMatches(rules, sel.value, labels) <==> forall w <- ws :: Satisfied(rules, w, labels))
  {
    hide WellWritten, Accepts, Meant, Written, ParseText, Matches, Satisfied;
    WrittenParsesIff(rules, ws);
    forall w | w in ws ensures Matches(rules, Meant(w), labels) <==> Satisfied(rules, w, labels) {
      MeantMatches(rules, w, labels);
    }
    var sel := AllMeant(ws);
    assert forall i | 0 <= i < |ws| :: sel[i] == Meant(ws[i]) && sel[i] in sel && ws[i] in ws;
  }

  /** A list that ends in two commas is refused, though empty values are allowed, one comma gives one, and three do. */
  lemma TwoCommasAtTheEndAreRefused(rules: Rules, key: string, v: string)
    requires Literal(key) && Literal(v)
    ensures ParseText(rules, key + " in (" + (v + "," + ("" + "," + "")) + ")") == None
    ensures rules.validKey(key) && rules.validValue(v) && rules.validValue("") ==>
              ParseText(rules, key + " in (" + (v + "," + "") + ")").Some?
  {
    hide ParseText, Literal, InOrder;
    var one, two := Requirement(key, In, [v, ""]), Requirement(key, In, [v, "", ""]);
    assert Literal(v) ==> v != "" by {
      EmptyIsNoLiteral();
    }
    assert Join([""], ",") == "" && Join(["", ""], ",") == "" + "," + "";
    assert [v, "", ""][1..] == ["", ""] && ["", ""][1..] == [""] && [v, ""][1..] == [""];
    assert [v, "", ""][..2] == [v, ""] && [v, ""][..1] == [v];
    assert CommasAtEnd([v, ""]) == 1 && CommasAtEnd([v, "", ""]) == 2;
    OneParsesIff(rules, one);
    OneParsesIff(rules, two);
  }

  lemma EmptyIsNoLiteral()
    ensures !Literal("")
  {
  }

  // ----- the nine forms -----

  /** The requirement that a text of one requirement gives. */
  function Only(r: Requirement): Option<seq<Requirement>> {
    Some([r])
  }

  /** The nine operators on one key and one value: when each text is a selector, and which. */
  lemma NineForms(rules: Rules, key: string, v: string)
    requires Literal(key) && Literal(v)
    ensures ParseText(rules, key) == if rules.validKey(key) then Only(Requirement(key, Exists, [])) else None
    ensures ParseText(rules, "!" + key) ==
            if rules.validKey(key) then Only(Requirement(key, DoesNotExist, [])) else None
    ensures ParseText(rules, key + " in (" + v + ")") ==
            if rules.validKey(key) && rules.validValue(v) then Only(Requirement(key, In, [v])) else None
    ensures ParseText(rules, key + " notin (" + v + ")") ==
            if rules.validKey(key) && rules.validValue(v) then Only(Requirement(key, NotIn, [v])) else None
    ensures ParseText(rules, key + "=" + v) ==
            if rules.validKey(key) && rules.compiles(v) then Only(Requirement(key, Equals, [v])) else None
    ensures ParseText(rules, key + "==" + v) ==
            if rules.validKey(key) && rules.compiles(v) then Only(Requirement(key, DoubleEquals, [v])) else None
    ensures ParseText(rules, key + "!=" + v) ==
            if rules.validKey(key) && rules.compiles(v) then Only(Requirement(key, NotEquals, [v])) else None
    ensures ParseText(rules, key + ">" + v) ==
            if rules.validKey(key) && rules.parseInt(v).Some? && rules.validValue(v)
            then Only(Requirement(key, GreaterThan, [v])) else None
    ensures ParseText(rules, key + "<" + v) ==
            if rules.validKey(key) && rules.parseInt(v).Some? && rules.validValue(v)
            then Only(Requirement(key, LessThan, [v])) else None
  {
    hide ParseText, Literal, InOrder;
    OneParses(rules, Requirement(key, Exists, []));
    OneParses(rules, Requirement(key, DoesNotExist, []));
    OneParses(rules, Requirement(key, In, [v]));
    OneParses(rules, Requirement(key, NotIn, [v]));
    OneParses(rules, Requirement(key, Equals, [v]));
    OneParses(rules, Requirement(key, DoubleEquals, [v]));
    OneParses(rules, Requirement(key, NotEquals, [v]));
    OneParses(rules, Requirement(key, GreaterThan, [v]));
    OneParses(rules, Requirement(key, LessThan, [v]));
  }

  lemma OneParses(rules: Rules, w: Requirement)
    requires WellWritten(w) && |w.values| <= 1
    ensures ParseText(rules, Written(w)) == if Accepts(rules, w) then Only(w) else None
  {
    hide ParseText, Literal, InOrder;
    OneParsesIff(rules, w);
    if |w.values| == 1 {
      assert w.values == [w.values[0]];
      StrictlySortedIsUnique(w.values, SetOf(w.values));
    }
  }
}
