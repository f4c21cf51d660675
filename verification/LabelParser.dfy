/** The recursive-descent parser of pkg/labels/selector.go. */
module LabelParser {
  import opened Options
  import opened Text
  import opened LabelLexer
  import opened Selectors

  /** In the Values context, `in` and `notin` are identifiers. */
  datatype Context = KeyAndOperator | Values

  /** A parsed value and the items that are left; the texts of errors are not modelled. */
  datatype Parsed<+T> = Ok(value: T, rest: seq<ScannedItem>) | Err

  function InContext(tok: Token, context: Context): Token {
    if context == Values && (tok == InToken || tok == NotInToken) then IdentifierToken else tok
  }

  /** The token in front, read in a context. */
  function Front(items: seq<ScannedItem>, context: Context): Token
    requires items != []
  {
    InContext(items[0].tok, context)
  }

  // ----- the specification, on the items that are left -----

  function ParseIdentifiersList(items: seq<ScannedItem>, s: seq<string>): (r: Parsed<seq<string>>)
    requires Terminated(items)
    ensures r.Ok? ==> Terminated(r.rest) && Front(r.rest, Values) == ClosedParToken && |r.rest| < |items|
  {
    var tok := Front(items, Values);
    if tok == IdentifierToken then
      var added := Insert(s, items[0].literal);
      var next := Front(items[1..], Values);
      if next == CommaToken then ParseIdentifiersList(items[1..], added)
      else if next == ClosedParToken then Ok(added, items[1..])
      else Err
    else if tok == CommaToken then
      var started := if s == [] then Insert(s, "") else s;
      var next := Front(items[1..], Values);
      if next == ClosedParToken then Ok(Insert(started, ""), items[1..])
      else if next == CommaToken then ParseIdentifiersList(items[2..], Insert(started, ""))
      else ParseIdentifiersList(items[1..], started)
    else Err
  }

  function ParseValues(items: seq<ScannedItem>): (r: Parsed<seq<string>>)
    requires Terminated(items)
    ensures r.Ok? ==> Terminated(r.rest) && |r.rest| < |items|
  {
    if Front(items, Values) != OpenParToken then Err
    else
      var next := Front(items[1..], Values);
      if next == IdentifierToken || next == CommaToken then
        var list := ParseIdentifiersList(items[1..], []);
        if list.Err? then Err else Ok(list.value, list.rest[1..])
      else if next == ClosedParToken then Ok([""], items[2..])
      else Err
  }

  function ParseExactValue(items: seq<ScannedItem>): (r: Parsed<seq<string>>)
    requires Terminated(items)
    ensures r.Ok? ==> Terminated(r.rest) && |r.rest| <= |items|
  {
    match Front(items, Values)
    case EndOfStringToken => Ok([""], items)
    case CommaToken => Ok([""], items)
    case IdentifierToken => Ok([items[0].literal], items[1..])
    case _ => Err
  }

  function ParseOperator(items: seq<ScannedItem>): (r: Parsed<Operator>)
    requires Terminated(items)
    ensures r.Ok? ==> Terminated(r.rest) && |r.rest| < |items|
  {
    match Front(items, KeyAndOperator)
    case InToken => Ok(In, items[1..])
    case EqualsToken => Ok(Equals, items[1..])
    case DoubleEqualsToken => Ok(DoubleEquals, items[1..])
    case GreaterThanToken => Ok(GreaterThan, items[1..])
    case LessThanToken => Ok(LessThan, items[1..])
    case NotInToken => Ok(NotIn, items[1..])
    case NotEqualsToken => Ok(NotEquals, items[1..])
    case _ => Err
  }

  /** The key, and the operator when it needs no token of its own. */
  function ParseKeyAndInferOperator(rules: Rules, items: seq<ScannedItem>): (r: Parsed<(string, Option<Operator>)>)
    requires Terminated(items)
    ensures r.Ok? ==> Terminated(r.rest) && |r.rest| < |items|
  {
    var negated := Front(items, Values) == DoesNotExistToken;
    var keyed := if negated then items[1..] else items;
    if Front(keyed, Values) != IdentifierToken || !rules.validKey(keyed[0].literal) then Err
    else
      var next := Front(keyed[1..], Values);
      var operator :=
        if negated then Some(DoesNotExist)
        else if next == EndOfStringToken || next == CommaToken then Some(Exists)
        else None;
      Ok((keyed[0].literal, operator), keyed[1..])
  }

  function ParseRequirement(rules: Rules, items: seq<ScannedItem>): (r: Parsed<Requirement>)
    requires Terminated(items)
    ensures r.Ok? ==> Terminated(r.rest) && |r.rest| < |items|
  {
    var key := ParseKeyAndInferOperator(rules, items);
    if key.Err? then Err
    else if key.value.1.Some? then Built(rules, key.value.0, key.value.1.value, Ok([], key.rest))
    else ParseRestriction(rules, key.value.0, key.rest)
  }

  /** The operator and the values of a requirement on a key. */
  function ParseRestriction(rules: Rules, key: string, items: seq<ScannedItem>): (r: Parsed<Requirement>)
    requires Terminated(items)
    ensures r.Ok? ==> Terminated(r.rest) && |r.rest| < |items|
  {
    var operator := ParseOperator(items);
    if operator.Err? then Err
    else
      Built(rules, key, operator.value, ParseOperands(operator.value, operator.rest))
  }

  function ParseOperands(op: Operator, items: seq<ScannedItem>): (r: Parsed<seq<string>>)
    requires Terminated(items)
    ensures r.Ok? ==> Terminated(r.rest) && |r.rest| <= |items|
  {
    if IsSetOperator(op) then ParseValues(items) else ParseExactValue(items)
  }

  function Built(rules: Rules, key: string, op: Operator, values: Parsed<seq<string>>): Parsed<Requirement> {
    if values.Err? then Err
    else
      var r := NewRequirement(rules, key, op, values.value);
      if r.None? then Err else Ok(r.value, values.rest)
  }

  predicate StartsRequirement(tok: Token) {
    tok == IdentifierToken || tok == DoesNotExistToken
  }

  /** The loop of parse: requirements in the order of the text. */
  function ParseItems(rules: Rules, items: seq<ScannedItem>, done: seq<Requirement>): Option<seq<Requirement>>
    requires Terminated(items)
    decreases |items|
  {
    if Front(items, Values) == EndOfStringToken then Some(done)
    else if !StartsRequirement(Front(items, Values)) then None
    else
      var r := ParseRequirement(rules, items);
      if r.Err? then None
      else
        match Front(r.rest, Values)
        case EndOfStringToken => Some(done + [r.value])
        case CommaToken =>
          if StartsRequirement(Front(r.rest[1..], Values))
          then ParseItems(rules, r.rest[1..], done + [r.value])
          else None
        case _ => None
  }

  /** After a requirement and a comma the loop goes on with what is left. */
  lemma ParseItemsGoesOn(rules: Rules, items: seq<ScannedItem>, done: seq<Requirement>)
    requires Terminated(items) && StartsRequirement(Front(items, Values))
    requires var r := ParseRequirement(rules, items);
             r.Ok? && Front(r.rest, Values) == CommaToken && StartsRequirement(Front(r.rest[1..], Values))
    ensures var r := ParseRequirement(rules, items);
            ParseItems(rules, items, done) == ParseItems(rules, r.rest[1..], done + [r.value])
  {
  }

  function ParseText(rules: Rules, text: string): Option<seq<Requirement>> {
    ScanTerminates(text);
    ParseItems(rules, Scan(text), [])
  }

  /** Parse may return this selector for this text. */
  predicate ParsesTo(rules: Rules, text: string, sel: seq<Requirement>) {
    ParseText(rules, text).Some? && KeySortedPermutation(ParseText(rules, text).value, sel)
  }

  // ----- the parser object -----

  class Parser {
    const l: Lexer
    const rules: Rules
    var scannedItems: seq<ScannedItem>
    var position: nat

    constructor (rules: Rules, text: string)
      ensures this.rules == rules && scannedItems == [] && position == 0
      ensures fresh(l) && l.Valid() && l.s == text && l.pos == 0
    {
      this.rules := rules;
      l := new Lexer(text);
      scannedItems := [];
      position := 0;
    }

    /** The position never runs past the end of the items. */
    predicate Valid()
      reads this
    {
      position < |scannedItems| && Terminated(scannedItems)
    }

    function Left(): (items: seq<ScannedItem>)
      requires Valid()
      reads this
      ensures Terminated(items)
    {
      scannedItems[position..]
    }

    /** A method read what the specification parses, and left what it leaves. */
    ghost predicate Agrees<T>(read: Option<T>, parsed: Parsed<T>)
      reads this
    {
      && read.Some? == parsed.Ok?
      && (parsed.Ok? ==> Valid() && read.value == parsed.value && Left() == parsed.rest)
    }

    /** The lexer is about to produce these items. */
    ghost predicate Produces(items: seq<ScannedItem>)
      reads l
    {
      l.Valid() && items == Scan(l.s[l.pos..])
    }

    /** One item of the scan loop. */
    method ScanItem(ghost items: seq<ScannedItem>) returns (item: ScannedItem, ghost rest: seq<ScannedItem>)
      requires Produces(items)
      modifies l
      ensures items == [item] + rest
      ensures if item.tok == EndOfStringToken then rest == [] else Produces(rest) && l.pos > old(l.pos)
      ensures l.Valid()
    {
      ScanUnfolds(l.s[l.pos..]);
      var token, literal := l.Lex();
      item := ScannedItem(token, literal);
      rest := if token == EndOfStringToken then [] else Scan(l.s[l.pos..]);
    }

    method ScanAll()
      requires scannedItems == [] && position == 0 && l.Valid() && l.pos == 0
      modifies this`scannedItems, l
      ensures Valid() && Left() == Scan(l.s)
    {
      ghost var all, rest := Scan(l.s), Scan(l.s);
      assert l.s[0..] == l.s;
      var more := true;
      while more
        invariant all == scannedItems + rest
        invariant if more then Produces(rest) else rest == []
        decreases more, |l.s| - l.pos
      {
        var item;
        item, rest := ScanItem(rest);
        scannedItems := scannedItems + [item];
        more := item.tok != EndOfStringToken;
      }
      assert scannedItems == all;
      assert Terminated(all) by {
        ScanTerminates(l.s);
      }
    }

    method Lookahead(context: Context) returns (tok: Token, lit: string)
      requires Valid()
      ensures tok == Front(Left(), context) && lit == Left()[0].literal
    {
      tok, lit := scannedItems[position].tok, scannedItems[position].literal;
      if context == Values {
        if tok == InToken || tok == NotInToken {
          tok := IdentifierToken;
        }
      }
    }

    /** Consuming the end of the string leaves nothing to look at: the callers stop there. */
    method Consume(context: Context) returns (tok: Token, lit: string)
      requires Valid()
      modifies this`position
      ensures tok == Front(old(Left()), context) && lit == old(Left())[0].literal
      ensures position == old(position) + 1
      ensures tok != EndOfStringToken ==> Valid() && Left() == old(Left())[1..]
    {
      position := position + 1;
      tok, lit := scannedItems[position - 1].tok, scannedItems[position - 1].literal;
      if context == Values {
        if tok == InToken || tok == NotInToken {
          tok := IdentifierToken;
        }
      }
    }

    method ReadIdentifiersList() returns (values: Option<seq<string>>)
      requires Valid()
      modifies this`position
      ensures Agrees(values, ParseIdentifiersList(old(Left()), []))
    {
      var s: seq<string> := [];
      ghost var all := ParseIdentifiersList(Left(), []);
      while true
        invariant Valid() && ParseIdentifiersList(Left(), s) == all
        decreases |scannedItems| - position
      {
        var tok, lit := Consume(Values);
        match tok
        case IdentifierToken =>
          s := Insert(s, lit);
          var tok2, lit2 := Lookahead(Values);
          match tok2 {
            case CommaToken => continue;
            case ClosedParToken => return Some(s);
            case _ => return None;
          }
        case CommaToken =>
          if |s| == 0 {
            s := Insert(s, "");
          }
          var tok2, _ := Lookahead(Values);
          if tok2 == ClosedParToken {
            s := Insert(s, "");
            return Some(s);
          }
          if tok2 == CommaToken {
            var _, _ := Consume(Values);
            s := Insert(s, "");
          }
        case _ => return None;
      }
    }

    method ReadValues() returns (values: Option<seq<string>>)
      requires Valid()
      modifies this`position
      ensures Agrees(values, ParseValues(old(Left())))
    {
      ghost var items := Left();
      var tok, lit := Consume(Values);
      if tok != OpenParToken {
        return None;
      }
      tok, lit := Lookahead(Values);
      match tok
      case IdentifierToken | CommaToken =>
        values := ReadIdentifiersList();
        ghost var list := ParseIdentifiersList(items[1..], []);
        assert ParseValues(items) == if list.Err? then Err else Ok(list.value, list.rest[1..]);
        if values.None? {
          return None;
        }
        tok, lit := Consume(Values);
        if tok != ClosedParToken {
          return None;
        }
      case ClosedParToken =>
        var _, _ := Consume(Values);
        assert Left() == items[2..];
        return Some([""]);
      case _ => return None;
    }

    method ReadExactValue() returns (values: Option<seq<string>>)
      requires Valid()
      modifies this`position
      ensures Agrees(values, ParseExactValue(old(Left())))
    {
      var tok, lit := Lookahead(Values);
      if tok == EndOfStringToken || tok == CommaToken {
        return Some([""]);
      }
      tok, lit := Consume(Values);
      if tok == IdentifierToken {
        return Some([lit]);
      }
      return None;
    }

    method ReadOperator() returns (op: Option<Operator>)
      requires Valid()
      modifies this`position
      ensures Agrees(op, ParseOperator(old(Left())))
    {
      var tok, lit := Consume(KeyAndOperator);
      match tok
      case InToken => op := Some(In);
      case EqualsToken => op := Some(Equals);
      case DoubleEqualsToken => op := Some(DoubleEquals);
      case GreaterThanToken => op := Some(GreaterThan);
      case LessThanToken => op := Some(LessThan);
      case NotInToken => op := Some(NotIn);
      case NotEqualsToken => op := Some(NotEquals);
      case _ => op := None;
    }

    method ReadKeyAndInferOperator() returns (key: Option<(string, Option<Operator>)>)
      requires Valid()
      modifies this`position
      ensures Agrees(key, ParseKeyAndInferOperator(rules, old(Left())))
    {
      var operator: Option<Operator> := None;
      var tok, literal := Consume(Values);
      if tok == DoesNotExistToken {
        operator := Some(DoesNotExist);
        tok, literal := Consume(Values);
      }
      if tok != IdentifierToken {
        return None;
      }
      if !rules.validKey(literal) {
        return None;
      }
      var t, _ := Lookahead(Values);
      if t == EndOfStringToken || t == CommaToken {
        if operator != Some(DoesNotExist) {
          operator := Some(Exists);
        }
      }
      return Some((literal, operator));
    }

    method ReadOperands(op: Operator) returns (values: Option<seq<string>>)
      requires Valid()
      modifies this`position
      ensures Agrees(values, ParseOperands(op, old(Left())))
    {
      if IsSetOperator(op) {
        values := ReadValues();
      } else {
        values := ReadExactValue();
      }
    }

    method ReadRestriction(key: string) returns (r: Option<Requirement>)
      requires Valid()
      modifies this`position
      ensures Agrees(r, ParseRestriction(rules, key, old(Left())))
    {
      var operator := ReadOperator();
      if operator.None? {
        return None;
      }
      var values := ReadOperands(operator.value);
      if values.None? {
        return None;
      }
      return NewRequirement(rules, key, operator.value, values.value);
    }

    method ReadRequirement() returns (r: Option<Requirement>)
      requires Valid()
      modifies this`position
      ensures Agrees(r, ParseRequirement(rules, old(Left())))
    {
      var key := ReadKeyAndInferOperator();
      if key.None? {
        return None;
      }
      var operator := key.value.1;
      if operator == Some(Exists) || operator == Some(DoesNotExist) {
        return NewRequirement(rules, key.value.0, operator.value, []);
      }
      r := ReadRestriction(key.value.0);
    }

    method ParseAll() returns (requirements: Option<seq<Requirement>>)
      requires scannedItems == [] && position == 0 && l.Valid() && l.pos == 0
      modifies this, l
      ensures requirements == ParseText(rules, l.s)
    {
      ScanAll();
      var done: seq<Requirement> := [];
      while true
        invariant Valid() && ParseItems(rules, Left(), done) == ParseText(rules, l.s)
        decreases |scannedItems| - position
      {
        ghost var items := Left();
        var tok, _ := Lookahead(Values);
        match tok
        case IdentifierToken | DoesNotExistToken =>
          var r := ReadRequirement();
          if r.None? {
            return None;
          }
          var t, _ := Consume(Values);
          match t {
            case EndOfStringToken => return Some(done + [r.value]);
            case CommaToken =>
              var t2, _ := Lookahead(Values);
              if t2 != IdentifierToken && t2 != DoesNotExistToken {
                return None;
              }
              ParseItemsGoesOn(rules, items, done);
              done := done + [r.value];
            case _ => return None;
          }
        case EndOfStringToken => return Some(done);
        case _ => return None;
      }
    }
  }

  /** sort.Sort: the contract promises a key-sorted permutation and no more. */
  method SortByKey(raw: seq<Requirement>) returns (sel: seq<Requirement>)
    ensures KeySortedPermutation(raw, sel)
  {
    sel := [];
    for i := 0 to |raw|
      invariant KeySortedPermutation(raw[..i], sel)
    {
      sel := InsertByKey(sel, raw[i]);
      assert raw[..i + 1] == raw[..i] + [raw[i]];
    }
    assert raw[..|raw|] == raw;
  }

  method InsertByKey(sel: seq<Requirement>, r: Requirement) returns (longer: seq<Requirement>)
    requires KeySorted(sel)
    ensures KeySortedPermutation(sel + [r], longer)
  {
    var i: nat := |sel|;
    while i > 0 && Less(r.key, sel[i - 1].key)
      invariant 0 <= i <= |sel|
      invariant forall j | i <= j < |sel| :: Less(r.key, sel[j].key)
    {
      i := i - 1;
    }
    longer := sel[..i] + [r] + sel[i..];
    assert sel + [r] == sel[..i] + sel[i..] + [r];
    InsertionKeepsKeys(sel, r, i);
  }

  lemma InsertionKeepsKeys(sel: seq<Requirement>, r: Requirement, i: nat)
    requires KeySorted(sel) && i <= |sel|
    requires i > 0 ==> !Less(r.key, sel[i - 1].key)
    requires forall j | i <= j < |sel| :: Less(r.key, sel[j].key)
    ensures KeySorted(sel[..i] + [r] + sel[i..])
  {
    forall j | 0 <= j < i ensures !Less(r.key, sel[j].key) {
      if j < i - 1 && Less(r.key, sel[j].key) {
        LessIsTotal(sel[j].key, sel[i - 1].key);
        if Less(sel[j].key, sel[i - 1].key) {
          LessIsTransitive(r.key, sel[j].key, sel[i - 1].key);
        }
      }
    }
    forall j | i <= j < |sel| ensures !Less(sel[j].key, r.key) {
      LessIsTotal(r.key, sel[j].key);
    }
    var longer := sel[..i] + [r] + sel[i..];
    forall a, b | 0 <= a < b < |longer| ensures !Less(longer[b].key, longer[a].key) {
      var x, y := if a > i then a - 1 else a, if b > i then b - 1 else b;
      assert a != i ==> longer[a] == sel[x];
      assert b != i ==> longer[b] == sel[y];
    }
  }

  /** Parse: None is an error. */
  method Parse(rules: Rules, text: string) returns (sel: Option<seq<Requirement>>)
    ensures sel.Some? == ParseText(rules, text).Some?
    ensures sel.Some? ==> ParsesTo(rules, text, sel.value)
  {
    var p := new Parser(rules, text);
    var items := p.ParseAll();
    if items.None? {
      return None;
    }
    var sorted := SortByKey(items.value);
    return Some(sorted);
  }
}
