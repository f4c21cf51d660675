/** The lexer of pkg/labels/selector.go. */
module LabelLexer {

  datatype Token =
    | ErrorToken
    | EndOfStringToken
    | ClosedParToken
    | CommaToken
    | DoesNotExistToken
    | DoubleEqualsToken
    | EqualsToken
    | GreaterThanToken
    | IdentifierToken
    | InToken
    | LessThanToken
    | NotEqualsToken
    | NotInToken
    | OpenParToken

  datatype ScannedItem = ScannedItem(tok: Token, literal: string)

  /** What one Lex call takes from a text, and what it leaves. */
  datatype Lexeme = Lexeme(tok: Token, literal: string, rest: string)

  const NUL := '\0'

  /** string2token: the token of a fixed spelling, or IdentifierToken for any other word. */
  function WordToken(word: string): Token {
    if |word| == 1 then SymbolToken(word[0])
    else if |word| == 2 then
      if word[1] == '=' && word[0] == '=' then DoubleEqualsToken
      else if word[1] == '=' && word[0] == '!' then NotEqualsToken
      else if word[0] == 'i' && word[1] == 'n' then InToken
      else IdentifierToken
    else if word == "notin" then NotInToken
    else IdentifierToken
  }

  function SymbolToken(c: char): Token {
    match c
    case ')' => ClosedParToken
    case ',' => CommaToken
    case '!' => DoesNotExistToken
    case '=' => EqualsToken
    case '>' => GreaterThanToken
    case '<' => LessThanToken
    case '(' => OpenParToken
    case _ => IdentifierToken
  }

  predicate IsWhitespace(ch: char) {
    ch == ' ' || ch == '\t' || ch == '\r' || ch == '\n'
  }

  predicate IsSpecialSymbol(ch: char) {
    ch == '=' || ch == '!' || ch == '(' || ch == ')' || ch == ',' || ch == '>' || ch == '<'
  }

  /** The characters of identifiers and keywords. */
  predicate IsPlain(ch: char) {
    ch != NUL && !IsSpecialSymbol(ch) && !IsWhitespace(ch)
  }

  // ----- the specification, on the text that is left -----

  function SkipSpaces(t: string): (u: string)
    ensures |u| <= |t|
    ensures u != "" ==> !IsWhitespace(u[0])
  {
    if t != "" && IsWhitespace(t[0]) then SkipSpaces(t[1..]) else t
  }

  /** The length of the longest plain prefix. */
  function Span(t: string): (n: nat)
    ensures n <= |t|
    ensures forall i | 0 <= i < n :: IsPlain(t[i])
    ensures n < |t| ==> !IsPlain(t[n])
  {
    if t != "" && IsPlain(t[0]) then 1 + Span(t[1..]) else 0
  }

  /** A NUL byte that stops a token is consumed with it. */
  function AfterNul(t: string): string {
    if t != "" && t[0] == NUL then t[1..] else t
  }

  function SymbolLength(t: string): nat
    requires t != ""
  {
    if |t| >= 2 && (t[..2] == "==" || t[..2] == "!=") then 2 else 1
  }

  function Lexed(t: string): Lexeme {
    var u := SkipSpaces(t);
    if u == "" then Lexeme(EndOfStringToken, "", "")
    else if u[0] == NUL then Lexeme(EndOfStringToken, "", u[1..])
    else if IsSpecialSymbol(u[0]) then
      var n := SymbolLength(u);
      Lexeme(WordToken(u[..n]), u[..n], AfterNul(u[n..]))
    else
      var n := Span(u);
      Lexeme(WordToken(u[..n]), u[..n], AfterNul(u[n..]))
  }

  /** Every Lex call strictly advances or ends the input, and none fails. */
  lemma LexAdvances(t: string)
    ensures Lexed(t).tok != ErrorToken
    ensures Lexed(t).tok == EndOfStringToken || |Lexed(t).rest| < |t|
    ensures Lexed(t).tok == EndOfStringToken ==> Lexed(t).literal == ""
  {
    var u := SkipSpaces(t);
    if u != "" && u[0] != NUL {
      if IsSpecialSymbol(u[0]) {
        assert WordToken(u[..1]) != IdentifierToken;
      } else {
        assert IsPlain(u[0]);
      }
    }
  }

  /** All the items of a text, in order. */
  function Scan(t: string): seq<ScannedItem>
    decreases |t|
  {
    var x := Lexed(t);
    LexAdvances(t);
    if x.tok == EndOfStringToken then [ScannedItem(EndOfStringToken, "")]
    else [ScannedItem(x.tok, x.literal)] + Scan(x.rest)
  }

  lemma ScanUnfolds(t: string)
    ensures var x := Lexed(t);
            Scan(t) == [ScannedItem(x.tok, x.literal)] + if x.tok == EndOfStringToken then [] else Scan(x.rest)
  {
  }

  /** The end of the input is there, once, and last. */
  predicate Terminated(items: seq<ScannedItem>) {
    && items != []
    && items[|items| - 1].tok == EndOfStringToken
    && (forall i | 0 <= i < |items| - 1 :: items[i].tok != EndOfStringToken)
  }

  predicate Literal(s: string) {
    s != "" && forall c <- s :: IsPlain(c)
  }

  /** An item that can stand for a key or a value carries a plain literal and the token of that literal. */
  predicate WellLexed(item: ScannedItem) {
    && item.tok != ErrorToken
    && (item.tok == IdentifierToken || item.tok == InToken || item.tok == NotInToken ==>
          Literal(item.literal) && item.tok == WordToken(item.literal))
  }

  lemma {:induction false} ScanTerminates(t: string)
    ensures Terminated(Scan(t))
    ensures forall item <- Scan(t) :: WellLexed(item)
    decreases |t|
  {
    var x := Lexed(t);
    LexAdvances(t);
    if x.tok != EndOfStringToken {
      ScanTerminates(x.rest);
      LexedWell(t);
    }
  }

  lemma LexedWell(t: string)
    ensures Lexed(t).tok != EndOfStringToken ==> WellLexed(ScannedItem(Lexed(t).tok, Lexed(t).literal))
  {
    var u := SkipSpaces(t);
    LexAdvances(t);
    if u != "" && u[0] != NUL {
      if IsSpecialSymbol(u[0]) {
        var n := SymbolLength(u);
        assert u[..n] == if n == 2 then [u[0], u[1]] else [u[0]];
      } else {
        assert IsPlain(u[0]);
      }
    }
  }

  // ----- the lexer object -----

  class Lexer {
    const s: string
    var pos: nat

    predicate Valid()
      reads this
    {
      pos <= |s|
    }

    constructor (s: string)
      ensures this.s == s && pos == 0 && Valid()
    {
      this.s := s;
      pos := 0;
    }

    method Read() returns (b: char)
      requires Valid()
      modifies this
      ensures Valid()
      ensures old(pos) < |s| ==> b == s[old(pos)] && pos == old(pos) + 1
      ensures old(pos) == |s| ==> b == NUL && pos == old(pos)
    {
      b := NUL;
      if pos < |s| {
        b := s[pos];
        pos := pos + 1;
      }
    }

    method Unread()
      requires Valid() && pos > 0
      modifies this
      ensures Valid() && pos == old(pos) - 1
    {
      pos := pos - 1;
    }

    method ScanIdOrKeyword() returns (tok: Token, lit: string)
      requires Valid()
      modifies this
      ensures Valid()
      ensures var t := s[old(pos)..];
              var n := Span(t);
              tok == WordToken(lit) && lit == t[..n] && s[pos..] == AfterNul(t[n..])
    {
      var buffer: string := "";
      ghost var start, t := pos, s[pos..];
      var scanning := true;
      while scanning
        invariant Valid() && start <= pos && |buffer| <= Span(t) && buffer == t[..|buffer|]
        invariant scanning ==> pos - start == |buffer|
        invariant !scanning ==> |buffer| == Span(t) && s[pos..] == AfterNul(t[|buffer|..])
        decreases scanning, |s| - pos
      {
        ghost var left := t[|buffer|..];
        assert left == s[pos..];
        var ch := Read();
        if ch == NUL {
          scanning := false;
        } else if IsSpecialSymbol(ch) || IsWhitespace(ch) {
          Unread();
          scanning := false;
        } else {
          assert t[|buffer|] == ch;
          buffer := buffer + [ch];
        }
      }
      lit := buffer;
      tok := WordToken(lit);
    }

    method ScanSpecialSymbol() returns (tok: Token, lit: string)
      requires Valid() && pos < |s| && IsSpecialSymbol(s[pos])
      modifies this
      ensures Valid()
      ensures var t := s[old(pos)..];
              var n := SymbolLength(t);
              tok == WordToken(lit) && lit == t[..n] && s[pos..] == AfterNul(t[n..])
    {
      var last := ScannedItem(ErrorToken, "");
      var buffer: string := "";
      ghost var start, t := pos, s[pos..];
      var scanning := true;
      while scanning
        invariant Valid() && start <= pos && |last.literal| <= SymbolLength(t) && last.literal == t[..|last.literal|]
        invariant if last.literal == "" then last.tok == ErrorToken else
                    last.tok == WordToken(last.literal) && last.tok != ErrorToken
        invariant scanning ==> pos - start == |buffer| && buffer == last.literal
        invariant !scanning ==> |last.literal| == SymbolLength(t) && s[pos..] == AfterNul(t[|last.literal|..])
        decreases scanning, |s| - pos
      {
        SymbolGoesOn(t, |buffer|);
        assert t[|buffer|..] == s[pos..];
        var ch := Read();
        if ch == NUL {
          scanning := false;
        } else if IsSpecialSymbol(ch) {
          buffer := buffer + [ch];
          assert buffer == t[..|buffer|];
          if WordToken(buffer) != IdentifierToken {
            last := ScannedItem(WordToken(buffer), buffer);
          } else if last.tok != ErrorToken {
            Unread();
            scanning := false;
          }
        } else {
          Unread();
          scanning := false;
        }
      }
      if last.tok == ErrorToken {
        return ErrorToken, buffer;
      }
      return last.tok, last.literal;
    }

    /** `text` is what is left, with the character that was read last in front. */
    method SkipWhiteSpaces(first: char, ghost text: string) returns (ch: char)
      requires Valid()
      requires if text == "" then first == NUL && pos == |s| else pos > 0 && text == s[pos - 1..] && first == text[0]
      modifies this
      ensures Valid()
      ensures var u := SkipSpaces(text);
              if u == "" then ch == NUL && pos == |s| else pos > 0 && u == s[pos - 1..] && ch == u[0]
    {
      ch := first;
      ghost var t := text;
      while IsWhitespace(ch)
        invariant Valid() && SkipSpaces(t) == SkipSpaces(text)
        invariant if t == "" then ch == NUL && pos == |s| else pos > 0 && t == s[pos - 1..] && ch == t[0]
        decreases |t|
      {
        ch := Read();
        t := t[1..];
      }
    }

    method Lex() returns (tok: Token, lit: string)
      requires Valid()
      modifies this
      ensures Valid()
      ensures var x := Lexed(s[old(pos)..]);
              tok == x.tok && lit == x.literal && s[pos..] == x.rest
      ensures tok != ErrorToken
      ensures tok == EndOfStringToken || pos > old(pos)
    {
      ghost var text := s[pos..];
      LexAdvances(text);
      var first := Read();
      var ch := SkipWhiteSpaces(first, text);
      ghost var u := SkipSpaces(text);
      if ch == NUL {
        return EndOfStringToken, "";
      } else if IsSpecialSymbol(ch) {
        Unread();
        assert s[pos..] == u;
        tok, lit := ScanSpecialSymbol();
      } else {
        Unread();
        assert s[pos..] == u;
        tok, lit := ScanIdOrKeyword();
      }
    }
  }

  /** A symbol goes on as long as the next character makes another keyword of it. */
  lemma SymbolGoesOn(t: string, n: nat)
    requires t != "" && IsSpecialSymbol(t[0]) && n <= SymbolLength(t)
    ensures n < SymbolLength(t) <==> n < |t| && IsSpecialSymbol(t[n]) && WordToken(t[..n + 1]) != IdentifierToken
    ensures WordToken(t[..n]) != ErrorToken
  {
    if n == 0 {
      assert t[..1] == [t[0]];
    } else if n == 1 && |t| > 1 {
      assert t[..2] == [t[0], t[1]];
    } else if n == 2 && |t| > 2 {
      assert t[..2] == [t[0], t[1]];
      assert |t[..3]| == 3;
    }
  }
}
