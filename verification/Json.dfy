/**
 JSON documents, JSON Pointer (RFC 6901) and the add and replace operations of JSON Patch
 (RFC 6902, sections 4.1 and 4.3).
 */
module Json {
  import opened Options
  import opened Text

  /** A number stands for itself, by its literal: no operation looks inside it. */
  datatype Json =
    | Null
    | Bool(flag: bool)
    | Num(literal: string)
    | Str(text: string)
    | Arr(items: seq<Json>)
    | Obj(members: map<string, Json>)

  datatype Kind = Add | Replace

  datatype Operation = Operation(kind: Kind, path: string, value: Json)

  // ----- pointers -----

  /** strings.ReplaceAll of a one-character text. */
  function ReplaceChar(s: string, c: char, replacement: string): string {
    if s == "" then ""
    else (if s[0] == c then replacement else [s[0]]) + ReplaceChar(s[1..], c, replacement)
  }

  /** Replaces every occurrence of a two-character text, scanning from the left. */
  function ReplacePair(s: string, a: char, b: char, replacement: string): string {
    if |s| < 2 then s
    else if s[0] == a && s[1] == b then replacement + ReplacePair(s[2..], a, b, replacement)
    else [s[0]] + ReplacePair(s[1..], a, b, replacement)
  }

  /** Section 3 of RFC 6901: in a reference token every '~' is followed by '0' or '1'. */
  predicate ValidToken(raw: string) {
    if raw == "" then true
    else if raw[0] == '~' then |raw| >= 2 && (raw[1] == '0' || raw[1] == '1') && ValidToken(raw[2..])
    else raw[0] != '/' && ValidToken(raw[1..])
  }

  /** Section 4 of RFC 6901: first "~1" becomes '/', then "~0" becomes '~'. */
  function DecodeToken(raw: string): string {
    ReplacePair(ReplacePair(raw, '~', '1', "/"), '~', '0', "~")
  }

  /** The two passes of escapeJSONPointer. */
  function Escape(s: string): string {
    ReplaceChar(ReplaceChar(s, '~', "~0"), '/', "~1")
  }

  lemma {:induction false} ReplaceCharConcat(a: string, b: string, c: char, replacement: string)
    ensures ReplaceChar(a + b, c, replacement) == ReplaceChar(a, c, replacement) + ReplaceChar(b, c, replacement)
  {
    if a == "" {
      assert a + b == b;
    } else {
      assert (a + b)[1..] == a[1..] + b;
      ReplaceCharConcat(a[1..], b, c, replacement);
    }
  }

  /** Both passes together work character by character. */
  lemma EscapeOfCons(s: string)
    requires s != ""
    ensures Escape(s) == (if s[0] == '~' then "~0" else if s[0] == '/' then "~1" else [s[0]]) + Escape(s[1..])
  {
    var head := if s[0] == '~' then "~0" else [s[0]];
    ReplaceCharConcat(head, ReplaceChar(s[1..], '~', "~0"), '/', "~1");
    assert head[1..] == if s[0] == '~' then "0" else "";
    assert "0"[1..] == "";
    if s[0] == '~' {
      assert ReplaceChar("~0", '/', "~1") == "~" + ReplaceChar("0", '/', "~1");
      assert ReplaceChar("0", '/', "~1") == "0" + ReplaceChar("", '/', "~1");
    }
  }

  lemma {:induction false} EscapedIsOneToken(s: string)
    ensures '/' !in Escape(s) && ValidToken(Escape(s))
  {
    if s != "" {
      EscapeOfCons(s);
      EscapedIsOneToken(s[1..]);
      var e := Escape(s);
      if s[0] == '~' || s[0] == '/' {
        assert e[2..] == Escape(s[1..]);
      } else {
        assert e[1..] == Escape(s[1..]);
      }
    }
  }

  /** After the first decoding pass only the first escaping pass is left to undo. */
  lemma {:induction false} FirstPassUndone(s: string)
    ensures ReplacePair(Escape(s), '~', '1', "/") == ReplaceChar(s, '~', "~0")
  {
    if s != "" {
      hide Escape;
      EscapeOfCons(s);
      FirstPassUndone(s[1..]);
      var rest := Escape(s[1..]);
      if s[0] == '/' {
        assert ("~1" + rest)[2..] == rest;
      } else if s[0] == '~' {
        assert ("~0" + rest)[1..] == ['0'] + rest;
        KeepsPlainHead('0', rest, '~', '1', "/");
      } else {
        KeepsPlainHead(s[0], rest, '~', '1', "/");
      }
    }
  }

  lemma KeepsPlainHead(c: char, rest: string, a: char, b: char, replacement: string)
    requires c != a
    ensures ReplacePair([c] + rest, a, b, replacement) == [c] + ReplacePair(rest, a, b, replacement)
  {
    assert ([c] + rest)[1..] == rest;
  }

  lemma {:induction false} SecondPassUndone(s: string)
    ensures ReplacePair(ReplaceChar(s, '~', "~0"), '~', '0', "~") == s
  {
    if s != "" {
      SecondPassUndone(s[1..]);
      var rest := ReplaceChar(s[1..], '~', "~0");
      if s[0] == '~' {
        assert ("~0" + rest)[2..] == rest;
      } else {
        KeepsPlainHead(s[0], rest, '~', '0', "~");
      }
      assert s == [s[0]] + s[1..];
    }
  }

  /** Decoding a reference token undoes the escape of every key. */
  lemma DecodeOfEscape(s: string)
    ensures DecodeToken(Escape(s)) == s
  {
    FirstPassUndone(s);
    SecondPassUndone(s);
  }

  /** The reference tokens of a pointer, still escaped, or none when the text is no pointer. */
  function RawTokens(path: string): Option<seq<string>> {
    if path == "" then Some([])
    else if path[0] != '/' then None
    else
      var raw := Split(path[1..], '/');
      if forall t <- raw :: ValidToken(t) then Some(raw) else None
  }

  function DecodeTokens(raw: seq<string>): seq<string> {
    if raw == [] then [] else [DecodeToken(raw[0])] + DecodeTokens(raw[1..])
  }

  function Tokens(path: string): Option<seq<string>> {
    match RawTokens(path)
    case None => None
    case Some(raw) => Some(DecodeTokens(raw))
  }

  lemma {:induction false} DecodeTokensConcat(a: seq<string>, b: seq<string>)
    ensures DecodeTokens(a + b) == DecodeTokens(a) + DecodeTokens(b)
  {
    if a == [] {
      assert a + b == b;
    } else {
      assert (a + b)[1..] == a[1..] + b;
      DecodeTokensConcat(a[1..], b);
    }
  }

  /** Extending a pointer by one valid token extends its tokens by the decoded one. */
  lemma TokensOfChild(path: string, raw: string)
    requires Tokens(path).Some? && ValidToken(raw) && '/' !in raw
    ensures Tokens(path + "/" + raw) == Some(Tokens(path).value + [DecodeToken(raw)])
  {
    SplitOfPlain(raw, '/');
    var child := path + "/" + raw;
    if path == "" {
      assert child[1..] == raw;
      assert RawTokens(child) == Some([raw]);
      assert DecodeTokens([raw]) == [DecodeToken(raw)] == DecodeTokens([]) + [DecodeToken(raw)];
    } else {
      assert child[1..] == path[1..] + ['/'] + raw;
      SplitOfConcat(path[1..], raw, '/');
      DecodeTokensConcat(Split(path[1..], '/'), [raw]);
      assert DecodeTokens([raw]) == [DecodeToken(raw)];
    }
  }

  /** The pointer that names the tokens, each escaped. */
  function PrintPointer(tokens: seq<string>): string {
    if tokens == [] then "" else "/" + Escape(tokens[0]) + PrintPointer(tokens[1..])
  }

  lemma {:induction false} PrintPointerConcat(a: seq<string>, b: seq<string>)
    ensures PrintPointer(a + b) == PrintPointer(a) + PrintPointer(b)
  {
    if a == [] {
      assert a + b == b;
    } else {
      assert (a + b)[1..] == a[1..] + b;
      PrintPointerConcat(a[1..], b);
    }
  }

  /** A printed pointer has exactly the tokens it was printed from, whatever characters they hold. */
  lemma {:induction false} TokensOfPrinted(tokens: seq<string>)
    ensures Tokens(PrintPointer(tokens)) == Some(tokens)
  {
    if tokens != [] {
      var init, last := tokens[..|tokens| - 1], tokens[|tokens| - 1];
      assert tokens == init + [last];
      TokensOfPrinted(init);
      PrintPointerConcat(init, [last]);
      assert PrintPointer([last]) == "/" + Escape(last);
      assert PrintPointer(tokens) == PrintPointer(init) + "/" + Escape(last);
      EscapedIsOneToken(last);
      DecodeOfEscape(last);
      TokensOfChild(PrintPointer(init), Escape(last));
    }
  }

  // ----- array indices -----

  const DIGITS := "0123456789"

  /** Decimal notation. */
  function PrintNat(n: nat): (s: string)
    ensures s != "" && (forall c <- s :: c in DIGITS) && (s[0] == '0' ==> n == 0 && s == "0")
  {
    if n < 10 then [DIGITS[n]] else PrintNat(n / 10) + [DIGITS[n % 10]]
  }

  function DigitValue(c: char): nat {
    if '0' <= c <= '9' then c as int - '0' as int else 0
  }

  function Number(s: string): nat {
    if s == "" then 0 else Number(s[..|s| - 1]) * 10 + DigitValue(s[|s| - 1])
  }

  /** Section 4 of RFC 6901: an array index is "0" or digits without a leading zero. */
  function ParseIndex(s: string): Option<nat> {
    if s == "" || (exists c <- s :: c !in DIGITS) || (s[0] == '0' && |s| > 1) then None else Some(Number(s))
  }

  lemma {:induction false} NumberOfPrinted(n: nat)
    ensures Number(PrintNat(n)) == n
  {
    var s := PrintNat(n);
    assert DigitValue(DIGITS[n % 10]) == n % 10;
    if n < 10 {
      assert s[..0] == "";
      assert Number(s) == Number("") * 10 + n;
    } else {
      NumberOfPrinted(n / 10);
      assert s[..|s| - 1] == PrintNat(n / 10);
    }
  }

  lemma PrintedIsPlain(n: nat)
    ensures '~' !in PrintNat(n) && '/' !in PrintNat(n) && PrintNat(n) != "-"
  {
    var s := PrintNat(n);
    assert '~' !in DIGITS && '/' !in DIGITS && '-' !in DIGITS;
    assert s[0] in s;
  }

  lemma IndexOfPrinted(n: nat)
    ensures ParseIndex(PrintNat(n)) == Some(n)
    ensures ValidToken(PrintNat(n)) && '/' !in PrintNat(n) && DecodeToken(PrintNat(n)) == PrintNat(n)
  {
    hide Number, ValidToken, DecodeToken;
    NumberOfPrinted(n);
    PrintedIsPlain(n);
    PlainTokenDecodes(PrintNat(n));
  }

  /** A token without '~' and '/' stands for itself. */
  lemma {:induction false} PlainTokenDecodes(s: string)
    requires '~' !in s && '/' !in s
    ensures ValidToken(s) && DecodeToken(s) == s
  {
    PlainUnchanged(s, '1', "/");
    PlainUnchanged(s, '0', "~");
    PlainIsValid(s);
  }

  lemma {:induction false} PlainUnchanged(s: string, b: char, replacement: string)
    requires '~' !in s
    ensures ReplacePair(s, '~', b, replacement) == s
  {
    if |s| >= 2 {
      PlainUnchanged(s[1..], b, replacement);
      assert s == [s[0]] + s[1..];
    }
  }

  lemma {:induction false} PlainIsValid(s: string)
    requires '~' !in s && '/' !in s
    ensures ValidToken(s)
  {
    if s != "" {
      PlainIsValid(s[1..]);
    }
  }
}
