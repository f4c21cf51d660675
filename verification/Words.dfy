/** The word and substring functions of Go's strings package.  A string is its sequence of characters. */
module Words {

  /** unicode.IsSpace. */
  predicate IsSpace(c: char) {
    || c == ' ' || '\t' <= c <= '\r'
    || c == '\U{0085}' || c == '\U{00A0}' || c == '\U{1680}'
    || '\U{2000}' <= c <= '\U{200a}'
    || c == '\U{2028}' || c == '\U{2029}' || c == '\U{202f}' || c == '\U{205f}' || c == '\U{3000}'
  }

  /** The twenty-five characters of the White_Space property of Unicode. */
  lemma SpacesAre(c: char)
    ensures IsSpace(c) <==>
              c in "\U{0009}\U{000a}\U{000b}\U{000c}\U{000d}\U{0020}\U{0085}\U{00a0}\U{1680}"
              || c in "\U{2000}\U{2001}\U{2002}\U{2003}\U{2004}\U{2005}\U{2006}\U{2007}\U{2008}\U{2009}\U{200a}"
              || c in "\U{2028}\U{2029}\U{202f}\U{205f}\U{3000}"
  {
  }

  predicate IsWord(s: string) {
    s != "" && forall c <- s :: !IsSpace(c)
  }

  /** Visible ASCII characters only. */
  predicate IsVisible(s: string) {
    s != "" && forall c <- s :: '!' <= c <= '~'
  }

  lemma VisibleIsWord(a: string, b: string)
    requires IsVisible(a) && IsVisible(b)
    ensures IsVisible(a + b) && IsWord(a + b) && IsWord(a)
  {
  }

  function WordLength(s: string): (n: nat)
    ensures n <= |s| && (forall k | 0 <= k < n :: !IsSpace(s[k])) && (n < |s| ==> IsSpace(s[n]))
  {
    if s == "" || IsSpace(s[0]) then 0 else 1 + WordLength(s[1..])
  }

  /** strings.Fields: the maximal runs of characters that are no spaces. */
  function Fields(s: string): (r: seq<string>)
    ensures forall w <- r :: IsWord(w)
    decreases |s|
  {
    if s == "" then []
    else if IsSpace(s[0]) then Fields(s[1..])
    else
      var n := WordLength(s);
      [s[..n]] + Fields(s[n..])
  }

  lemma {:induction false} FieldsOfAppended(s: string, word: string)
    requires IsWord(word)
    ensures Fields(s + " " + word) == Fields(s) + [word]
    decreases |s|
  {
    assert IsSpace(' ');
    hide IsSpace;
    var whole := s + " " + word;
    if s == "" {
      assert whole[1..] == word;
      assert WordLength(word) == |word|;
      assert word[..|word|] == word && word[|word|..] == "";
    } else if IsSpace(s[0]) {
      assert whole[1..] == s[1..] + " " + word;
      FieldsOfAppended(s[1..], word);
    } else {
      var n := WordLength(s);
      WordLengthIs(whole, n);
      assert whole[..n] == s[..n] && whole[n..] == s[n..] + " " + word;
      FieldsOfAppended(s[n..], word);
    }
  }

  lemma WordLengthIs(s: string, n: nat)
    requires n < |s| && IsSpace(s[n]) && forall k | 0 <= k < n :: !IsSpace(s[k])
    ensures WordLength(s) == n
  {
  }

  // ----- prefixes, suffixes, substrings -----

  predicate HasPrefix(s: string, prefix: string) {
    prefix <= s
  }

  predicate HasSuffix(s: string, suffix: string) {
    |suffix| <= |s| && s[|s| - |suffix|..] == suffix
  }

  function TrimPrefix(s: string, prefix: string): string {
    if HasPrefix(s, prefix) then s[|prefix|..] else s
  }

  function TrimSuffix(s: string, suffix: string): string {
    if HasSuffix(s, suffix) then s[..|s| - |suffix|] else s
  }

  function TrimLeft(s: string, cutset: string): string {
    if s != "" && s[0] in cutset then TrimLeft(s[1..], cutset) else s
  }

  function TrimRight(s: string, cutset: string): string {
    if s != "" && s[|s| - 1] in cutset then TrimRight(s[..|s| - 1], cutset) else s
  }

  function Trim(s: string, cutset: string): string {
    TrimRight(TrimLeft(s, cutset), cutset)
  }

  predicate IsBlank(s: string) {
    forall c <- s :: IsSpace(c)
  }

  /** strings.Count of a text that is not empty: occurrences that do not overlap, from the left. */
  function Count(s: string, part: string): nat
    requires part != ""
    decreases |s|
  {
    if |s| < |part| then 0
    else if part <= s then 1 + Count(s[|part|..], part)
    else Count(s[1..], part)
  }

  predicate Contains(s: string, part: string)
    requires part != ""
  {
    Count(s, part) > 0
  }
}
