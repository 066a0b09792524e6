/**
 * The string primitives the dashboard leans on: Python's whitespace
 * `str.split()`, `' '.join(...)` and the per-character case mapping used by
 * `str.capitalize()`.
 */
module Text {

  /** The characters Python's `str.isspace()` accepts; `str.split()` with no
      argument separates on runs of them. */
  predicate IsSpace(c: char) {
    || ('\t' <= c <= '\r')
    || ('\U{1C}' <= c <= '\U{1F}')
    || c == ' '
    || c == '\U{85}'
    || c == '\U{A0}'
    || c == '\U{1680}'
    || ('\U{2000}' <= c <= '\U{200A}')
    || c == '\U{2028}'
    || c == '\U{2029}'
    || c == '\U{202F}'
    || c == '\U{205F}'
    || c == '\U{3000}'
  }

  /** Lower-case letters that have a one-character upper-case partner 32 code
      points below: ASCII a-z and the Latin-1 letters U+00E0..U+00FE except
      the division sign. */
  predicate IsLowerLetter(c: char) {
    ('a' <= c <= 'z') || ('\U{E0}' <= c <= '\U{FE}' && c != '\U{F7}')
  }

  /** Upper-case letters with a one-character lower-case partner 32 code
      points above: ASCII A-Z and U+00C0..U+00DE except the multiplication sign. */
  predicate IsUpperLetter(c: char) {
    ('A' <= c <= 'Z') || ('\U{C0}' <= c <= '\U{DE}' && c != '\U{D7}')
  }

  function Upper(c: char): (u: char)
    ensures IsLowerLetter(c) ==> IsUpperLetter(u)
    ensures !IsLowerLetter(c) ==> u == c
  {
    if IsLowerLetter(c) then (c as int - 32) as char else c
  }

  function Lower(c: char): (l: char)
    ensures IsUpperLetter(c) ==> IsLowerLetter(l)
    ensures !IsUpperLetter(c) ==> l == c
  {
    if IsUpperLetter(c) then (c as int + 32) as char else c
  }

  /** Case mapping is a projection: mapping twice is mapping once, and it
      never turns a non-space into a space. */
  lemma CaseMappingFacts(c: char)
    ensures Upper(Upper(c)) == Upper(c) && Lower(Lower(c)) == Lower(c)
    ensures !IsSpace(c) ==> !IsSpace(Upper(c)) && !IsSpace(Lower(c))
  {
  }

  /** A token of `str.split()`: non-empty and free of whitespace. */
  predicate IsWord(w: string) {
    w != [] && forall k | 0 <= k < |w| :: !IsSpace(w[k])
  }

  /** Length of the leading run of non-space characters. */
  function TokenLen(s: string): (n: nat)
    ensures n <= |s|
    ensures forall k | 0 <= k < n :: !IsSpace(s[k])
    ensures n < |s| ==> IsSpace(s[n])
  {
    if s == [] || IsSpace(s[0]) then 0 else 1 + TokenLen(s[1..])
  }

  /** Python's `s.split()`: maximal runs of non-space characters, in order;
      leading, trailing and repeated whitespace produce no empty tokens. */
  function Words(s: string): (ws: seq<string>)
    ensures forall k | 0 <= k < |ws| :: IsWord(ws[k])
    decreases |s|
  {
    if s == [] then []
    else if IsSpace(s[0]) then Words(s[1..])
    else
      var n := TokenLen(s);
      [s[..n]] + Words(s[n..])
  }

  /** Python's `' '.join(ws)`. */
  function Join(ws: seq<string>): string {
    if |ws| == 0 then ""
    else if |ws| == 1 then ws[0]
    else ws[0] + " " + Join(ws[1..])
  }

  lemma {:induction false} TokenLenOfWord(w: string, t: string)
    requires forall k | 0 <= k < |w| :: !IsSpace(w[k])
    requires t == [] || IsSpace(t[0])
    ensures TokenLen(w + t) == |w|
  {
    if w != [] {
      assert (w + t)[1..] == w[1..] + t;
      TokenLenOfWord(w[1..], t);
    }
  }

  /** Splitting what was joined gives the tokens back, provided they are
      genuine tokens. */
  lemma {:induction false} WordsOfJoin(ws: seq<string>)
    requires forall k | 0 <= k < |ws| :: IsWord(ws[k])
    ensures Words(Join(ws)) == ws
  {
    if |ws| == 1 {
      var w := ws[0];
      TokenLenOfWord(w, []);
      assert w + [] == w;
      assert w[..|w|] == w && w[|w|..] == [];
    } else if |ws| > 1 {
      var w, rest := ws[0], Join(ws[1..]);
      var s := w + " " + rest;
      assert s == w + (" " + rest);
      TokenLenOfWord(w, " " + rest);
      assert s[..|w|] == w;
      assert s[|w|..] == " " + rest;
      assert (" " + rest)[1..] == rest;
      WordsOfJoin(ws[1..]);
      assert Words(s) == [w] + Words(" " + rest);
    }
  }

  /** A string of whitespace only has no tokens. */
  lemma {:induction false} WordsOfSpaces(sp: string)
    requires forall k | 0 <= k < |sp| :: IsSpace(sp[k])
    ensures Words(sp) == []
  {
    if sp != [] {
      WordsOfSpaces(sp[1..]);
    }
  }

  /**
   * The defining step of `split()`: leading whitespace is skipped, and the
   * next token is the maximal run of non-space characters that follows it.
   */
  lemma {:induction false} WordsStep(sp: string, w: string, t: string)
    requires forall k | 0 <= k < |sp| :: IsSpace(sp[k])
    requires IsWord(w)
    requires t == [] || IsSpace(t[0])
    ensures Words(sp + w + t) == [w] + Words(t)
  {
    if sp == [] {
      var s := w + t;
      assert sp + w + t == s;
      TokenLenOfWord(w, t);
      assert s[..|w|] == w && s[|w|..] == t;
    } else {
      assert (sp + w + t)[1..] == sp[1..] + w + t;
      WordsStep(sp[1..], w, t);
    }
  }
}
