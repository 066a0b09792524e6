/**
 * Display-name cosmetics applied to every agent in the ranking:
 * `normalizar_nome` (title-case each token), `diminuir_name` (abbreviate
 * interior tokens until the name fits) and `processar_name` (both, with the
 * default width of 45).
 */
module Names {
  import opened Text

  /** Default width budget of `diminuir_name`. */
  const DefaultMaxLength: int := 45

  function LowerAll(s: string): (r: string)
    ensures |r| == |s|
  {
    seq(|s|, k requires 0 <= k < |s| => Lower(s[k]))
  }

  /** Python's `str.capitalize()`: first character upper-cased, the rest
      lower-cased. */
  function Capitalize(w: string): string {
    if w == [] then [] else [Upper(w[0])] + LowerAll(w[1..])
  }

  function CapitalizeAll(ws: seq<string>): (r: seq<string>)
    ensures |r| == |ws|
  {
    seq(|ws|, k requires 0 <= k < |ws| => Capitalize(ws[k]))
  }

  /** A token that capitalising leaves alone. */
  predicate IsCapitalized(w: string) {
    Capitalize(w) == w
  }

  /** `normalizar_nome`: `' '.join(word.capitalize() for word in nome.split())`. */
  function Normalize(name: string): string {
    Join(CapitalizeAll(Words(name)))
  }

  lemma LowerAllIdempotent(s: string)
    ensures LowerAll(LowerAll(s)) == LowerAll(s)
  {
    forall k | 0 <= k < |s| ensures LowerAll(LowerAll(s))[k] == LowerAll(s)[k] {
      CaseMappingFacts(s[k]);
    }
  }

  lemma CapitalizeFacts(w: string)
    ensures IsWord(w) ==> IsWord(Capitalize(w))
    ensures IsCapitalized(Capitalize(w))
  {
    if w != [] {
      CaseMappingFacts(w[0]);
      var c := Capitalize(w);
      assert c[0] == Upper(w[0]);
      assert c[1..] == LowerAll(w[1..]);
      LowerAllIdempotent(w[1..]);
      if IsWord(w) {
        forall k | 1 <= k < |w| ensures !IsSpace(c[k]) {
          CaseMappingFacts(w[k]);
        }
      }
    }
  }

  /** The tokens of a normalised name are the input's tokens, each capitalised,
      and the name is already in single-space joined form. */
  lemma NormalizeTokens(name: string)
    ensures Words(Normalize(name)) == CapitalizeAll(Words(name))
    ensures forall k | 0 <= k < |Words(Normalize(name))| :: IsCapitalized(Words(Normalize(name))[k])
    ensures Join(Words(Normalize(name))) == Normalize(name)
  {
    var ws := Words(name);
    var cs := CapitalizeAll(ws);
    forall k | 0 <= k < |ws| ensures IsWord(cs[k]) && IsCapitalized(cs[k]) {
      CapitalizeFacts(ws[k]);
    }
    WordsOfJoin(cs);
  }

  /** Joining capitalised tokens gives a name `Normalize` leaves alone. */
  lemma NormalizeOfCapitalized(ws: seq<string>)
    requires forall k | 0 <= k < |ws| :: IsWord(ws[k]) && IsCapitalized(ws[k])
    ensures Normalize(Join(ws)) == Join(ws)
  {
    WordsOfJoin(ws);
    assert CapitalizeAll(ws) == ws;
  }

  /** `normalizar_nome` is idempotent. */
  lemma NormalizeIdempotent(name: string)
    ensures Normalize(Normalize(name)) == Normalize(name)
  {
    NormalizeTokens(name);
    var ws := CapitalizeAll(Words(name));
    NormalizeOfCapitalized(ws);
  }

  /** `parts[i][0] + '.'`. */
  function Initial(w: string): (r: string)
    requires w != []
    ensures IsWord(w) ==> IsWord(r)
  {
    [w[0], '.']
  }

  /**
   * Rest of the loop of `diminuir_name` from index `i` on, given the current
   * `parts` and `name`: while `i < len(parts) - 1`, if `name` is still too long
   * the token at `i` is abbreviated and `name` becomes the join of `parts`.
   */
  function AbbreviateFrom(parts: seq<string>, name: string, i: nat, maxLength: int): string
    requires forall k | 0 <= k < |parts| :: parts[k] != []
    decreases |parts| - i
  {
    if i + 1 >= |parts| then name
    else if |name| > maxLength then
      var next := parts[i := Initial(parts[i])];
      AbbreviateFrom(next, Join(next), i + 1, maxLength)
    else AbbreviateFrom(parts, name, i + 1, maxLength)
  }

  /** What `diminuir_name(name, max_length)` returns. */
  function Shortened(name: string, maxLength: int): string {
    if |name| <= maxLength then name
    else AbbreviateFrom(Words(name), name, 1, maxLength)
  }

  /** `diminuir_name`: the tokens are put in an array that the loop
      overwrites in place, re-joining after each abbreviation. */
  method Shorten(name: string, maxLength: int) returns (r: string)
    ensures r == Shortened(name, maxLength)
  {
    if |name| <= maxLength {
      return name;
    }
    var words := Words(name);
    var parts := new string[|words|](k requires 0 <= k < |words| => words[k]);
    assert parts[..] == words;
    r := name;
    var i := 1;
    while i < parts.Length - 1
      invariant 1 <= i
      invariant forall k | 0 <= k < parts.Length :: parts[k] != []
      invariant AbbreviateFrom(parts[..], r, i, maxLength) == AbbreviateFrom(words, name, 1, maxLength)
    {
      if |r| > maxLength {
        parts[i] := Initial(parts[i]);
        r := Join(parts[..]);
      }
      i := i + 1;
    }
  }

  /** `ws` with the interior tokens at positions `1 .. k-1` abbreviated. */
  function AbbreviatedUpTo(ws: seq<string>, k: nat): (r: seq<string>)
    requires forall j | 0 <= j < |ws| :: ws[j] != []
    ensures |r| == |ws|
  {
    seq(|ws|, j requires 0 <= j < |ws| => if 1 <= j < k && j + 1 < |ws| then Initial(ws[j]) else ws[j])
  }

  predicate FitsAt(ws: seq<string>, k: nat, maxLength: int)
    requires forall j | 0 <= j < |ws| :: ws[j] != []
  {
    |Join(AbbreviatedUpTo(ws, k))| <= maxLength
  }

  /** Once the name fits, the rest of the loop changes nothing. */
  lemma {:induction false} AbbreviateFromFits(parts: seq<string>, name: string, i: nat, maxLength: int)
    requires forall k | 0 <= k < |parts| :: parts[k] != []
    requires |name| <= maxLength
    ensures AbbreviateFrom(parts, name, i, maxLength) == name
    decreases |parts| - i
  {
    if i + 1 < |parts| {
      AbbreviateFromFits(parts, name, i + 1, maxLength);
    }
  }

  lemma {:induction false} AbbreviateFromShape(ws: seq<string>, i: nat, maxLength: int)
    requires forall j | 0 <= j < |ws| :: ws[j] != []
    requires 2 <= i <= |ws| - 1
    requires forall k | 2 <= k < i :: !FitsAt(ws, k, maxLength)
    ensures exists k ::
              && i <= k <= |ws| - 1
              && AbbreviateFrom(AbbreviatedUpTo(ws, i), Join(AbbreviatedUpTo(ws, i)), i, maxLength)
                 == Join(AbbreviatedUpTo(ws, k))
              && (FitsAt(ws, k, maxLength) || k == |ws| - 1)
              && (forall k' | 2 <= k' < k :: !FitsAt(ws, k', maxLength))
    decreases |ws| - i
  {
    var ps := AbbreviatedUpTo(ws, i);
    if i + 1 >= |ws| {
      assert i == |ws| - 1;
    } else if |Join(ps)| > maxLength {
      assert ps[i := Initial(ps[i])] == AbbreviatedUpTo(ws, i + 1);
      AbbreviateFromShape(ws, i + 1, maxLength);
    } else {
      AbbreviateFromFits(ps, Join(ps), i + 1, maxLength);
      assert FitsAt(ws, i, maxLength);
    }
  }

  /**
   * Shape of the result of `diminuir_name`: a name within budget, or with
   * fewer than three tokens, comes back unchanged. Otherwise the result is
   * the tokens joined by single spaces with a left-to-right run of interior
   * tokens (from position 1 to some `k - 1`) abbreviated; the first and last
   * tokens are never touched; each abbreviation before the last one was
   * needed (the name did not fit yet); and the result either fits or has
   * every interior token abbreviated.
   */
  lemma ShortenedShape(name: string, maxLength: int)
    ensures |name| <= maxLength ==> Shortened(name, maxLength) == name
    ensures |name| > maxLength && |Words(name)| < 3 ==> Shortened(name, maxLength) == name
    ensures |name| > maxLength && |Words(name)| >= 3 ==>
              exists k ::
                && 2 <= k <= |Words(name)| - 1
                && Shortened(name, maxLength) == Join(AbbreviatedUpTo(Words(name), k))
                && (FitsAt(Words(name), k, maxLength) || k == |Words(name)| - 1)
                && (forall k' | 2 <= k' < k :: !FitsAt(Words(name), k', maxLength))
  {
    var ws := Words(name);
    if |name| > maxLength && |ws| >= 3 {
      assert ws[1 := Initial(ws[1])] == AbbreviatedUpTo(ws, 2);
      AbbreviateFromShape(ws, 2, maxLength);
    }
  }

  /** Each position of an abbreviated token list: first and last tokens as
      they were, interior ones before `k` abbreviated, the rest untouched. */
  lemma AbbreviatedUpToAt(ws: seq<string>, k: nat, j: nat)
    requires forall i | 0 <= i < |ws| :: ws[i] != []
    requires j < |ws|
    ensures j == 0 || j == |ws| - 1 || j >= k ==> AbbreviatedUpTo(ws, k)[j] == ws[j]
    ensures 1 <= j < k && j < |ws| - 1 ==> AbbreviatedUpTo(ws, k)[j] == [ws[j][0], '.']
  {
  }

  /** `diminuir_name` is idempotent: shortening a shortened name changes
      nothing. */
  lemma ShortenedIdempotent(name: string, maxLength: int)
    ensures Shortened(Shortened(name, maxLength), maxLength) == Shortened(name, maxLength)
  {
    var r := Shortened(name, maxLength);
    var ws := Words(name);
    ShortenedShape(name, maxLength);
    if |name| > maxLength && |ws| >= 3 && |r| > maxLength {
      var k :| && 2 <= k <= |ws| - 1
               && r == Join(AbbreviatedUpTo(ws, k))
               && (FitsAt(ws, k, maxLength) || k == |ws| - 1);
      var ps := AbbreviatedUpTo(ws, k);
      assert k == |ws| - 1;
      forall j | 0 <= j < |ps| ensures IsWord(ps[j]) { }
      WordsOfJoin(ps);
      ShortenedShape(r, maxLength);
      var k2 :| 2 <= k2 <= |ps| - 1 && Shortened(r, maxLength) == Join(AbbreviatedUpTo(ps, k2));
      assert AbbreviatedUpTo(ps, k2) == ps;
    }
  }

  /** `processar_name`. */
  function ProcessName(name: string): string {
    Shortened(Normalize(name), DefaultMaxLength)
  }

  /** Shortening a normalised name keeps it normalised. */
  lemma NormalizeOfShortened(name: string)
    ensures Normalize(Shortened(Normalize(name), DefaultMaxLength)) == Shortened(Normalize(name), DefaultMaxLength)
  {
    var n := Normalize(name);
    var r := Shortened(n, DefaultMaxLength);
    var ws := Words(n);
    NormalizeTokens(name);
    ShortenedShape(n, DefaultMaxLength);
    if |n| > DefaultMaxLength && |ws| >= 3 {
      var k :| 2 <= k <= |ws| - 1 && r == Join(AbbreviatedUpTo(ws, k));
      var ps := AbbreviatedUpTo(ws, k);
      forall j | 0 <= j < |ps| ensures IsWord(ps[j]) && IsCapitalized(ps[j]) {
        if 1 <= j < k && j + 1 < |ws| {
          var w := ws[j];
          assert Capitalize(w)[0] == Upper(w[0]);
          CaseMappingFacts(w[0]);
          assert Capitalize(ps[j]) == [Upper(w[0]), Lower('.')];
        }
      }
      NormalizeOfCapitalized(ps);
    } else {
      NormalizeIdempotent(name);
    }
  }

  /** `processar_name` is idempotent: the displayed name is a fixed point. */
  lemma ProcessNameIdempotent(name: string)
    ensures ProcessName(ProcessName(name)) == ProcessName(name)
  {
    NormalizeOfShortened(name);
    ShortenedIdempotent(Normalize(name), DefaultMaxLength);
  }
}
