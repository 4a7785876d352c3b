/** Plate-text clean-up and extraction of frontend/ai/plate_recognition.py.
    The two regular expressions of `PLATE_PATTERNS` are written out as
    predicates with the backtracking order of Python's `re`: `\b` at both
    ends, two digits, a greedy run of capital letters, a greedy run of
    digits.  Character classes are ASCII (`\d` is 0-9, `\w` is
    [A-Za-z0-9_]). */
module PlateRecognition {
  import opened Wrappers
  import opened Text

  // ---------------------------------------------------------------------
  // _normalize_raw_text

  predicate IsPlateChar(c: char) { IsUpperAscii(c) || IsDigit(c) }

  /** The letters `_OCR_FIX_MAP` rewrites. */
  predicate Confusable(c: char) {
    c == 'O' || c == 'Q' || c == 'D' || c == 'I' || c == 'L' || c == 'Z' || c == 'S' || c == 'B'
  }

  /** `_OCR_FIX_MAP`: O, Q, D to 0; I, L to 1; Z to 2; S to 5; B to 8. */
  function FixChar(c: char): (r: char)
    ensures Confusable(c) ==> IsDigit(r)
    ensures !Confusable(c) ==> r == c
  {
    if c == 'O' || c == 'Q' || c == 'D' then '0'
    else if c == 'I' || c == 'L' then '1'
    else if c == 'Z' then '2'
    else if c == 'S' then '5'
    else if c == 'B' then '8'
    else c
  }

  /** `str.translate(_OCR_FIX_MAP)` */
  function Translate(s: string): (r: string)
    ensures |r| == |s| && forall k :: 0 <= k < |s| ==> r[k] == FixChar(s[k])
  {
    seq(|s|, k requires 0 <= k < |s| => FixChar(s[k]))
  }

  /** `re.sub(r"[^A-Z0-9]", "", t)` */
  function KeepPlateChars(t: string): (r: string)
    ensures forall k :: 0 <= k < |r| ==> IsPlateChar(r[k])
    ensures forall c :: c in r ==> c in t
    ensures (forall k :: 0 <= k < |t| ==> IsPlateChar(t[k])) ==> r == t
  {
    FilterFrom(t, IsPlateChar);
    Filter(t, IsPlateChar)
  }

  /** The clean-up keeps every A-Z and 0-9 character, in order, and drops
      every other one: it works character by character. */
  lemma KeepPlateCharsContents(a: string, b: string, c: char)
    ensures KeepPlateChars(a + b) == KeepPlateChars(a) + KeepPlateChars(b)
    ensures KeepPlateChars([c]) == if IsPlateChar(c) then [c] else []
  {
    FilterConcat(a, b, IsPlateChar);
    FilterOne(c, IsPlateChar);
  }

  /** `_normalize_raw_text`: upper-case, strip, keep A-Z and 0-9, then
      apply the confusion map. */
  function NormalizeRawText(text: string): (r: string)
    ensures text == [] ==> r == []
    ensures forall k :: 0 <= k < |r| ==> IsPlateChar(r[k]) && !Confusable(r[k])
  {
    if text == [] then []
    else Translate(KeepPlateChars(Strip(Upper(text))))
  }

  predicate NormalForm(t: string) {
    forall k :: 0 <= k < |t| ==> IsPlateChar(t[k]) && !Confusable(t[k])
  }

  lemma {:induction false} NormalFormSteps(t: string)
    requires NormalForm(t)
    ensures Upper(t) == t && Strip(t) == t && KeepPlateChars(t) == t && Translate(t) == t
  {
    assert Upper(t) == t by {
      forall k | 0 <= k < |t| ensures UpperChar(t[k]) == t[k] { assert IsPlateChar(t[k]); }
    }
    assert NoSpace(t) by {
      forall k | 0 <= k < |t| ensures !IsSpace(t[k]) { assert IsPlateChar(t[k]); }
    }
    StripNoSpace(t);
    assert Translate(t) == t by {
      forall k | 0 <= k < |t| ensures FixChar(t[k]) == t[k] { assert !Confusable(t[k]); }
    }
  }

  /** A normalised text is its own normal form. */
  lemma {:induction false} NormalizeIdempotent(text: string)
    ensures NormalizeRawText(NormalizeRawText(text)) == NormalizeRawText(text)
  {
    var t := NormalizeRawText(text);
    if t != [] {
      NormalFormSteps(t);
      assert NormalizeRawText(t) == Translate(KeepPlateChars(Strip(Upper(t))));
    }
  }

  /** A text whose letters are all ones the map rewrites normalises to
      digits only. */
  lemma {:induction false} ConfusableLettersVanish(text: string)
    requires forall k :: 0 <= k < |text| ==> !IsUpperAscii(UpperChar(text[k])) || Confusable(UpperChar(text[k]))
    ensures AllDigits(NormalizeRawText(text))
  {
    if text != [] {
      var u := Upper(text);
      StripFrom(u);
      var f := KeepPlateChars(Strip(u));
      forall k | 0 <= k < |f| ensures IsDigit(FixChar(f[k])) {
        assert f[k] in u;
        var j :| 0 <= j < |u| && u[j] == f[k];
      }
    }
  }

  // ---------------------------------------------------------------------
  // PLATE_PATTERNS

  /** `\b\d{2}[A-Z]{lMin,lMax}\d{dMin,dMax}\b` */
  datatype Pattern = Pattern(lMin: nat, lMax: nat, dMin: nat, dMax: nat)

  /** `\b\d{2}[A-Z]{1,2}\d{4,6}\b`, as in 59AB95454 or 77X55040. */
  const P1 := Pattern(1, 2, 4, 6)
  /** `\b\d{2}[A-Z]\d{3,5}\b`, as in 51F1234. */
  const P2 := Pattern(1, 1, 3, 5)
  /** `PLATE_PATTERNS`, in the order they are tried. */
  const PlatePatterns := [P1, P2]

  predicate WellFormed(p: Pattern) { 1 <= p.lMin <= p.lMax && 1 <= p.dMin <= p.dMax }

  predicate IsWordChar(c: char) { IsUpperAscii(c) || IsLowerAscii(c) || IsDigit(c) || c == '_' }

  /** `\b` at position i: a word character on exactly one side. */
  predicate Boundary(s: string, i: int)
    requires 0 <= i <= |s|
  {
    (i > 0 && IsWordChar(s[i - 1])) != (i < |s| && IsWordChar(s[i]))
  }

  /** s[i..e] is two digits, l capital letters, then digits. */
  predicate Shape(s: string, i: int, l: int, e: int) {
    && 0 <= i && 0 <= l && i + 2 + l <= e <= |s|
    && IsDigit(s[i]) && IsDigit(s[i + 1])
    && (forall k :: i + 2 <= k < i + 2 + l ==> IsUpperAscii(s[k]))
    && (forall k :: i + 2 + l <= k < e ==> IsDigit(s[k]))
  }

  /** The pattern matches at i with l letters and d trailing digits. */
  predicate MatchWith(s: string, i: int, p: Pattern, l: int, d: int) {
    && 0 <= i
    && p.lMin <= l <= p.lMax && p.dMin <= d <= p.dMax
    && i + 2 + l + d <= |s|
    && Boundary(s, i) && Shape(s, i, l, i + 2 + l + d) && Boundary(s, i + 2 + l + d)
  }

  /** `pat.fullmatch(t)` */
  predicate FullMatch(t: string, p: Pattern) {
    exists l, d | p.lMin <= l <= p.lMax && p.dMin <= d <= p.dMax :: 2 + l + d == |t| && MatchWith(t, 0, p, l, d)
  }

  /** Some pattern of `PLATE_PATTERNS` matches all of t. */
  predicate PlateLike(t: string) { FullMatch(t, P1) || FullMatch(t, P2) }

  /** Backtracking over the digit run, longest first. */
  function TryDigits(s: string, i: int, p: Pattern, l: int, d: int): (r: Option<int>)
    decreases d - p.dMin + 1
    ensures r.Some? ==> MatchWith(s, i, p, l, r.value) && r.value <= d
    ensures r.Some? ==> forall d' :: r.value < d' <= d ==> !MatchWith(s, i, p, l, d')
    ensures r.None? ==> forall d' :: d' <= d ==> !MatchWith(s, i, p, l, d')
  {
    if d < p.dMin then None
    else if MatchWith(s, i, p, l, d) then Some(d)
    else TryDigits(s, i, p, l, d - 1)
  }

  /** Backtracking over the letter run, longest first. */
  function TryLetters(s: string, i: int, p: Pattern, l: int): (r: Option<(int, int)>)
    decreases l - p.lMin + 1
    ensures r.Some? ==> MatchWith(s, i, p, r.value.0, r.value.1) && r.value.0 <= l
    ensures r.Some? ==> forall l', d' :: r.value.0 < l' <= l ==> !MatchWith(s, i, p, l', d')
    ensures r.Some? ==> forall d' :: r.value.1 < d' ==> !MatchWith(s, i, p, r.value.0, d')
    ensures r.None? ==> forall l', d' :: l' <= l ==> !MatchWith(s, i, p, l', d')
  {
    if l < p.lMin then None
    else match TryDigits(s, i, p, l, p.dMax)
      case Some(d) => Some((l, d))
      case None => TryLetters(s, i, p, l - 1)
  }

  /** The match `re` finds at position i: (letters, digits), the first
      combination in backtracking order. */
  function MatchAt(s: string, i: int, p: Pattern): (r: Option<(int, int)>)
    ensures r.Some? ==> MatchWith(s, i, p, r.value.0, r.value.1)
    ensures r.None? ==> forall l, d :: !MatchWith(s, i, p, l, d)
  {
    TryLetters(s, i, p, p.lMax)
  }

  /** The leftmost position from i on where the pattern matches. */
  function SearchFrom(s: string, p: Pattern, i: nat): (r: Option<(nat, (int, int))>)
    decreases |s| + 1 - i
    ensures r.Some? ==> i <= r.value.0 <= |s| && MatchAt(s, r.value.0, p) == Some(r.value.1)
    ensures r.Some? ==> forall j :: i <= j < r.value.0 ==> MatchAt(s, j, p).None?
    ensures r.None? ==> forall j :: i <= j <= |s| ==> MatchAt(s, j, p).None?
  {
    if i > |s| then None
    else match MatchAt(s, i, p)
      case Some(m) => Some((i, m))
      case None => SearchFrom(s, p, i + 1)
  }

  /** `pat.search(s)` and `m.group(0)`. */
  function Search(s: string, p: Pattern): (r: Option<string>)
    ensures r.Some? ==> exists i, l, d :: MatchWith(s, i, p, l, d) && r.value == s[i..i + 2 + l + d]
    ensures r.Some? ==> exists i, l, d :: (MatchAt(s, i, p) == Some((l, d)) && 0 <= i && r.value == s[i..i + 2 + l + d] &&
                                         forall j :: 0 <= j < i ==> MatchAt(s, j, p).None?)
    ensures r.None? <==> forall i, l, d :: !MatchWith(s, i, p, l, d)
  {
    match SearchFrom(s, p, 0)
    case None =>
      assert forall i, l, d :: !MatchWith(s, i, p, l, d) by {
        forall i, l, d ensures !MatchWith(s, i, p, l, d) {
          if 0 <= i <= |s| {
            assert MatchAt(s, i, p).None?;
          }
        }
      }
      None
    case Some((i, (l, d))) =>
      assert MatchWith(s, i, p, l, d);
      Some(s[i..i + 2 + l + d])
  }

  // ---------------------------------------------------------------------
  // _extract_plate

  /** The fallback scan: windows of length L from 10 down to 7, each from
      the left, the first one some pattern matches in full. */
  function ScanWindows(s: string, L: int, i: nat): Option<string>
    requires 6 <= L <= 10
    decreases L, |s| - i
  {
    if L == 6 then None
    else if i + L <= |s| then
      if PlateLike(s[i..i + L]) then Some(s[i..i + L]) else ScanWindows(s, L, i + 1)
    else ScanWindows(s, L - 1, 0)
  }

  /** `_extract_plate` */
  function Extract(s: string): Option<string> {
    if s == [] then None
    else if Search(s, P1).Some? then Search(s, P1)
    else if Search(s, P2).Some? then Search(s, P2)
    else ScanWindows(s, 10, 0)
  }

  method ExtractPlate(normalized: string) returns (r: Option<string>)
    ensures r == Extract(normalized)
  {
    if normalized == [] {
      return None;
    }
    var n := 0;
    while n < |PlatePatterns|
      invariant 0 <= n <= |PlatePatterns|
      invariant n > 0 ==> Search(normalized, P1).None?
      invariant n > 1 ==> Search(normalized, P2).None?
    {
      var m := Search(normalized, PlatePatterns[n]);
      if m.Some? {
        assert n == 0 ==> m == Search(normalized, P1);
        assert n == 1 ==> m == Search(normalized, P2);
        return m;
      }
      n := n + 1;
    }
    r := ScanFallback(normalized);
  }

  /** The window scan of `_extract_plate`. */
  method ScanFallback(normalized: string) returns (r: Option<string>)
    ensures r == ScanWindows(normalized, 10, 0)
  {
    var L := 10;
    while L > 6
      invariant 6 <= L <= 10
      invariant ScanWindows(normalized, L, 0) == ScanWindows(normalized, 10, 0)
    {
      var i := 0;
      while i < if |normalized| - L + 1 < 0 then 0 else |normalized| - L + 1
        invariant 0 <= i
        invariant ScanWindows(normalized, L, i) == ScanWindows(normalized, 10, 0)
      {
        var chunk := normalized[i..i + L];
        if PlateLike(chunk) {
          assert ScanWindows(normalized, L, i) == Some(chunk);
          return Some(chunk);
        }
        assert ScanWindows(normalized, L, i) == ScanWindows(normalized, L, i + 1);
        i := i + 1;
      }
      assert ScanWindows(normalized, L, i) == ScanWindows(normalized, L - 1, 0);
      L := L - 1;
    }
    return None;
  }

  // ---------------------------------------------------------------------
  // Properties

  /** A window at (L2, i2) is scanned after (L, i). */
  predicate ScannedFrom(L: int, i: int, L2: int, i2: int) { L2 < L || (L2 == L && i2 >= i) }

  /** The window of length L at i is one the fallback accepts. */
  predicate Hit(s: string, L: int, i: int) {
    7 <= L <= 10 && 0 <= i && i + L <= |s| && PlateLike(s[i..i + L])
  }

  /** The scan returns the first accepted window in its order and nothing
      when it finds none. */
  lemma {:induction false} ScanWindowsFirstHit(s: string, L: int, i: nat)
    requires 6 <= L <= 10
    decreases L, |s| - i
    ensures ScanWindows(s, L, i).None? ==> forall L2, i2 :: ScannedFrom(L, i, L2, i2) ==> !Hit(s, L2, i2)
    ensures ScanWindows(s, L, i).Some? ==> exists L2, i2 ::
      && ScannedFrom(L, i, L2, i2) && Hit(s, L2, i2) && ScanWindows(s, L, i) == Some(s[i2..i2 + L2])
      && forall L3, i3 :: ScannedFrom(L, i, L3, i3) && (L3 > L2 || (L3 == L2 && i3 < i2)) ==> !Hit(s, L3, i3)
  {
    if L == 6 {
    } else if i + L <= |s| {
      if PlateLike(s[i..i + L]) {
        assert Hit(s, L, i);
      } else {
        ScanWindowsFirstHit(s, L, i + 1);
        assert !Hit(s, L, i);
        if ScanWindows(s, L, i).Some? {
          var L2, i2 :| && ScannedFrom(L, i + 1, L2, i2) && Hit(s, L2, i2) && ScanWindows(s, L, i + 1) == Some(s[i2..i2 + L2])
            && forall L3, i3 :: ScannedFrom(L, i + 1, L3, i3) && (L3 > L2 || (L3 == L2 && i3 < i2)) ==> !Hit(s, L3, i3);
          assert ScannedFrom(L, i, L2, i2);
        }
      }
    } else {
      ScanWindowsFirstHit(s, L - 1, 0);
      assert forall i2 :: i2 >= i ==> !Hit(s, L, i2);
      if ScanWindows(s, L, i).Some? {
        var L2, i2 :| && ScannedFrom(L - 1, 0, L2, i2) && Hit(s, L2, i2) && ScanWindows(s, L - 1, 0) == Some(s[i2..i2 + L2])
          && forall L3, i3 :: ScannedFrom(L - 1, 0, L3, i3) && (L3 > L2 || (L3 == L2 && i3 < i2)) ==> !Hit(s, L3, i3);
        assert ScannedFrom(L, i, L2, i2);
      }
    }
  }

  /** The fallback prefers longer windows, then the leftmost one, and its
      results are 7 to 10 characters long. */
  lemma FallbackLongestThenLeftmost(s: string)
    ensures ScanWindows(s, 10, 0).None? ==> forall L, i :: !Hit(s, L, i)
    ensures ScanWindows(s, 10, 0).Some? ==> exists L, i ::
      && Hit(s, L, i) && ScanWindows(s, 10, 0) == Some(s[i..i + L])
      && 7 <= |ScanWindows(s, 10, 0).value| <= 10
      && forall L3, i3 :: (L3 > L || (L3 == L && i3 < i)) ==> !Hit(s, L3, i3)
  {
    ScanWindowsFirstHit(s, 10, 0);
    assert forall L2, i2 :: Hit(s, L2, i2) ==> ScannedFrom(10, 0, L2, i2);
  }

  /** A match found by `search` is a full match of the text it returns. */
  lemma {:induction false} MatchIsFullMatch(s: string, i: int, p: Pattern, l: int, d: int)
    requires WellFormed(p) && MatchWith(s, i, p, l, d)
    ensures FullMatch(s[i..i + 2 + l + d], p)
  {
    var t := s[i..i + 2 + l + d];
    assert t[0] == s[i] && t[|t| - 1] == s[i + 1 + l + d];
    assert Shape(t, 0, l, |t|) by {
      forall k | 2 <= k < 2 + l ensures IsUpperAscii(t[k]) { assert t[k] == s[i + k]; }
      forall k | 2 + l <= k < |t| ensures IsDigit(t[k]) { assert t[k] == s[i + k]; }
    }
    assert MatchWith(t, 0, p, l, d);
  }

  /** Whatever `_extract_plate` returns is a piece of its input that one of
      the two patterns matches in full. */
  lemma ExtractIsMatchingSubstring(s: string)
    ensures s == [] ==> Extract(s).None?
    ensures Extract(s).Some? ==> exists i, j :: 0 <= i <= j <= |s| && Extract(s).value == s[i..j] && PlateLike(s[i..j])
  {
    if s != [] {
      if Search(s, P1).Some? {
        var i, l, d :| MatchWith(s, i, P1, l, d) && Search(s, P1).value == s[i..i + 2 + l + d];
        MatchIsFullMatch(s, i, P1, l, d);
      } else if Search(s, P2).Some? {
        var i, l, d :| MatchWith(s, i, P2, l, d) && Search(s, P2).value == s[i..i + 2 + l + d];
        MatchIsFullMatch(s, i, P2, l, d);
      } else {
        FallbackLongestThenLeftmost(s);
      }
    }
  }

  predicate AllPlateChars(s: string) { forall k :: 0 <= k < |s| ==> IsPlateChar(s[k]) }

  /** On text made of A-Z and 0-9, `\b` holds only at the two ends. */
  lemma BoundaryOnlyAtEnds(s: string, i: int)
    requires AllPlateChars(s) && s != [] && 0 <= i <= |s|
    ensures Boundary(s, i) <==> i == 0 || i == |s|
  {
    if 0 < i < |s| {
      assert IsPlateChar(s[i - 1]) && IsPlateChar(s[i]);
    } else if i == 0 {
      assert IsPlateChar(s[0]);
    } else {
      assert IsPlateChar(s[i - 1]);
    }
  }

  /** On such text a `search` either fails or returns all of it, and it
      returns all of it exactly when the pattern matches in full. */
  lemma {:induction false} SearchWholeOrNothing(s: string, p: Pattern)
    requires AllPlateChars(s) && s != [] && WellFormed(p)
    ensures Search(s, p).Some? ==> Search(s, p) == Some(s)
    ensures Search(s, p) == Some(s) <==> FullMatch(s, p)
  {
    if Search(s, p).Some? {
      var i, l, d :| MatchWith(s, i, p, l, d) && Search(s, p).value == s[i..i + 2 + l + d];
      BoundaryOnlyAtEnds(s, i);
      BoundaryOnlyAtEnds(s, i + 2 + l + d);
      assert i == 0 && i + 2 + l + d == |s|;
      assert s[0..|s|] == s;
      assert MatchWith(s, 0, p, l, d);
    }
    if FullMatch(s, p) {
      var l, d :| p.lMin <= l <= p.lMax && p.dMin <= d <= p.dMax && 2 + l + d == |s| && MatchWith(s, 0, p, l, d);
      assert MatchAt(s, 0, p).Some?;
      assert SearchFrom(s, p, 0).Some?;
    }
  }

  /** The pattern loop of `_extract_plate`. */
  function FirstPatternSearch(s: string): Option<string> {
    if Search(s, P1).Some? then Search(s, P1) else Search(s, P2)
  }

  /** On text of A-Z and 0-9 only, the pattern loop returns the whole input
      exactly when the whole input matches a pattern, and nothing else. */
  lemma PatternLoopOnCleanText(s: string)
    requires AllPlateChars(s) && s != []
    ensures FirstPatternSearch(s).Some? ==> FirstPatternSearch(s) == Some(s)
    ensures FirstPatternSearch(s) == Some(s) <==> PlateLike(s)
  {
    SearchWholeOrNothing(s, P1);
    SearchWholeOrNothing(s, P2);
  }

  /** No character of `s` is a capital letter. */
  predicate NoCapital(s: string) { forall k :: 0 <= k < |s| ==> !IsUpperAscii(s[k]) }

  /** Text without a capital letter, digits alone for instance, never
      matches either pattern: both need a series letter. */
  lemma {:induction false} NoCapitalNeverMatches(s: string)
    requires NoCapital(s)
    ensures forall i, p, l, d :: WellFormed(p) ==> !MatchWith(s, i, p, l, d)
  {
    forall i, p: Pattern, l, d | WellFormed(p) ensures !MatchWith(s, i, p, l, d) {
      if 0 <= i && i + 2 < |s| {
        assert !IsUpperAscii(s[i + 2]);
      }
    }
  }

  /** Text without a capital letter yields no plate. */
  lemma {:induction false} NoLetterNoPlate(s: string)
    requires NoCapital(s)
    ensures Extract(s).None?
  {
    assert WellFormed(P1) && WellFormed(P2);
    NoCapitalNeverMatches(s);
    forall L, i ensures !Hit(s, L, i) {
      if 7 <= L <= 10 && 0 <= i && i + L <= |s| {
        var t := s[i..i + L];
        assert NoCapital(t) by {
          forall k | 0 <= k < |t| ensures !IsUpperAscii(t[k]) { assert t[k] == s[i + k]; }
        }
        NoCapitalNeverMatches(t);
      }
    }
    FallbackLongestThenLeftmost(s);
  }

  /** So a plate whose series letter the map rewrites is never read back:
      here the D of 51D-123.45. */
  lemma SeriesLetterDIsLost(text: string)
    requires text == "51D-123.45"
    ensures Extract(NormalizeRawText(text)).None?
  {
    ConfusableLettersVanish(text);
    var t := NormalizeRawText(text);
    assert NoCapital(t) by {
      forall k | 0 <= k < |t| ensures !IsUpperAscii(t[k]) { assert IsDigit(t[k]); }
    }
    NoLetterNoPlate(t);
  }
}
