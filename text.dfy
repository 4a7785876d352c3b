/** The few Python `str` operations the gate code relies on: `strip()`,
    `split()`, `upper()`, `lower()`, digit tests, `str(n)` and the `:06d`
    format.  Case mapping is ASCII only (see README). */
module Text {

  /** Python's `str.isspace()`: the characters `strip()` and `split()` remove. */
  predicate IsSpace(c: char) {
    ('\t' <= c <= '\r') || ('\U{1c}' <= c <= ' ') || c == '\U{85}' || c == '\U{a0}'
    || c == '\U{1680}' || ('\U{2000}' <= c <= '\U{200a}') || c == '\U{2028}' || c == '\U{2029}'
    || c == '\U{202f}' || c == '\U{205f}' || c == '\U{3000}'
  }

  predicate IsDigit(c: char) { '0' <= c <= '9' }
  predicate IsUpperAscii(c: char) { 'A' <= c <= 'Z' }
  predicate IsLowerAscii(c: char) { 'a' <= c <= 'z' }

  predicate AllDigits(s: string) { forall k :: 0 <= k < |s| ==> IsDigit(s[k]) }
  predicate NoSpace(s: string) { forall k :: 0 <= k < |s| ==> !IsSpace(s[k]) }
  predicate Blank(s: string) { forall k :: 0 <= k < |s| ==> IsSpace(s[k]) }

  /** Number of white-space characters at the front of `s`. */
  function LeadingSpace(s: string): (n: nat)
    ensures n <= |s|
  {
    if s != [] && IsSpace(s[0]) then 1 + LeadingSpace(s[1..]) else 0
  }

  /** The front run is white space and ends at a non-space or at the end. */
  lemma {:induction false} LeadingSpaceRun(s: string)
    ensures Blank(s[..LeadingSpace(s)])
    ensures LeadingSpace(s) == |s| || !IsSpace(s[LeadingSpace(s)])
  {
    if s != [] && IsSpace(s[0]) {
      LeadingSpaceRun(s[1..]);
      assert s[..LeadingSpace(s)] == [s[0]] + s[1..][..LeadingSpace(s[1..])];
    }
  }

  /** Number of white-space characters at the end of `s`. */
  function TrailingSpace(s: string): (n: nat)
    ensures n <= |s|
  {
    if s != [] && IsSpace(s[|s| - 1]) then 1 + TrailingSpace(s[..|s| - 1]) else 0
  }

  lemma {:induction false} TrailingSpaceRun(s: string)
    ensures Blank(s[|s| - TrailingSpace(s)..])
    ensures TrailingSpace(s) == |s| || !IsSpace(s[|s| - TrailingSpace(s) - 1])
  {
    if s != [] && IsSpace(s[|s| - 1]) {
      var t := s[..|s| - 1];
      var n := TrailingSpace(t);
      TrailingSpaceRun(t);
      assert TrailingSpace(s) == n + 1;
      var tail := s[|s| - (n + 1)..];
      forall k | 0 <= k < |tail| ensures IsSpace(tail[k]) {
        if k < n {
          assert tail[k] == t[|t| - n..][k];
        } else {
          assert tail[k] == s[|s| - 1];
        }
      }
      if n + 1 < |s| {
        assert s[|s| - (n + 1) - 1] == t[|t| - n - 1];
      }
    }
  }

  /** `s.lstrip()` */
  function StripLeft(s: string): string { s[LeadingSpace(s)..] }

  /** `s.rstrip()` */
  function StripRight(s: string): string { s[..|s| - TrailingSpace(s)] }

  /** `s.strip()` */
  function Strip(s: string): string { StripRight(StripLeft(s)) }

  /** `strip()` leaves the longest infix that neither starts nor ends with
      white space: what it drops at either end is white space. */
  lemma StripEnds(s: string)
    ensures |Strip(s)| <= |s|
    ensures Strip(s) == [] || (!IsSpace(Strip(s)[0]) && !IsSpace(Strip(s)[|Strip(s)| - 1]))
    ensures Blank(s[..LeadingSpace(s)])
    ensures Blank(StripLeft(s)[|StripLeft(s)| - TrailingSpace(StripLeft(s))..])
  {
    var l := StripLeft(s);
    LeadingSpaceRun(s);
    TrailingSpaceRun(l);
    if Strip(s) != [] {
      assert Strip(s)[0] == l[0] == s[LeadingSpace(s)];
    }
  }

  /** Stripping only drops characters. */
  lemma StripFrom(s: string)
    ensures forall c :: c in Strip(s) ==> c in s
  {
    var i := LeadingSpace(s);
    var l := s[i..];
    var r := l[..|l| - TrailingSpace(l)];
    forall c | c in r ensures c in s {
      var k :| 0 <= k < |r| && r[k] == c;
      assert s[i + k] == c;
    }
  }

  lemma {:induction false} StripNoSpace(s: string)
    requires NoSpace(s)
    ensures Strip(s) == s
  {
    if s != [] {
      assert !IsSpace(s[|s| - 1]);
    }
  }

  /** Stripping a second time changes nothing. */
  lemma StripIdempotent(s: string)
    ensures Strip(Strip(s)) == Strip(s)
  {
    StripEnds(s);
    var r := Strip(s);
    if r != [] {
      assert LeadingSpace(r) == 0;
      assert TrailingSpace(r) == 0;
    }
  }

  /** The string is empty after `strip()` exactly when it is all white space. */
  lemma {:induction false} StripEmptyIffBlank(s: string)
    ensures Strip(s) == [] <==> Blank(s)
  {
    var l := StripLeft(s);
    LeadingSpaceRun(s);
    TrailingSpaceRun(l);
    if Strip(s) == [] {
      var i := LeadingSpace(s);
      assert l[|l| - TrailingSpace(l)..] == l;
      assert i == |s|;
      assert s[..i] == s;
    } else {
      assert !IsSpace(s[LeadingSpace(s)]);
    }
  }

  /** Length of the run of non-white-space characters at the front of `s`. */
  function WordLength(s: string): (n: nat)
    ensures n <= |s|
    ensures s != [] && !IsSpace(s[0]) ==> n >= 1
  {
    if s == [] || IsSpace(s[0]) then 0 else WordLength(s[1..]) + 1
  }

  /** The run holds no white space and ends at white space or the end. */
  lemma {:induction false} WordHasNoSpace(s: string)
    ensures NoSpace(s[..WordLength(s)])
    ensures WordLength(s) == |s| || IsSpace(s[WordLength(s)])
  {
    if s != [] && !IsSpace(s[0]) {
      var n := WordLength(s);
      WordHasNoSpace(s[1..]);
      assert s[..n] == [s[0]] + s[1..][..n - 1];
    }
  }

  /** Python's `s.split()` with no separator: the maximal runs of
      non-white-space characters, in order. */
  function Split(s: string): (ws: seq<string>)
    decreases |s|
  {
    var t := StripLeft(s);
    if t == [] then []
    else
      LeadingSpaceRun(s);
      var n := WordLength(t);
      [t[..n]] + Split(t[n..])
  }

  /** Every word is non-empty and free of white space. */
  predicate Words(ws: seq<string>) {
    forall k :: 0 <= k < |ws| ==> ws[k] != [] && NoSpace(ws[k])
  }

  lemma WordsCons(w: string, ws: seq<string>)
    requires w != [] && NoSpace(w) && Words(ws)
    ensures Words([w] + ws)
  {
    forall k | 0 < k < |[w] + ws| ensures ([w] + ws)[k] == ws[k - 1] { }
  }

  /** The words `split()` finds are non-empty and free of white space. */
  lemma {:induction false} SplitWords(s: string)
    ensures Words(Split(s))
    decreases |s|
  {
    var t := StripLeft(s);
    if t != [] {
      LeadingSpaceRun(s);
      var n := WordLength(t);
      WordHasNoSpace(t);
      SplitWords(t[n..]);
      WordsCons(t[..n], Split(t[n..]));
    }
  }

  /** `split()` finds no word exactly in a blank string. */
  lemma SplitEmptyIffBlank(s: string)
    ensures Split(s) == [] <==> Blank(s)
  {
    var t := StripLeft(s);
    LeadingSpaceRun(s);
    if t == [] {
      assert s[..LeadingSpace(s)] == s;
    } else {
      assert !IsSpace(s[LeadingSpace(s)]);
    }
  }

  function Concat(ws: seq<string>): string {
    if ws == [] then [] else ws[0] + Concat(ws[1..])
  }

  predicate NotSpace(c: char) { !IsSpace(c) }

  /** A blank string filters to nothing when white space is dropped. */
  lemma {:induction false} FilterBlank(s: string)
    requires Blank(s)
    ensures Filter(s, NotSpace) == []
  {
    if s != [] {
      assert Blank(s[1..]) by {
        forall k | 0 <= k < |s[1..]| ensures IsSpace(s[1..][k]) {
          assert s[1..][k] == s[k + 1];
        }
      }
      FilterBlank(s[1..]);
    }
  }

  /** `split()` keeps every non-white-space character, in order: joining
      the words gives the text with its white space removed. */
  lemma {:induction false} SplitConcat(s: string)
    ensures Concat(Split(s)) == Filter(s, NotSpace)
    decreases |s|
  {
    var i := LeadingSpace(s);
    var t := StripLeft(s);
    LeadingSpaceRun(s);
    assert s == s[..i] + t;
    FilterConcat(s[..i], t, NotSpace);
    FilterBlank(s[..i]);
    if t != [] {
      var n := WordLength(t);
      WordHasNoSpace(t);
      assert t == t[..n] + t[n..];
      FilterConcat(t[..n], t[n..], NotSpace);
      SplitConcat(t[n..]);
      var ws := [t[..n]] + Split(t[n..]);
      assert ws[0] == t[..n] && ws[1..] == Split(t[n..]);
    }
  }

  /** The words joined with one space each, the inverse of `split()`. */
  function Join(ws: seq<string>): string {
    if ws == [] then []
    else if |ws| == 1 then ws[0]
    else ws[0] + " " + Join(ws[1..])
  }

  lemma {:induction false} WordLengthOf(w: string, r: string)
    requires NoSpace(w)
    requires r == [] || IsSpace(r[0])
    ensures WordLength(w + r) == |w|
  {
    if w != [] {
      assert (w + r)[1..] == w[1..] + r;
      WordLengthOf(w[1..], r);
    } else {
      assert w + r == r;
    }
  }

  /** A word followed by white space or the end is split off whole. */
  lemma SplitWordThen(w: string, r: string)
    requires w != [] && NoSpace(w)
    requires r == [] || IsSpace(r[0])
    ensures Split(w + r) == [w] + Split(r)
  {
    assert LeadingSpace(w + r) == 0;
    assert StripLeft(w + r) == w + r;
    WordLengthOf(w, r);
    assert (w + r)[..|w|] == w && (w + r)[|w|..] == r;
  }

  /** One leading space changes nothing for a text that starts with a word. */
  lemma SplitSkipsSpace(j: string)
    requires j != [] && !IsSpace(j[0])
    ensures Split(" " + j) == Split(j)
  {
    assert (" " + j)[1..] == j;
    assert LeadingSpace(" " + j) == 1;
    assert StripLeft(" " + j) == j;
    assert StripLeft(j) == j;
  }

  /** Splitting words joined by single spaces gives back those words: the
      words of `split()` are the maximal runs between white space. */
  lemma {:induction false} SplitJoin(ws: seq<string>)
    requires Words(ws)
    ensures Split(Join(ws)) == ws
  {
    if ws == [] {
      assert LeadingSpace([]) == 0;
    } else if |ws| == 1 {
      SplitWordThen(ws[0], []);
      assert ws[0] + [] == ws[0];
      assert LeadingSpace([]) == 0;
      assert Split([]) == [];
    } else {
      var rest := ws[1..];
      assert Words(rest) by {
        forall k | 0 <= k < |rest| ensures rest[k] != [] && NoSpace(rest[k]) {
          assert rest[k] == ws[k + 1];
        }
      }
      SplitJoin(rest);
      var j := Join(rest);
      assert j != [] && !IsSpace(j[0]) by {
        JoinStartsWithWord(rest);
      }
      assert Join(ws) == ws[0] + (" " + j);
      SplitWordThen(ws[0], " " + j);
      SplitSkipsSpace(j);
      assert [ws[0]] + rest == ws;
    }
  }

  /** A non-empty join starts with the first character of the first word. */
  lemma JoinStartsWithWord(ws: seq<string>)
    requires ws != [] && Words(ws)
    ensures Join(ws) != [] && Join(ws)[0] == ws[0][0]
  {
  }

  function UpperChar(c: char): char {
    if IsLowerAscii(c) then (c as int - 32) as char else c
  }

  function LowerChar(c: char): char {
    if IsUpperAscii(c) then (c as int + 32) as char else c
  }

  /** `s.upper()` on ASCII letters */
  function Upper(s: string): (r: string)
    ensures |r| == |s| && forall k :: 0 <= k < |s| ==> r[k] == UpperChar(s[k])
  {
    seq(|s|, k requires 0 <= k < |s| => UpperChar(s[k]))
  }

  /** `s.lower()` on ASCII letters */
  function Lower(s: string): (r: string)
    ensures |r| == |s| && forall k :: 0 <= k < |s| ==> r[k] == LowerChar(s[k])
  {
    seq(|s|, k requires 0 <= k < |s| => LowerChar(s[k]))
  }

  /** The elements of `s` (characters of a string, rows of a table) that
      satisfy `keep`, in order. */
  function Filter<T>(s: seq<T>, keep: T -> bool): (r: seq<T>)
    ensures |r| <= |s|
    ensures forall k :: 0 <= k < |r| ==> keep(r[k])
    ensures (forall k :: 0 <= k < |s| ==> keep(s[k])) ==> r == s
  {
    if s == [] then [] else (if keep(s[0]) then [s[0]] else []) + Filter(s[1..], keep)
  }

  /** Filtering works character by character: a concatenation filters to
      the concatenation of the parts. */
  lemma {:induction false} FilterConcat<T>(a: seq<T>, b: seq<T>, keep: T -> bool)
    ensures Filter(a + b, keep) == Filter(a, keep) + Filter(b, keep)
  {
    if a == [] {
      assert a + b == b;
    } else {
      assert (a + b)[1..] == a[1..] + b;
      FilterConcat(a[1..], b, keep);
    }
  }

  /** A single element is kept exactly when it satisfies `keep`. */
  lemma FilterOne<T>(c: T, keep: T -> bool)
    ensures Filter([c], keep) == if keep(c) then [c] else []
  {
    assert [c][1..] == [];
  }

  /** Filtering only drops elements. */
  lemma {:induction false} FilterFrom<T>(s: seq<T>, keep: T -> bool)
    ensures forall c :: c in Filter(s, keep) ==> c in s
  {
    if s != [] {
      FilterFrom(s[1..], keep);
      assert forall c :: c in s[1..] ==> c in s;
    }
  }

  /** Filtering drops only elements that fail `keep`. */
  lemma {:induction false} FilterKeeps<T>(s: seq<T>, keep: T -> bool)
    ensures forall c :: c in s && keep(c) ==> c in Filter(s, keep)
  {
    if s != [] {
      FilterKeeps(s[1..], keep);
      assert forall c :: c in s ==> c == s[0] || c in s[1..];
    }
  }

  /** Lower-casing works character by character. */
  lemma LowerConcat(a: string, b: string)
    ensures Lower(a + b) == Lower(a) + Lower(b)
  {
  }

  /** `s[-n:]` for `0 <= n`: the last `n` characters, or all of `s`. */
  function Last(s: string, n: nat): (r: string)
    ensures |r| == if |s| < n then |s| else n
    ensures r == s[|s| - |r|..]
  {
    if |s| <= n then s else s[|s| - n..]
  }

  // ---------------------------------------------------------------
  // Decimal numerals: str(n), int(s) and the `:06d` format
  // ---------------------------------------------------------------

  function DigitChar(d: nat): char
    requires d < 10
  {
    ('0' as int + d) as char
  }

  function DigitValue(c: char): nat
    requires IsDigit(c)
  {
    c as int - '0' as int
  }

  /** `int(s)` for a string of ASCII digits (empty reads as 0). */
  function DecimalValue(s: string): nat
    requires AllDigits(s)
  {
    if s == [] then 0 else DecimalValue(s[..|s| - 1]) * 10 + DigitValue(s[|s| - 1])
  }

  /** `str(n)` for a natural number. */
  function NatToString(n: nat): (r: string)
    ensures |r| >= 1 && AllDigits(r)
    ensures |r| > 1 ==> r[0] != '0'
  {
    if n < 10 then [DigitChar(n)] else NatToString(n / 10) + [DigitChar(n % 10)]
  }

  /** Reading back what `str(n)` printed gives `n`. */
  lemma {:induction false} NatToStringRoundTrip(n: nat)
    ensures DecimalValue(NatToString(n)) == n
  {
    if n >= 10 {
      var r := NatToString(n);
      assert r[..|r| - 1] == NatToString(n / 10);
      NatToStringRoundTrip(n / 10);
    }
  }

  lemma NatToStringInjective(a: nat, b: nat)
    requires NatToString(a) == NatToString(b)
    ensures a == b
  {
    NatToStringRoundTrip(a);
    NatToStringRoundTrip(b);
  }

  /** `str(n)` has at most six characters below one million. */
  lemma {:induction false} NatToStringShort(n: nat, width: nat)
    requires 1 <= width && n < Pow10(width)
    ensures |NatToString(n)| <= width
  {
    if n >= 10 {
      assert Pow10(1) == 10;
      NatToStringShort(n / 10, width - 1);
    }
  }

  function Pow10(k: nat): (p: nat)
    ensures p >= 1
  {
    if k == 0 then 1 else 10 * Pow10(k - 1)
  }

  function Zeros(k: nat): (z: string)
    ensures |z| == k && AllDigits(z)
    ensures forall i :: 0 <= i < k ==> z[i] == '0'
  {
    if k == 0 then [] else Zeros(k - 1) + ['0']
  }

  /** Leading zeros do not change the value of a numeral. */
  lemma {:induction false} LeadingZeros(k: nat, s: string)
    requires AllDigits(s)
    ensures AllDigits(Zeros(k) + s) && DecimalValue(Zeros(k) + s) == DecimalValue(s)
  {
    var t := Zeros(k) + s;
    if s == [] {
      assert t == Zeros(k);
      if k > 0 {
        assert t[..|t| - 1] == Zeros(k - 1);
        LeadingZeros(k - 1, []);
        assert Zeros(k - 1) + [] == Zeros(k - 1);
      }
    } else {
      assert t[..|t| - 1] == Zeros(k) + s[..|s| - 1];
      LeadingZeros(k, s[..|s| - 1]);
    }
  }

  /** Python's `f"{n:0{width}d}"`: `str(n)` left-padded with zeros to `width`. */
  function ZeroPad(n: nat, width: nat): (r: string)
    ensures AllDigits(r) && |r| >= width
  {
    var s := NatToString(n);
    if |s| < width then Zeros(width - |s|) + s else s
  }
}
