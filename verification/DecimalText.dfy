/** Fixed-point decimal text with six fractional digits, and words on a line. */
module DecimalText {
  import opened WhiteSpace
  import opened Wrappers

  predicate IsDigit(c: char) { '0' <= c <= '9' }

  function DigitChar(d: nat): (c: char)
    requires d < 10
    ensures IsDigit(c)
  {
    '0' + d as char
  }

  function DigitValue(c: char): (d: nat)
    requires IsDigit(c)
    ensures d < 10 && DigitChar(d) == c
  {
    (c - '0') as nat
  }

  function Digits(n: nat): (s: string)
    ensures s != []
  {
    if n < 10 then [DigitChar(n)] else Digits(n / 10) + [DigitChar(n % 10)]
  }

  predicate AllDigits(s: string) { forall i :: 0 <= i < |s| ==> IsDigit(s[i]) }

  function ValueOf(s: string): nat
    requires AllDigits(s)
  {
    if s == [] then 0 else 10 * ValueOf(s[..|s| - 1]) + DigitValue(s[|s| - 1])
  }

  /** Exactly `k` digits, the low ones of `n`. */
  function Padded(n: nat, k: nat): (s: string)
    ensures |s| == k
  {
    if k == 0 then [] else Padded(n / 10, k - 1) + [DigitChar(n % 10)]
  }

  function Pow10(k: nat): (p: nat)
    ensures p > 0
  {
    if k == 0 then 1 else 10 * Pow10(k - 1)
  }

  lemma {:induction false} ValueOfDigits(n: nat)
    ensures AllDigits(Digits(n)) && ValueOf(Digits(n)) == n
  {
    if n >= 10 {
      ValueOfDigits(n / 10);
      assert Digits(n)[..|Digits(n)| - 1] == Digits(n / 10);
    } else {
      assert ValueOf([]) == 0 && Digits(n)[..0] == [];
    }
  }

  lemma {:induction false} ValueOfPadded(n: nat, k: nat)
    requires n < Pow10(k)
    ensures AllDigits(Padded(n, k)) && ValueOf(Padded(n, k)) == n
  {
    if k > 0 {
      ValueOfPadded(n / 10, k - 1);
      assert Padded(n, k)[..k - 1] == Padded(n / 10, k - 1);
    }
  }

  const MICRO: nat := 1_000_000

  function PrintMicros(m: nat): string { Digits(m / MICRO) + "." + Padded(m % MICRO, 6) }

  /** Nearest multiple of one millionth, ties to even: fixed-point formatting with six decimals. */
  function RoundMicros(x: real): (m: int)
    ensures -0.5 <= m as real - x * MICRO as real <= 0.5
  {
    var y := x * MICRO as real;
    var f := y.Floor;
    var d := y - f as real;
    if d < 0.5 || (d == 0.5 && f % 2 == 0) then f else f + 1
  }

  predicate OnGrid(x: real) { RoundMicros(x) as real == x * MICRO as real }

  /** Nothing is rounded exactly when the number is a whole number of millionths. */
  lemma OnGridExactlyWhen(x: real)
    ensures OnGrid(x) <==> (x * 1_000_000.0).Floor as real == x * 1_000_000.0
  {
  }

  function FormatReal(x: real): string
    requires x >= 0.0
  {
    PrintMicros(RoundMicros(x))
  }

  function IndexOf(s: string, c: char): (i: nat)
    ensures i <= |s| && c !in s[..i] && (i < |s| ==> s[i] == c)
  {
    if s == [] || s[0] == c then 0 else
    var i := IndexOf(s[1..], c);
    assert s[..i + 1] == [s[0]] + s[1..][..i];
    i + 1
  }

  /** Unsigned decimal text: digits, and optionally a point and more digits, at least one digit in all. */
  function ParseUnsigned(s: string): Option<real> {
    var i := IndexOf(s, '.');
    var whole, part := s[..i], if i < |s| then s[i + 1..] else [];
    if |whole| + |part| == 0 || !AllDigits(whole) || !AllDigits(part) then None
    else Some(ValueOf(whole) as real + ValueOf(part) as real / Pow10(|part|) as real)
  }

  function ParseReal(s: string): Option<real> {
    if s != [] && s[0] == '-' then
      (match ParseUnsigned(s[1..]) case Some(x) => Some(-x) case None => None)
    else if s != [] && s[0] == '+' then ParseUnsigned(s[1..])
    else ParseUnsigned(s)
  }

  function ParseInt(s: string): Option<int> {
    var body := if s != [] && (s[0] == '-' || s[0] == '+') then s[1..] else s;
    if body == [] || !AllDigits(body) then None
    else
      var v: int := ValueOf(body);
      Some(if s[0] == '-' then -v else v)
  }

  lemma {:induction false} IndexOfPoint(whole: string, part: string)
    requires AllDigits(whole)
    ensures IndexOf(whole + "." + part, '.') == |whole|
  {
    if whole != [] {
      assert (whole + "." + part)[1..] == whole[1..] + "." + part;
      IndexOfPoint(whole[1..], part);
    }
  }

  lemma PointSplits(whole: string, part: string)
    ensures var s := whole + "." + part;
            |s| == |whole| + 1 + |part| && s[..|whole|] == whole && s[|whole| + 1..] == part
  {
  }

  lemma ParseUnsignedParts(whole: string, part: string)
    requires AllDigits(whole) && AllDigits(part) && whole != []
    ensures ParseUnsigned(whole + "." + part)
            == Some(ValueOf(whole) as real + ValueOf(part) as real / Pow10(|part|) as real)
  {
    hide ValueOf, Pow10, IndexOf, AllDigits;
    IndexOfPoint(whole, part);
    PointSplits(whole, part);
  }

  lemma ParseParts(whole: string, part: string)
    requires AllDigits(whole) && AllDigits(part) && whole != []
    ensures ParseReal(whole + "." + part)
            == Some(ValueOf(whole) as real + ValueOf(part) as real / Pow10(|part|) as real)
  {
    hide ValueOf, Pow10, ParseUnsigned;
    ParseUnsignedParts(whole, part);
    var s := whole + "." + part;
    assert s[0] == whole[0] && IsDigit(s[0]);
  }

  /** Printing a number of millionths and reading it back gives the same number. */
  lemma {:induction false} ParseUndoesPrint(m: nat)
    ensures ParseReal(PrintMicros(m)) == Some(m as real / MICRO as real)
    ensures IsWord(PrintMicros(m))
  {
    hide ParseReal, ValueOf, Digits, Padded, Pow10;
    ValueOfDigits(m / MICRO);
    SixDigits();
    ValueOfPadded(m % MICRO, 6);
    ParseParts(Digits(m / MICRO), Padded(m % MICRO, 6));
    FractionSum(m / MICRO, m % MICRO);
  }

  lemma SixDigits()
    ensures Pow10(6) == MICRO
  {
    assert Pow10(3) == 1000;
    assert Pow10(4) == 10 * Pow10(3);
    assert Pow10(5) == 10 * Pow10(4);
  }

  lemma FractionSum(q: nat, r: nat)
    ensures q as real + r as real / MICRO as real == (q * MICRO + r) as real / MICRO as real
  {
  }

  lemma ParseIntUndoesDigits(n: nat)
    ensures ParseInt(Digits(n)) == Some(n) && IsWord(Digits(n))
  {
    ValueOfDigits(n);
    assert IsDigit(Digits(n)[0]);
  }

  /** Reading back a formatted number misses the original by at most half a millionth. */
  lemma FormatError(x: real)
    requires x >= 0.0
    ensures ParseReal(FormatReal(x)).Some?
    ensures -0.000_000_5 <= ParseReal(FormatReal(x)).value - x <= 0.000_000_5
    ensures OnGrid(x) ==> ParseReal(FormatReal(x)).value == x
    ensures IsWord(FormatReal(x))
  {
    var m := RoundMicros(x);
    ParseUndoesPrint(m);
    assert m as real / MICRO as real * MICRO as real == m as real;
  }

  // ---- words ----

  predicate IsWord(s: string) { s != [] && forall i :: 0 <= i < |s| ==> !IsBlank(s[i]) }

  function WordEnd(s: string): (n: nat)
    ensures n <= |s|
  {
    if s == [] || IsBlank(s[0]) then 0 else 1 + WordEnd(s[1..])
  }

  /** The maximal runs of non-blank characters: splitting on whitespace. */
  function Words(s: string): seq<string>
    decreases |s|
  {
    if s == [] then []
    else if IsBlank(s[0]) then Words(s[1..])
    else [s[..WordEnd(s)]] + Words(s[WordEnd(s)..])
  }

  lemma {:induction false} WordEndOf(w: string, tail: string)
    requires forall i :: 0 <= i < |w| ==> !IsBlank(w[i])
    requires tail == [] || IsBlank(tail[0])
    ensures WordEnd(w + tail) == |w|
  {
    if w == [] {
      assert w + tail == tail;
    } else {
      assert (w + tail)[1..] == w[1..] + tail;
      WordEndOf(w[1..], tail);
    }
  }

  lemma WordsCons(w: string, rest: string)
    requires IsWord(w)
    ensures Words(w + " " + rest) == [w] + Words(rest)
    ensures Words(w) == [w]
  {
    var s := w + " " + rest;
    WordEndOf(w, " " + rest);
    assert s == w + (" " + rest);
    assert s[..|w|] == w && s[|w|..] == " " + rest && (" " + rest)[1..] == rest;
    WordEndOf(w, []);
    assert w + [] == w && w[..|w|] == w && w[|w|..] == [];
  }

  // ---- the notation ----

  /** Decimal notation, digit by digit: a number's text is that of its tenth part, and its last digit. */
  lemma {:induction false} DigitsAreDecimal(n: nat)
    ensures n < 10 ==> Digits(n) == ["0123456789"[n]]
    ensures n >= 10 ==> Digits(n) == Digits(n / 10) + ["0123456789"[n % 10]]
  {
    DigitNames(n % 10);
    if n < 10 { DigitNames(n); }
  }

  lemma DigitNames(d: nat)
    requires d < 10
    ensures DigitChar(d) == "0123456789"[d]
  {
  }

  /** Six digits after the point, whatever the number. */
  lemma {:induction false} PrintsSixDecimals(m: nat)
    ensures PrintMicros(m) == Digits(m / 1_000_000) + "." + PrintMicros(m)[|PrintMicros(m)| - 6..]
    ensures PrintMicros(m)[|PrintMicros(m)| - 6..] == Padded(m % 1_000_000, 6)
    ensures AllDigits(Padded(m % 1_000_000, 6)) && ValueOf(Padded(m % 1_000_000, 6)) == m % 1_000_000
  {
    SixDigits();
    ValueOfPadded(m % 1_000_000, 6);
  }

  /** A half is printed to the even neighbour. */
  lemma {:induction false} MicrosTieToEven(k: int)
    ensures RoundMicros((2 * k + 1) as real / 2_000_000.0) == if k % 2 == 0 then k else k + 1
  {
  }

  lemma ReadsWhole(whole: string)
    requires AllDigits(whole)
    ensures ParseUnsigned(whole) == if whole == "" then None else Some(ValueOf(whole) as real)
  {
    NoFraction();
    hide ValueOf, Pow10, IndexOf, AllDigits;
    NoPoint(whole);
    assert whole[..|whole|] == whole;
  }

  lemma ReadsPoint(whole: string, part: string)
    requires AllDigits(whole) && AllDigits(part)
    ensures ParseUnsigned(whole + "." + part)
         == if |whole| + |part| == 0 then None
            else Some(ValueOf(whole) as real + ValueOf(part) as real / Pow10(|part|) as real)
  {
    hide ValueOf, Pow10, IndexOf, AllDigits;
    IndexOfPoint(whole, part);
    PointSplits(whole, part);
  }

  /** What the readers accept: an optional sign, then digits with at most one point among them, at least one digit in
      all. */
  lemma {:induction false} ReadsSignedDecimals(whole: string, part: string)
    requires AllDigits(whole) && AllDigits(part)
    ensures ParseReal(whole) == if whole == "" then None else Some(ValueOf(whole) as real)
    ensures var x := ParseReal(whole + "." + part);
            && x == (if |whole| + |part| == 0 then None
                     else Some(ValueOf(whole) as real + ValueOf(part) as real / Pow10(|part|) as real))
            && ParseReal("+" + (whole + "." + part)) == x
            && ParseReal("-" + (whole + "." + part)) == (if x.None? then None else Some(-x.value))
  {
    hide ValueOf, Pow10, ParseUnsigned;
    ReadsWhole(whole);
    ReadsPoint(whole, part);
    var s := whole + "." + part;
    AfterSign(s);
    FirstIsNoSign(whole, part);
  }

  lemma FirstIsNoSign(whole: string, part: string)
    requires AllDigits(whole)
    ensures var s := whole + "." + part; s[0] != '-' && s[0] != '+'
    ensures whole != "" ==> whole[0] != '-' && whole[0] != '+'
  {
    if whole != "" {
      assert IsDigit(whole[0]);
      assert (whole + "." + part)[0] == whole[0];
    }
  }

  lemma {:induction false} ReadsSignedIntegers(s: string)
    requires AllDigits(s)
    ensures ParseInt(s) == if s == "" then None else Some(ValueOf(s))
    ensures ParseInt("-" + s) == if s == "" then None else Some(0 - ValueOf(s))
    ensures ParseInt("+" + s) == ParseInt(s)
  {
    hide ValueOf;
    AfterSign(s);
    if s != "" { assert IsDigit(s[0]); }
  }

  lemma NoFraction()
    ensures AllDigits("") && ValueOf("") == 0 && Pow10(0) == 1
  {
  }

  lemma AfterSign(s: string)
    ensures ("+" + s)[1..] == s && ("-" + s)[1..] == s && ("+" + s)[0] == '+' && ("-" + s)[0] == '-'
  {
  }

  lemma {:induction false} NoPoint(s: string)
    requires AllDigits(s)
    ensures IndexOf(s, '.') == |s|
  {
    if s != "" { NoPoint(s[1..]); }
  }
}
