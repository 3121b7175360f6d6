/**
 * The option file: lines `key type value` read into three independent maps,
 * one per value type, and typed lookups that fall back to a default.
 */
module OptionStore {
  import opened Wrappers
  import opened Decimal

  // ---------------------------------------------------------------------
  // Whitespace-delimited words, as `std::istream >> std::string` reads them
  // ---------------------------------------------------------------------

  /** The characters `isspace` accepts in the "C" locale. */
  predicate IsSpace(c: char) {
    c == ' ' || c == '\t' || c == '\n' || c == '\r' || c as int == 0x0B || c as int == 0x0C
  }

  predicate NoSpace(s: string) { forall i :: 0 <= i < |s| ==> !IsSpace(s[i]) }

  predicate AllSpace(s: string) { forall i :: 0 <= i < |s| ==> IsSpace(s[i]) }

  /** The length of the leading run of non-space characters of `s`. */
  function RunLength(s: string): (n: nat)
    ensures n <= |s| && NoSpace(s[..n]) && (n < |s| ==> IsSpace(s[n]))
  {
    if s == [] || IsSpace(s[0]) then 0 else 1 + RunLength(s[1..])
  }

  /** The length of the leading run of whitespace of `s`. */
  function SpaceRun(s: string): (k: nat)
    ensures k <= |s| && AllSpace(s[..k]) && (k < |s| ==> !IsSpace(s[k]))
  {
    if s == [] || !IsSpace(s[0]) then 0 else 1 + SpaceRun(s[1..])
  }

  /**
   * One extraction `stream >> word`: leading whitespace is skipped, then the
   * longest run of non-space characters is taken; the second component is
   * what is left of the stream. When only whitespace is left the extraction
   * fails and `word` stays empty.
   */
  function NextWord(s: string): (r: (string, string))
    ensures r.1 == [] || IsSpace(r.1[0])
    ensures |r.0| + |r.1| <= |s|
  {
    var rest := s[SpaceRun(s)..];
    var n := RunLength(rest);
    (rest[..n], rest[n..])
  }

  /**
   * The word taken has no space in it and ends where a space or the line
   * ends; skipped spaces, word and remainder make up the whole input.
   */
  lemma NextWordShape(s: string)
    ensures var r := NextWord(s);
      && NoSpace(r.0) && (r.1 == [] || IsSpace(r.1[0]))
      && s[SpaceRun(s)..] == r.0 + r.1
      && (r.0 == [] ==> AllSpace(s) && r.1 == [])
  {
    NextWordSplits(s);
    NextWordFailsOnBlank(s);
  }

  lemma NextWordSplits(s: string)
    ensures var r := NextWord(s); s[SpaceRun(s)..] == r.0 + r.1
  {
    var rest := s[SpaceRun(s)..];
    var n := RunLength(rest);
    assert rest == rest[..n] + rest[n..];
  }

  lemma NextWordFailsOnBlank(s: string)
    ensures NextWord(s).0 == [] ==> AllSpace(s) && NextWord(s).1 == []
  {
    var k := SpaceRun(s);
    if RunLength(s[k..]) == 0 {
      assert k == |s|;
      assert s[..k] == s;
    }
  }

  /**
   * Reference definition of the words of a line: split at every whitespace
   * character, then drop the empty pieces.
   */
  function Pieces(s: string): (ps: seq<string>)
    ensures |ps| >= 1
  {
    if s == [] then [""]
    else if IsSpace(s[0]) then [""] + Pieces(s[1..])
    else var p := Pieces(s[1..]); [[s[0]] + p[0]] + p[1..]
  }

  function NonEmpty(ps: seq<string>): seq<string> {
    if ps == [] then []
    else (if ps[0] == [] then [] else [ps[0]]) + NonEmpty(ps[1..])
  }

  function Words(s: string): seq<string> { NonEmpty(Pieces(s)) }

  /** The first piece is the leading non-space run; the rest restart after the space that ends it. */
  lemma {:induction false} PiecesSplit(s: string)
    ensures Pieces(s)[0] == s[..RunLength(s)]
    ensures RunLength(s) == |s| ==> |Pieces(s)| == 1
    ensures RunLength(s) < |s| ==> Pieces(s)[1..] == Pieces(s[RunLength(s) + 1..])
  {
    if s == [] {
      assert Pieces(s) == [""];
    } else if IsSpace(s[0]) {
      assert RunLength(s) == 0;
      assert Pieces(s) == [""] + Pieces(s[1..]);
    } else {
      var n := RunLength(s);
      PiecesStep(s);
      PiecesSplit(s[1..]);
      ConsSlices(s, n);
    }
  }

  /** One character of a word joins the first piece of the rest of the line. */
  lemma PiecesStep(s: string)
    requires s != [] && !IsSpace(s[0])
    ensures var p, q := Pieces(s[1..]), Pieces(s);
      && RunLength(s) == 1 + RunLength(s[1..])
      && q[0] == [s[0]] + p[0] && q[1..] == p[1..] && |q| == |p|
  {
  }

  lemma {:induction false} ConsSlices(s: string, n: nat)
    requires 1 <= n <= |s|
    ensures [s[0]] + s[1..][..n - 1] == s[..n]
    ensures n < |s| ==> s[1..][n - 1 + 1..] == s[n + 1..]
  {
  }

  lemma {:induction false} NonEmptyConcat(a: seq<string>, b: seq<string>)
    ensures NonEmpty(a + b) == NonEmpty(a) + NonEmpty(b)
  {
    if a == [] {
      assert a + b == b;
    } else {
      var head := if a[0] == [] then [] else [a[0]];
      calc {
        NonEmpty(a + b);
        { assert (a + b)[0] == a[0]; }
        head + NonEmpty((a + b)[1..]);
        { assert (a + b)[1..] == a[1..] + b; }
        head + NonEmpty(a[1..] + b);
        { NonEmptyConcat(a[1..], b); }
        head + (NonEmpty(a[1..]) + NonEmpty(b));
        NonEmpty(a) + NonEmpty(b);
      }
    }
  }

  /** A word extraction takes exactly the first word of the line and leaves the others. */
  lemma {:induction false} NextWordIsFirstWord(s: string)
    ensures var r := NextWord(s);
      Words(s) == (if r.0 == [] then [] else [r.0] + Words(r.1))
    decreases |s|
  {
    if s == [] {
    } else if IsSpace(s[0]) {
      LeadingSpaceSkipped(s);
      NextWordIsFirstWord(s[1..]);
    } else {
      LeadingWordTaken(s);
    }
  }

  /** A leading space changes neither the words nor the extraction. */
  lemma LeadingSpaceSkipped(s: string)
    requires s != [] && IsSpace(s[0])
    ensures Words(s) == Words(s[1..]) && NextWord(s) == NextWord(s[1..])
  {
    assert SpaceRun(s) == 1 + SpaceRun(s[1..]);
    assert s[SpaceRun(s)..] == s[1..][SpaceRun(s[1..])..];
    assert Pieces(s) == [""] + Pieces(s[1..]);
    NonEmptyConcat([""], Pieces(s[1..]));
  }

  /** When the line starts with a word, the extraction takes it whole and the words go on after it. */
  lemma {:induction false} LeadingWordTaken(s: string)
    requires s != [] && !IsSpace(s[0])
    ensures var n := RunLength(s);
      && NextWord(s) == (s[..n], s[n..]) && s[..n] != []
      && Words(s) == [s[..n]] + Words(s[n..])
  {
    var n := RunLength(s);
    assert SpaceRun(s) == 0 && s[0..] == s;
    assert s[..n][0] == s[0];
    WordsAfterFirst(s);
  }

  lemma {:induction false} WordsAfterFirst(s: string)
    requires s != [] && !IsSpace(s[0])
    ensures Words(s) == [s[..RunLength(s)]] + Words(s[RunLength(s)..])
  {
    var n := RunLength(s);
    var ps := Pieces(s);
    PiecesSplit(s);
    assert n >= 1 && ps[0] == s[..n] && ps[0][0] == s[0];
    assert ps == [ps[0]] + ps[1..];
    NonEmptyConcat([ps[0]], ps[1..]);
    assert NonEmpty([ps[0]]) == [ps[0]];
    assert Words(s) == [s[..n]] + NonEmpty(ps[1..]);
    if n < |s| {
      LeadingSpaceSkipped(s[n..]);
      assert s[n..][1..] == s[n + 1..];
      assert NonEmpty(ps[1..]) == Words(s[n + 1..]);
    } else {
      assert ps[1..] == [] && s[n..] == [];
      assert Words(s[n..]) == NonEmpty([""]) == [];
    }
  }

  // ---------------------------------------------------------------------
  // Numbers, as `std::istream >> float` and `>> int` read them
  // ---------------------------------------------------------------------

  /** The length of the leading run of decimal digits of `s`. */
  function DigitRun(s: string): (n: nat)
    ensures n <= |s| && AllDigits(s[..n]) && (n < |s| ==> !IsDigit(s[n]))
  {
    if s == [] || !IsDigit(s[0]) then 0 else 1 + DigitRun(s[1..])
  }

  function SignLength(s: string): nat {
    if s != [] && (s[0] == '+' || s[0] == '-') then 1 else 0
  }

  /**
   * `>> int` on a word: an optional sign and at least one digit. A failed
   * extraction stores 0 and an out-of-range one the nearest 32-bit limit.
   */
  function ParseInt(w: string): (v: int)
    ensures INT32_MIN <= v <= INT32_MAX
    ensures DigitRun(w[SignLength(w)..]) == 0 ==> v == 0
  {
    var sign := SignLength(w);
    var n := DigitRun(w[sign..]);
    if n == 0 then 0
    else
      var magnitude := DigitsValue(w[sign..][..n]);
      var value: int := if sign == 1 && w[0] == '-' then -(magnitude as int) else magnitude;
      if value < INT32_MIN then INT32_MIN else if value > INT32_MAX then INT32_MAX else value
  }

  /**
   * `>> float` on a word: an optional sign, digits, an optional point and
   * fraction digits. A failed extraction, with no digit on either side of
   * the point, stores 0, which is also what the empty digit runs add up to.
   */
  function ParseFloat(w: string): (r: real)
    ensures SignLength(w) == 1 && w[0] == '-' ==> r <= 0.0
    ensures !(SignLength(w) == 1 && w[0] == '-') ==> r >= 0.0
  {
    var sign := SignLength(w);
    var magnitude := Magnitude(w[sign..]);
    if sign == 1 && w[0] == '-' then -magnitude else magnitude
  }

  lemma FractionBelowOne(x: nat, p: nat)
    requires x < p
    ensures 0.0 <= x as real / p as real < 1.0
  {
  }

  /** The unsigned part: the leading digits, then a fraction if a point follows them. */
  function Magnitude(body: string): (r: real)
    ensures var whole := DigitsValue(body[..DigitRun(body)]) as real; whole <= r < whole + 1.0
  {
    var n := DigitRun(body);
    DigitsValue(body[..n]) as real + Fraction(body[n..])
  }

  /** A point and the digits after it, as a fraction; 0 without a point. */
  function Fraction(s: string): (r: real)
    ensures 0.0 <= r < 1.0
  {
    if s == [] || s[0] != '.' then 0.0
    else
      var m := DigitRun(s[1..]);
      var digits := s[1..][..m];
      DigitsValueBelow(digits);
      FractionBelowOne(DigitsValue(digits), Pow10(|digits|));
      DigitsValue(digits) as real / Pow10(m) as real
  }

  /** The integer parser reads back every 32-bit value that `operator<<` writes. */
  lemma ParseIntRoundTrip(n: int)
    requires INT32_MIN <= n <= INT32_MAX
    ensures ParseInt(IntToString(n)) == n
  {
    var w := IntToString(n);
    var digits := NatToString(if n < 0 then -n else n);
    NatToStringRoundTrip(if n < 0 then -n else n);
    assert w[SignLength(w)..] == digits;
    DigitRunAll(digits);
    assert digits[..|digits|] == digits;
  }

  lemma DigitRunAll(s: string)
    requires AllDigits(s)
    ensures DigitRun(s) == |s|
  {
    if s != [] { DigitRunAll(s[1..]); }
  }

  /** The digit run of `d + rest` is `d` when `rest` does not start with a digit. */
  lemma {:induction false} DigitRunStops(d: string, rest: string)
    requires AllDigits(d) && (rest == [] || !IsDigit(rest[0]))
    ensures DigitRun(d + rest) == |d|
  {
    if d != [] {
      assert (d + rest)[1..] == d[1..] + rest;
      DigitRunStops(d[1..], rest);
    }
  }

  /** The 32-bit limit nearest to `x`, or `x` itself when it fits. */
  function Clamp(x: int): (v: int)
    ensures INT32_MIN <= v <= INT32_MAX
    ensures INT32_MIN <= x <= INT32_MAX ==> v == x
    ensures x < INT32_MIN ==> v == INT32_MIN
    ensures x > INT32_MAX ==> v == INT32_MAX
  {
    if x < INT32_MIN then INT32_MIN else if x > INT32_MAX then INT32_MAX else x
  }

  /**
   * `>> int` on a sign (none, `+` or `-`), digits and anything after them
   * that is not a digit: the signed value of the digits, with the rest left
   * unread, and the nearest 32-bit limit when that value does not fit.
   */
  lemma {:induction false} ParseIntDigits(sign: string, d: string, rest: string)
    requires sign == "" || sign == "+" || sign == "-"
    requires d != [] && AllDigits(d) && (rest == [] || !IsDigit(rest[0]))
    ensures ParseInt(sign + d + rest) == Clamp(if sign == "-" then -(DigitsValue(d) as int) else DigitsValue(d))
  {
    var w := sign + d + rest;
    var body := d + rest;
    assert w == sign + body;
    assert body[0] == d[0];
    SignedWord(sign, body);
    assert (sign == "-") == (SignLength(w) == 1 && w[0] == '-');
    DigitRunStops(d, rest);
    assert body[..|d|] == d;
    ParseIntOfRun(w, sign == "-", d);
  }

  /** `ParseInt` once the sign and the digit run of the word are known. */
  lemma ParseIntOfRun(w: string, negative: bool, d: string)
    requires var body := w[SignLength(w)..];
      && DigitRun(body) == |d| && d != [] && body[..|d|] == d
      && negative == (SignLength(w) == 1 && w[0] == '-')
    ensures ParseInt(w) == Clamp(if negative then -(DigitsValue(d) as int) else DigitsValue(d))
  {
  }

  /** A word made of a sign and a body: the sign is recognised and the body follows it. */
  lemma {:induction false} SignedWord(sign: string, body: string)
    requires sign == "" || sign == "+" || sign == "-"
    requires body == [] || IsDigit(body[0]) || body[0] == '.'
    ensures SignLength(sign + body) == |sign| && (sign + body)[|sign|..] == body
    ensures |sign| == 1 ==> (sign + body)[0] == sign[0]
  {
  }

  /** A sign and digits are read up to the first other character. */
  lemma ParseIntExamples()
    ensures ParseInt("+7") == 7 && ParseInt("12x") == 12
  {
    ParseIntDigits("+", "7", "");
    assert "+" + "7" + "" == "+7";
    ParseIntDigits("", "12", "x");
    assert "" + "12" + "x" == "12x";
  }

  /** Words in which `>> int` finds no digits read as 0. */
  lemma ParseIntNoDigits()
    ensures ParseInt("abc") == 0 && ParseInt("-") == 0 && ParseInt("+x1") == 0
  {
    assert DigitRun("abc") == 0;
    assert "-"[1..] == [] && "+x1"[1..] == "x1";
  }

  /**
   * Eleven digits or more, without a leading zero, exceed every 32-bit value:
   * the read gives the nearest limit, on either side.
   */
  lemma {:induction false} ParseIntOverflow(sign: string, d: string)
    requires sign == "" || sign == "+" || sign == "-"
    requires AllDigits(d) && |d| > 10 && d[0] != '0'
    ensures ParseInt(sign + d) == if sign == "-" then INT32_MIN else INT32_MAX
  {
    DigitsValueAtLeast(d);
    Pow10Grows(10, |d| - 1);
    assert Pow10(10) == 10_000_000_000 by {
      assert Pow10(5) == 100_000;
    }
    ParseIntDigits(sign, d, "");
    assert sign + d + "" == sign + d;
  }

  /**
   * `>> float` on a sign, digits, a point and fraction digits: the value the
   * decimal notation denotes. With no digit on either side of the point the
   * read fails and stores 0, which the same formula gives.
   */
  lemma {:induction false} ParseFloatDecimal(sign: string, d: string, f: string)
    requires sign == "" || sign == "+" || sign == "-"
    requires AllDigits(d) && AllDigits(f)
    ensures var x := DigitsValue(d) as real + DigitsValue(f) as real / Pow10(|f|) as real;
      ParseFloat(sign + d + "." + f) == if sign == "-" then -x else x
  {
    var body := d + "." + f;
    var x := DigitsValue(d) as real + DigitsValue(f) as real / Pow10(|f|) as real;
    assert IsDigit(body[0]) || body[0] == '.' by {
      if d != [] { assert body[0] == d[0]; }
    }
    assert ParseFloat(body) == x by {
      UnsignedDecimal(d, f);
    }
    assert sign + d + "." + f == sign + body by {
      Regroup(sign, d, ".", f);
    }
    ParseFloatSign(sign, body);
  }

  lemma {:induction false} Regroup(a: string, b: string, c: string, e: string)
    ensures a + b + c + e == a + (b + c + e)
  {
  }

  lemma {:induction false} UnsignedDecimal(d: string, f: string)
    requires AllDigits(d) && AllDigits(f)
    ensures ParseFloat(d + "." + f) == DigitsValue(d) as real + DigitsValue(f) as real / Pow10(|f|) as real
  {
    assert d + "." + f == d + ("." + f);
    Unsigned(d + ("." + f));
    MagnitudeSplit(d, "." + f);
    PointFraction(f);
  }

  /** Without a sign, the word is read as a magnitude. */
  lemma {:induction false} Unsigned(w: string)
    requires SignLength(w) == 0
    ensures ParseFloat(w) == Magnitude(w)
  {
    assert w[0..] == w;
  }

  /** The leading digits give the whole part, and what follows them the fraction. */
  lemma {:induction false} MagnitudeSplit(d: string, rest: string)
    requires AllDigits(d) && (rest == [] || !IsDigit(rest[0]))
    ensures Magnitude(d + rest) == DigitsValue(d) as real + Fraction(rest)
  {
    DigitRunStops(d, rest);
    assert (d + rest)[..|d|] == d;
    assert (d + rest)[|d|..] == rest;
  }

  lemma {:induction false} PointFraction(f: string)
    requires AllDigits(f)
    ensures Fraction("." + f) == DigitsValue(f) as real / Pow10(|f|) as real
  {
    assert ("." + f)[1..] == f;
    DigitRunAll(f);
    assert f[..|f|] == f;
  }

  /** A sign in front of a number negates it (`-`) or changes nothing (`+`). */
  lemma {:induction false} ParseFloatSign(sign: string, body: string)
    requires sign == "" || sign == "+" || sign == "-"
    requires body == [] || IsDigit(body[0]) || body[0] == '.'
    ensures ParseFloat(sign + body) == if sign == "-" then -ParseFloat(body) else ParseFloat(body)
  {
    SignedWord(sign, body);
    Unsigned(body);
  }

  /** `>> float` on a whole number without a point: its value. */
  lemma {:induction false} ParseFloatWhole(sign: string, d: string)
    requires sign == "" || sign == "+" || sign == "-"
    requires AllDigits(d)
    ensures ParseFloat(sign + d) == if sign == "-" then -(DigitsValue(d) as real) else DigitsValue(d) as real
  {
    SignedWord(sign, d);
    DigitRunAll(d);
    assert d[..|d|] == d && d[|d|..] == [];
  }

  /** A word without a single digit reads as 0. */
  lemma {:induction false} ParseFloatNoDigits(w: string)
    requires forall i :: 0 <= i < |w| ==> !IsDigit(w[i])
    ensures ParseFloat(w) == 0.0
  {
    var body := w[SignLength(w)..];
    assert body == [] || !IsDigit(body[0]);
    assert DigitRun(body) == 0;
    if 0 < |body| && body[0] == '.' {
      assert body[1..] == [] || !IsDigit(body[1..][0]);
    }
  }

  /**
   * A number followed by other text: the read stops at the first character
   * that cannot continue it, and the value is that of the number alone.
   * With `ParseFloatWholeRest` and `ParseFloatNoNumber` this fixes the value
   * of every word.
   */
  lemma {:induction false} ParseFloatDecimalRest(sign: string, d: string, f: string, rest: string)
    requires sign == "" || sign == "+" || sign == "-"
    requires AllDigits(d) && AllDigits(f) && (rest == [] || !IsDigit(rest[0]))
    ensures var x := DigitsValue(d) as real + DigitsValue(f) as real / Pow10(|f|) as real;
      ParseFloat(sign + d + "." + f + rest) == if sign == "-" then -x else x
  {
    var tail := "." + f + rest;
    var body := d + tail;
    var x := DigitsValue(d) as real + DigitsValue(f) as real / Pow10(|f|) as real;
    assert body[0] == '.' || IsDigit(body[0]) by {
      if d != [] { assert body[0] == d[0]; } else { assert body == tail; }
    }
    assert ParseFloat(body) == x by {
      assert tail[0] == '.';
      Unsigned(body);
      MagnitudeSplit(d, tail);
      PointFractionRest(f, rest);
    }
    RegroupNumber(sign, d, f, rest);
    ParseFloatSign(sign, body);
  }

  lemma {:induction false} RegroupNumber(sign: string, d: string, f: string, rest: string)
    ensures sign + d + "." + f + rest == sign + (d + ("." + f + rest))
  {
  }

  /** The fraction stops at the first character after the point that is not a digit. */
  lemma {:induction false} PointFractionRest(f: string, rest: string)
    requires AllDigits(f) && (rest == [] || !IsDigit(rest[0]))
    ensures Fraction("." + f + rest) == DigitsValue(f) as real / Pow10(|f|) as real
  {
    var s := "." + f + rest;
    assert s[1..] == f + rest;
    DigitRunStops(f, rest);
    assert (f + rest)[..|f|] == f;
  }

  /** A whole number followed by text that is neither a digit nor a point reads as the number. */
  lemma {:induction false} ParseFloatWholeRest(sign: string, d: string, rest: string)
    requires sign == "" || sign == "+" || sign == "-"
    requires d != [] && AllDigits(d) && (rest == [] || (!IsDigit(rest[0]) && rest[0] != '.'))
    ensures ParseFloat(sign + d + rest) == if sign == "-" then -(DigitsValue(d) as real) else DigitsValue(d) as real
  {
    var body := d + rest;
    assert body[0] == d[0];
    assert sign + d + rest == sign + body;
    ParseFloatSign(sign, body);
    Unsigned(body);
    MagnitudeSplit(d, rest);
  }

  /**
   * A word where no digit follows the sign, nor the point right after it,
   * is a failed read and stores 0, whatever comes later (`x1`, `+x1`, `.x1`).
   */
  lemma {:induction false} ParseFloatNoNumber(w: string)
    requires var body := w[SignLength(w)..];
      && (body == [] || !IsDigit(body[0]))
      && !(|body| >= 2 && body[0] == '.' && IsDigit(body[1]))
    ensures ParseFloat(w) == 0.0
  {
    var body := w[SignLength(w)..];
    assert DigitRun(body) == 0;
    assert body[..0] == [];
    if 0 < |body| && body[0] == '.' {
      assert DigitRun(body[1..]) == 0;
      assert body[1..][..0] == [];
    }
  }

  /** Text after the number is ignored: `2.0x` and `3x` read as 2 and 3, `x1` as 0. */
  lemma TrailingTextExamples()
    ensures ParseFloat("2.0x") == 2.0 && ParseFloat("3x") == 3.0 && ParseFloat("x1") == 0.0
  {
    DecimalThenText();
    WholeThenText();
    LetterThenDigit();
  }

  lemma DecimalThenText()
    ensures ParseFloat("2.0x") == 2.0
  {
    ParseFloatDecimalRest("", "2", "0", "x");
    DecimalThenTextLiteral();
    assert DigitsValue("2") == 2 && DigitsValue("0") == 0;
  }

  lemma DecimalThenTextLiteral()
    ensures "" + "2" + "." + "0" + "x" == "2.0x"
  {
  }

  lemma WholeThenText()
    ensures ParseFloat("3x") == 3.0
  {
    ParseFloatWholeRest("", "3", "x");
    WholeThenTextLiteral();
    assert DigitsValue("3") == 3;
  }

  lemma WholeThenTextLiteral()
    ensures "" + "3" + "x" == "3x"
  {
  }

  lemma LetterThenDigit()
    ensures ParseFloat("x1") == 0.0
  {
    var w := "x1";
    assert SignLength(w) == 0 && w[0..] == w;
    assert !IsDigit(w[0]) && w[0] != '.';
    ParseFloatNoNumber(w);
  }

  lemma ParseFloatExample()
    ensures ParseFloat("2.0") == 2.0
  {
    ParseFloatDecimal("", "2", "0");
    assert "" + "2" + "." + "0" == "2.0";
  }

  lemma NegativeFloatExample()
    ensures ParseFloat("-0.25") == -0.25
  {
    ParseFloatDecimal("-", "0", "25");
    NegativeFloatText();
    QuarterDigits();
  }

  lemma QuarterDigits()
    ensures DigitsValue("0") as real + DigitsValue("25") as real / Pow10(|"25"|) as real == 0.25
  {
    assert DigitsValue("0") == 0;
    assert DigitsValue("25") == 25 by {
      assert "25"[..1] == "2";
      assert DigitsValue("2") == 2;
    }
    assert Pow10(|"25"|) == 100;
  }

  lemma NegativeFloatText()
    ensures "-" + "0" + "." + "25" == "-0.25"
  {
  }

  /** Either side of the point may be empty, but not both. */
  lemma PointExamples()
    ensures ParseFloat(".5") == 0.5 && ParseFloat("7.") == 7.0 && ParseFloat(".") == 0.0
  {
    LeadingPoint();
    TrailingPoint();
    ParseFloatNoDigits(".");
  }

  lemma LeadingPoint()
    ensures ParseFloat(".5") == 0.5
  {
    ParseFloatDecimal("", "", "5");
    assert "" + "" + "." + "5" == ".5";
  }

  lemma TrailingPoint()
    ensures ParseFloat("7.") == 7.0
  {
    ParseFloatDecimal("", "7", "");
    assert "" + "7" + "." + "" == "7.";
  }

  // ---------------------------------------------------------------------
  // One line of the option file
  // ---------------------------------------------------------------------

  datatype Directive =
    | SetFloat(key: string, f: real)
    | SetInt(key: string, i: int)
    | SetString(key: string, s: string)
    | Skip

  /**
   * `parse_option_line` without its effect: the key and type words, then the
   * value word read as the type says. Reading the number from the third
   * word gives what `>>` reads from the rest of the line, because numeric
   * extraction skips the same spaces and stops before the next one.
   */
  function ParseLine(line: string): (d: Directive)
    ensures !d.Skip? ==> d.key != [] && NoSpace(d.key)
    ensures d.SetString? ==> NoSpace(d.s)
  {
    NextWordShape(line);
    var (key, afterKey) := NextWord(line);
    NextWordShape(afterKey);
    var (kind, afterKind) := NextWord(afterKey);
    NextWordShape(afterKind);
    var (value, _) := NextWord(afterKind);
    if kind == "flt" then SetFloat(key, ParseFloat(value))
    else if kind == "int" then SetInt(key, ParseInt(value))
    else if kind == "str" then SetString(key, value)
    else Skip
  }

  /** Words(s) is the word an extraction takes followed by the words of what it leaves. */
  lemma WordsAfterExtraction(s: string)
    ensures var r := NextWord(s);
      && (r.0 == [] ==> Words(s) == [] && r.1 == [])
      && (r.0 != [] ==> |Words(s)| == 1 + |Words(r.1)| && Words(s)[0] == r.0 && Words(s)[1..] == Words(r.1))
  {
    NextWordIsFirstWord(s);
    NextWordShape(s);
  }

  /** The first three extractions of a line deliver its first three words. */
  lemma FirstThreeWords(line: string)
    ensures var r1 := NextWord(line);
      var r2 := NextWord(r1.1);
      var r3 := NextWord(r2.1);
      var w := Words(line);
      && (|w| >= 1 <==> r1.0 != []) && (|w| >= 1 ==> w[0] == r1.0)
      && (|w| >= 2 <==> r2.0 != []) && (|w| >= 2 ==> w[1] == r2.0)
      && (|w| >= 3 <==> r3.0 != []) && (|w| >= 3 ==> w[2] == r3.0)
  {
    var r1 := NextWord(line);
    var r2 := NextWord(r1.1);
    var r3 := NextWord(r2.1);
    WordsAfterExtraction(line);
    WordsAfterExtraction(r1.1);
    WordsAfterExtraction(r2.1);
  }

  /**
   * What a line stores, in terms of its words: the first word is the key,
   * the second the type; a `str` line keeps only the third word (or "" when
   * there is none), a number line reads its value from the third word.
   */
  lemma ParseLineWords(line: string)
    ensures var d, w := ParseLine(line), Words(line);
      && (d.Skip? <==> |w| < 2 || w[1] !in {"flt", "int", "str"})
      && (!d.Skip? ==> d.key == w[0])
      && (d.SetFloat? <==> |w| >= 2 && w[1] == "flt")
      && (d.SetInt? <==> |w| >= 2 && w[1] == "int")
      && (d.SetFloat? ==> d.f == if |w| >= 3 then ParseFloat(w[2]) else 0.0)
      && (d.SetInt? ==> d.i == if |w| >= 3 then ParseInt(w[2]) else 0)
      && (d.SetString? ==> d.s == if |w| >= 3 then w[2] else "")
  {
    FirstThreeWords(line);
  }

  // ---------------------------------------------------------------------
  // The three maps and their lookups
  // ---------------------------------------------------------------------

  /** The value one directive can store. */
  datatype Value = FloatValue(f: real) | IntValue(i: int) | StringValue(s: string)

  datatype Kind = Flt | Int | Str

  function KindOf(d: Directive): Kind
    requires !d.Skip?
  {
    match d
    case SetFloat(_, _) => Flt
    case SetInt(_, _) => Int
    case SetString(_, _) => Str
  }

  function ValueOf(d: Directive): Value
    requires !d.Skip?
  {
    match d
    case SetFloat(_, f) => FloatValue(f)
    case SetInt(_, i) => IntValue(i)
    case SetString(_, s) => StringValue(s)
  }

  /** True when directive `d` stores into map `kind` at `key`. */
  predicate Defines(d: Directive, kind: Kind, key: string) {
    !d.Skip? && KindOf(d) == kind && d.key == key
  }

  datatype Tables = Tables(floats: map<string, real>, ints: map<string, int>, strings: map<string, string>)
  {
    /** `get_option_float`: the stored float, or `def` when the key has none. */
    function GetOptionFloat(key: string, def: real): (r: real)
      ensures key in floats ==> r == floats[key]
      ensures key !in floats ==> r == def
    {
      if key in floats then floats[key] else def
    }

    /** `get_option_int`: the stored int, or `def` when the key has none. */
    function GetOptionInt(key: string, def: int): (r: int)
      ensures key in ints ==> r == ints[key]
      ensures key !in ints ==> r == def
    {
      if key in ints then ints[key] else def
    }

    /** `get_option_string`: the stored string, or `def` when the key has none. */
    function GetOptionString(key: string, def: string): (r: string)
      ensures key in strings ==> r == strings[key]
      ensures key !in strings ==> r == def
    {
      if key in strings then strings[key] else def
    }

    /** What map `kind` holds at `key`, if anything. */
    function Entry(kind: Kind, key: string): Option<Value> {
      match kind
      case Flt => if key in floats then Some(FloatValue(floats[key])) else None
      case Int => if key in ints then Some(IntValue(ints[key])) else None
      case Str => if key in strings then Some(StringValue(strings[key])) else None
    }
  }

  const Empty := Tables(map[], map[], map[])

  /** The effect of one directive: `map[key] = val` in the map its type names. */
  function Apply(t: Tables, d: Directive): (r: Tables)
    ensures d.Skip? ==> r == t
    ensures !d.Skip? ==> r.Entry(KindOf(d), d.key) == Some(ValueOf(d))
  {
    match d
    case SetFloat(k, f) => t.(floats := t.floats[k := f])
    case SetInt(k, i) => t.(ints := t.ints[k := i])
    case SetString(k, s) => t.(strings := t.strings[k := s])
    case Skip => t
  }

  /** A directive changes its own entry and no other, in any of the three maps. */
  lemma ApplyEntry(t: Tables, d: Directive, kind: Kind, key: string)
    ensures Apply(t, d).Entry(kind, key)
      == if Defines(d, kind, key) then Some(ValueOf(d)) else t.Entry(kind, key)
  {
  }

  /** `read_file` once the file is open: every line parsed, first to last. */
  function ReadLines(t: Tables, lines: seq<string>): (r: Tables)
    ensures t.floats.Keys <= r.floats.Keys && t.ints.Keys <= r.ints.Keys && t.strings.Keys <= r.strings.Keys
  {
    if lines == [] then t
    else Apply(ReadLines(t, lines[..|lines| - 1]), ParseLine(lines[|lines| - 1]))
  }

  lemma ReadLinesSnoc(t: Tables, lines: seq<string>, line: string)
    ensures ReadLines(t, lines + [line]) == Apply(ReadLines(t, lines), ParseLine(line))
  {
    assert (lines + [line])[..|lines|] == lines;
  }

  /** Reading one more line of the file, in the form the reading loop needs. */
  lemma ReadLinesStep(t: Tables, lines: seq<string>, i: nat)
    requires i < |lines|
    ensures ReadLines(t, lines[..i + 1]) == Apply(ReadLines(t, lines[..i]), ParseLine(lines[i]))
  {
    assert lines[..i + 1] == lines[..i] + [lines[i]];
    ReadLinesSnoc(t, lines[..i], lines[i]);
  }

  /** A line whose type word is not one of the three tags changes nothing. */
  lemma UnknownTypeIgnored(t: Tables, line: string)
    requires var w := Words(line); |w| < 2 || w[1] !in {"flt", "int", "str"}
    ensures Apply(t, ParseLine(line)) == t
  {
    ParseLineWords(line);
  }

  /** A blank line, or one holding only a key, is one such line. */
  lemma ShortLineIgnored(t: Tables, line: string)
    requires |Words(line)| < 2
    ensures Apply(t, ParseLine(line)) == t
  {
    UnknownTypeIgnored(t, line);
  }

  /** An entry that no line defines keeps the value it had before the file was read. */
  lemma {:induction false} Untouched(t: Tables, lines: seq<string>, kind: Kind, key: string)
    requires forall i :: 0 <= i < |lines| ==> !Defines(ParseLine(lines[i]), kind, key)
    ensures ReadLines(t, lines).Entry(kind, key) == t.Entry(kind, key)
  {
    if lines != [] {
      Untouched(t, lines[..|lines| - 1], kind, key);
      ApplyEntry(ReadLines(t, lines[..|lines| - 1]), ParseLine(lines[|lines| - 1]), kind, key);
    }
  }

  /** A run of spaces, then `word`, then nothing or a space: one extraction yields `word`. */
  lemma {:induction false} NextWordOf(sp: string, word: string, rest: string)
    requires AllSpace(sp) && word != [] && NoSpace(word) && (rest == [] || IsSpace(rest[0]))
    ensures NextWord(sp + word + rest) == (word, rest)
  {
    var s := sp + word + rest;
    assert s == sp + (word + rest);
    SpaceRunStops(sp, word + rest);
    assert s[|sp|..] == word + rest;
    RunLengthStops(word, rest);
    assert (word + rest)[..|word|] == word;
    assert (word + rest)[|word|..] == rest;
  }

  lemma {:induction false} SpaceRunStops(sp: string, t: string)
    requires AllSpace(sp) && (t == [] || !IsSpace(t[0]))
    ensures SpaceRun(sp + t) == |sp|
  {
    if sp != [] {
      assert (sp + t)[1..] == sp[1..] + t;
      SpaceRunStops(sp[1..], t);
    }
  }

  lemma {:induction false} RunLengthStops(word: string, rest: string)
    requires NoSpace(word) && (rest == [] || IsSpace(rest[0]))
    ensures RunLength(word + rest) == |word|
  {
    if word != [] {
      assert (word + rest)[1..] == word[1..] + rest;
      RunLengthStops(word[1..], rest);
    }
  }

  /**
   * A line `key type value` with single spaces stores `value` under `key`,
   * read as the type says, in the map the type names.
   */
  lemma {:induction false} WellFormedLine(key: string, kind: string, value: string)
    requires key != [] && NoSpace(key) && kind != [] && NoSpace(kind) && value != [] && NoSpace(value)
    ensures ParseLine(key + " " + kind + " " + value) ==
      if kind == "flt" then SetFloat(key, ParseFloat(value))
      else if kind == "int" then SetInt(key, ParseInt(value))
      else if kind == "str" then SetString(key, value)
      else Skip
  {
    ThreeWords(key, kind, value);
    ParseLineFromWords(key + " " + kind + " " + value, key, " " + kind + " " + value, kind, " " + value, value);
  }

  /** The three extractions from `key type value`. */
  lemma {:induction false} ThreeWords(key: string, kind: string, value: string)
    requires key != [] && NoSpace(key) && kind != [] && NoSpace(kind) && value != [] && NoSpace(value)
    ensures NextWord(key + " " + kind + " " + value) == (key, " " + kind + " " + value)
    ensures NextWord(" " + kind + " " + value) == (kind, " " + value)
    ensures NextWord(" " + value).0 == value
  {
    var afterKind := " " + value;
    var afterKey := " " + kind + " " + value;
    LineRegroup(key, kind, value);
    WordAtStart(key, afterKey);
    WordAfterSpace(kind, afterKind);
    WordAfterSpace(value, "");
  }

  lemma {:induction false} LineRegroup(key: string, kind: string, value: string)
    ensures key + " " + kind + " " + value == key + (" " + kind + " " + value)
    ensures " " + kind + " " + value == " " + kind + (" " + value)
    ensures " " + value + "" == " " + value
    ensures (" " + kind + " " + value)[0] == ' ' && (" " + value)[0] == ' '
  {
  }

  lemma {:induction false} WordAtStart(word: string, rest: string)
    requires word != [] && NoSpace(word) && (rest == [] || IsSpace(rest[0]))
    ensures NextWord(word + rest) == (word, rest)
  {
    assert "" + word + rest == word + rest;
    NextWordOf("", word, rest);
  }

  lemma {:induction false} WordAfterSpace(word: string, rest: string)
    requires word != [] && NoSpace(word) && (rest == [] || IsSpace(rest[0]))
    ensures NextWord(" " + word + rest) == (word, rest)
  {
    NextWordOf(" ", word, rest);
  }

  /** `ParseLine` once the three extractions are known. */
  lemma ParseLineFromWords(line: string, key: string, afterKey: string, kind: string, afterKind: string, value: string)
    requires NextWord(line) == (key, afterKey) && NextWord(afterKey) == (kind, afterKind)
    requires NextWord(afterKind).0 == value
    ensures ParseLine(line) ==
      if kind == "flt" then SetFloat(key, ParseFloat(value))
      else if kind == "int" then SetInt(key, ParseInt(value))
      else if kind == "str" then SetString(key, value)
      else Skip
  {
  }

  /** The line `factor_speed flt 2.0` sets the speed factor to 2. */
  lemma SpeedFactorLine()
    ensures ReadLines(Empty, ["factor_speed flt 2.0"]).GetOptionFloat("factor_speed", 1.0) == 2.0
  {
    WellFormedLine("factor_speed", "flt", "2.0");
    SpeedFactorLineText();
    ParseFloatExample();
    assert ["factor_speed flt 2.0"][..0] == [];
  }

  lemma SpeedFactorLineText()
    ensures "factor_speed" + " " + "flt" + " " + "2.0" == "factor_speed flt 2.0"
  {
  }

  /** Of several lines defining the same entry, the one read last wins. */
  lemma {:induction false} LastWins(t: Tables, lines: seq<string>, j: nat, kind: Kind, key: string)
    requires j < |lines| && Defines(ParseLine(lines[j]), kind, key)
    requires forall i :: j < i < |lines| ==> !Defines(ParseLine(lines[i]), kind, key)
    ensures ReadLines(t, lines).Entry(kind, key) == Some(ValueOf(ParseLine(lines[j])))
    decreases |lines|
  {
    var prefix := lines[..|lines| - 1];
    ApplyEntry(ReadLines(t, prefix), ParseLine(lines[|lines| - 1]), kind, key);
    if j < |lines| - 1 {
      LastWins(t, prefix, j, kind, key);
    }
  }

  // ---------------------------------------------------------------------
  // The store object
  // ---------------------------------------------------------------------

  /** `Options`: the three maps, filled in place line by line. */
  class Options {
    var floats: map<string, real>
    var ints: map<string, int>
    var strings: map<string, string>

    function Contents(): Tables
      reads this
    {
      Tables(floats, ints, strings)
    }

    constructor ()
      ensures Contents() == Empty
    {
      floats, ints, strings := map[], map[], map[];
    }

    method ParseOptionLine(line: string)
      modifies this
      ensures Contents() == Apply(old(Contents()), ParseLine(line))
    {
      match ParseLine(line)
      case SetFloat(k, f) => floats := floats[k := f];
      case SetInt(k, i) => ints := ints[k := i];
      case SetString(k, s) => strings := strings[k := s];
      case Skip =>
    }

    /**
     * `read_file`: `None` stands for a file that cannot be opened, `Some`
     * for the lines `getline` delivers from one that can.
     */
    method ReadFile(file: Option<seq<string>>) returns (ok: bool)
      modifies this
      ensures ok <==> file.Some?
      ensures Contents() == if ok then ReadLines(old(Contents()), file.value) else old(Contents())
    {
      if file.None? {
        return false;
      }
      var lines := file.value;
      ghost var start := Contents();
      var i := 0;
      while i < |lines|
        invariant 0 <= i <= |lines|
        invariant Contents() == ReadLines(start, lines[..i])
      {
        ReadLinesStep(start, lines, i);
        ParseOptionLine(lines[i]);
        i := i + 1;
      }
      assert lines[..i] == lines;
      return true;
    }
  }
}
