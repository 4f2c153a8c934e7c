/**
 * The text handling the trip search relies on: decimal digit strings, the `YYYY-MM-DD` calendar-date
 * form of ISO 8601 (read by `strptime(..., '%Y-%m-%d')`, written by `strftime('%Y-%m-%d')`),
 * `s.split('T')[0]`, `str(n)`, and Python's ordering of `str` values.
 */
module IsoText {
  import opened Wrappers
  import opened Calendar

  predicate IsDigit(c: char) {
    '0' <= c <= '9'
  }

  predicate AllDigits(s: string) {
    forall i :: 0 <= i < |s| ==> IsDigit(s[i])
  }

  function DigitChar(v: nat): (c: char)
    requires v < 10
    ensures IsDigit(c)
  {
    ('0' as int + v) as char
  }

  function DigitValue(c: char): (v: nat)
    requires IsDigit(c)
    ensures v < 10 && DigitChar(v) == c
  {
    c as int - '0' as int
  }

  function Pow10(w: nat): (p: nat)
    ensures p >= 1
  {
    if w == 0 then 1 else 10 * Pow10(w - 1)
  }

  /** The number a string of decimal digits denotes, most significant digit first (`int(s)`). */
  function DigitsValue(s: string): (n: nat)
    requires AllDigits(s)
    ensures n < Pow10(|s|)
  {
    if s == [] then 0 else DigitsValue(s[..|s| - 1]) * 10 + DigitValue(s[|s| - 1])
  }

  /** `n` written in exactly `w` digits, zero-padded on the left (as `%Y`, `%m` and `%d` write it). */
  function Padded(n: nat, w: nat): (s: string)
    ensures |s| == w && AllDigits(s)
  {
    if w == 0 then [] else Padded(n / 10, w - 1) + [DigitChar(n % 10)]
  }

  /** A number that fits in `w` digits reads back from its padded rendering. */
  lemma {:induction false} PaddedReadsBack(n: nat, w: nat)
    requires n < Pow10(w)
    ensures DigitsValue(Padded(n, w)) == n
  {
    if w > 0 {
      PaddedReadsBack(n / 10, w - 1);
      var s := Padded(n, w);
      assert s[..|s| - 1] == Padded(n / 10, w - 1);
    }
  }

  /** A digit string is the padded rendering of its own value. */
  lemma {:induction false} DigitsWriteBack(s: string)
    requires AllDigits(s)
    ensures Padded(DigitsValue(s), |s|) == s
  {
    if s != [] {
      var p := s[..|s| - 1];
      DigitsWriteBack(p);
      var n := DigitsValue(s);
      assert n / 10 == DigitsValue(p);
      assert n % 10 == DigitValue(s[|s| - 1]);
      assert s == p + [s[|s| - 1]];
    }
  }

  /** `str(n)` for a natural number: decimal digits without leading zeros. */
  function Decimal(n: nat): (s: string)
    ensures |s| >= 1 && AllDigits(s)
    ensures (s[0] == '0') == (n == 0)
    ensures |s| > 1 ==> s[0] != '0'
  {
    if n < 10 then [DigitChar(n)] else Decimal(n / 10) + [DigitChar(n % 10)]
  }

  lemma {:induction false} DecimalReadsBack(n: nat)
    ensures DigitsValue(Decimal(n)) == n
  {
    if n >= 10 {
      DecimalReadsBack(n / 10);
      var s := Decimal(n);
      assert s[..|s| - 1] == Decimal(n / 10);
    }
  }

  /** Python's `a < b` on `str`: lexicographic by code point, a proper prefix coming first. */
  predicate StrLess(a: string, b: string) {
    if a == [] then b != []
    else if b == [] then false
    else if a[0] != b[0] then a[0] < b[0]
    else StrLess(a[1..], b[1..])
  }

  /** Python's `str` order is total and strict: of `a < b`, `a == b` and `b < a` exactly one holds. */
  lemma {:induction false} StrLessTrichotomy(a: string, b: string)
    ensures StrLess(a, b) || a == b || StrLess(b, a)
    ensures !(StrLess(a, b) && StrLess(b, a)) && !StrLess(a, a)
  {
    if a != [] && b != [] && a[0] == b[0] {
      StrLessTrichotomy(a[1..], b[1..]);
      assert a == [a[0]] + a[1..] && b == [b[0]] + b[1..];
    }
    if a != [] {
      StrLessTrichotomy(a[1..], a[1..]);
    }
  }

  /** A common prefix does not affect the comparison. */
  lemma {:induction false} StrLessCommonPrefix(p: string, x: string, y: string)
    ensures StrLess(p + x, p + y) == StrLess(x, y)
  {
    if p != [] {
      assert (p + x)[0] == p[0] == (p + y)[0];
      assert (p + x)[1..] == p[1..] + x;
      assert (p + y)[1..] == p[1..] + y;
      assert p + x != [] && p + y != [];
      StrLessCommonPrefix(p[1..], x, y);
    } else {
      assert p + x == x && p + y == y;
    }
  }

  /** Two different prefixes of the same length decide the comparison, whatever follows them. */
  lemma {:induction false} StrLessDecidedByPrefix(a: string, b: string, x: string, y: string)
    requires |a| == |b| && a != b
    ensures StrLess(a + x, b + y) == StrLess(a, b)
  {
    if a[0] == b[0] {
      assert a == [a[0]] + a[1..] && b == [b[0]] + b[1..];
      assert (a + x)[1..] == a[1..] + x;
      assert (b + y)[1..] == b[1..] + y;
      StrLessDecidedByPrefix(a[1..], b[1..], x, y);
    }
  }

  /** On digit strings of one length, Python's string order is the numeric order. */
  lemma {:induction false} DigitsOrder(a: string, b: string)
    requires AllDigits(a) && AllDigits(b) && |a| == |b|
    ensures StrLess(a, b) <==> DigitsValue(a) < DigitsValue(b)
  {
    if a != [] {
      var a', b' := a[..|a| - 1], b[..|b| - 1];
      var x, y := [a[|a| - 1]], [b[|b| - 1]];
      assert a == a' + x && b == b' + y;
      var da, db := DigitValue(a[|a| - 1]), DigitValue(b[|b| - 1]);
      assert DigitsValue(a) == DigitsValue(a') * 10 + da;
      assert DigitsValue(b) == DigitsValue(b') * 10 + db;
      if a' == b' {
        StrLessCommonPrefix(a', x, y);
        assert StrLess(x, y) <==> da < db;
      } else {
        StrLessDecidedByPrefix(a', b', x, y);
        DigitsOrder(a', b');
        DigitsWriteBack(a');
        DigitsWriteBack(b');
        LastDigitOrder(DigitsValue(a'), DigitsValue(b'), da, db);
      }
    }
  }

  /** Appending one digit to two different numbers keeps their order. */
  lemma LastDigitOrder(m: nat, n: nat, d: nat, e: nat)
    requires m != n && d < 10 && e < 10
    ensures m * 10 + d < n * 10 + e <==> m < n
  {
  }

  /** `d.strftime('%Y-%m-%d')`. */
  function FormatDate(d: Date): (s: string)
    requires ValidDate(d)
    ensures |s| == 10
  {
    Padded(d.year, 4) + "-" + Padded(d.month, 2) + "-" + Padded(d.day, 2)
  }

  /**
   * `datetime.strptime(s, '%Y-%m-%d')` for the zero-padded form: four year digits, two month digits,
   * two day digits, a real date; `None` where Python raises `ValueError`.
   */
  function ParseDate(s: string): (r: Option<Date>)
    ensures r.Some? ==> ValidDate(r.value)
  {
    if |s| == 10 && s[4] == '-' && s[7] == '-' && AllDigits(s[..4]) && AllDigits(s[5..7]) && AllDigits(s[8..]) then
      var d := Date(DigitsValue(s[..4]), DigitsValue(s[5..7]), DigitsValue(s[8..]));
      if ValidDate(d) then Some(d) else None
    else
      None
  }

  lemma ParseFormatRoundTrip(d: Date)
    requires ValidDate(d)
    ensures ParseDate(FormatDate(d)) == Some(d)
  {
    var s := FormatDate(d);
    assert Pow10(2) == 100 && Pow10(4) == 10000;
    assert s[..4] == Padded(d.year, 4);
    assert s[5..7] == Padded(d.month, 2);
    assert s[8..] == Padded(d.day, 2);
    PaddedReadsBack(d.year, 4);
    PaddedReadsBack(d.month, 2);
    PaddedReadsBack(d.day, 2);
  }

  lemma FormatParseRoundTrip(s: string)
    requires ParseDate(s).Some?
    ensures FormatDate(ParseDate(s).value) == s
  {
    DigitsWriteBack(s[..4]);
    DigitsWriteBack(s[5..7]);
    DigitsWriteBack(s[8..]);
    assert s == s[..4] + "-" + s[5..7] + "-" + s[8..];
  }

  /** Two different numbers of `w` digits compare as strings as they compare as numbers, whatever follows. */
  lemma PaddedOrder(m: nat, n: nat, w: nat, x: string, y: string)
    requires m < Pow10(w) && n < Pow10(w) && m != n
    ensures StrLess(Padded(m, w) + x, Padded(n, w) + y) <==> m < n
  {
    PaddedReadsBack(m, w);
    PaddedReadsBack(n, w);
    StrLessDecidedByPrefix(Padded(m, w), Padded(n, w), x, y);
    DigitsOrder(Padded(m, w), Padded(n, w));
  }

  /** For formatted dates, Python's string order agrees with the calendar, whatever text follows. */
  lemma FormattedDateOrder(a: Date, b: Date, x: string, y: string)
    requires ValidDate(a) && ValidDate(b) && a != b
    ensures StrLess(FormatDate(a) + x, FormatDate(b) + y) <==> Before(a, b)
  {
    assert Pow10(4) == 10000;
    var ta := "-" + Padded(a.month, 2) + "-" + Padded(a.day, 2) + x;
    var tb := "-" + Padded(b.month, 2) + "-" + Padded(b.day, 2) + y;
    assert FormatDate(a) + x == Padded(a.year, 4) + ta;
    assert FormatDate(b) + y == Padded(b.year, 4) + tb;
    if a.year != b.year {
      PaddedOrder(a.year, b.year, 4, ta, tb);
    } else {
      SameYearOrder(a, b, x, y);
    }
  }

  /** Within one year the shared `YYYY-` prefix leaves the order to the `MM-DD` text. */
  lemma SameYearOrder(a: Date, b: Date, x: string, y: string)
    requires ValidDate(a) && ValidDate(b) && a != b && a.year == b.year
    ensures StrLess(Padded(a.year, 4) + ("-" + Padded(a.month, 2) + "-" + Padded(a.day, 2) + x),
                    Padded(b.year, 4) + ("-" + Padded(b.month, 2) + "-" + Padded(b.day, 2) + y))
            <==> Before(a, b)
  {
    var p := Padded(a.year, 4) + "-";
    var ma := Padded(a.month, 2) + "-" + Padded(a.day, 2) + x;
    var mb := Padded(b.month, 2) + "-" + Padded(b.day, 2) + y;
    MonthDayOrder(a, b, x, y);
    assert "-" + Padded(a.month, 2) + "-" + Padded(a.day, 2) + x == "-" + ma;
    assert "-" + Padded(b.month, 2) + "-" + Padded(b.day, 2) + y == "-" + mb;
    assert Padded(a.year, 4) + ("-" + ma) == p + ma;
    assert Padded(b.year, 4) + ("-" + mb) == p + mb;
    StrLessCommonPrefix(p, ma, mb);
  }

  /** Within one year, the `MM-DD` text orders days chronologically. */
  lemma MonthDayOrder(a: Date, b: Date, x: string, y: string)
    requires ValidDate(a) && ValidDate(b) && a != b && a.year == b.year
    ensures StrLess(Padded(a.month, 2) + "-" + Padded(a.day, 2) + x, Padded(b.month, 2) + "-" + Padded(b.day, 2) + y)
            <==> Before(a, b)
  {
    assert Pow10(2) == 100;
    var pa, pb := "-" + Padded(a.day, 2) + x, "-" + Padded(b.day, 2) + y;
    assert Padded(a.month, 2) + "-" + Padded(a.day, 2) + x == Padded(a.month, 2) + pa;
    assert Padded(b.month, 2) + "-" + Padded(b.day, 2) + y == Padded(b.month, 2) + pb;
    if a.month != b.month {
      PaddedOrder(a.month, b.month, 2, pa, pb);
    } else {
      assert Padded(a.month, 2) + pa == (Padded(a.month, 2) + "-") + (Padded(a.day, 2) + x);
      assert Padded(b.month, 2) + pb == (Padded(a.month, 2) + "-") + (Padded(b.day, 2) + y);
      StrLessCommonPrefix(Padded(a.month, 2) + "-", Padded(a.day, 2) + x, Padded(b.day, 2) + y);
      PaddedOrder(a.day, b.day, 2, x, y);
    }
  }

  /** `s.split('T')[0]`: the text before the first 'T', or all of `s` when it has none. */
  function DatePart(s: string): (p: string)
    ensures |p| <= |s| && p == s[..|p|]
    ensures forall i :: 0 <= i < |p| ==> p[i] != 'T'
    ensures |p| < |s| ==> s[|p|] == 'T'
  {
    if s == [] || s[0] == 'T' then [] else [s[0]] + DatePart(s[1..])
  }

  /**
   * When the text before the first 'T' of both strings is a date and the two dates differ, Python's
   * comparison of the whole strings is the chronological order of those dates.
   */
  lemma DateOrderDecidesComparison(s: string, t: string, a: Date, b: Date)
    requires ParseDate(DatePart(s)) == Some(a) && ParseDate(DatePart(t)) == Some(b) && a != b
    ensures StrLess(s, t) <==> Before(a, b)
  {
    FormatParseRoundTrip(DatePart(s));
    FormatParseRoundTrip(DatePart(t));
    assert s == FormatDate(a) + s[10..];
    assert t == FormatDate(b) + t[10..];
    FormattedDateOrder(a, b, s[10..], t[10..]);
  }
}
