/** Wall-clock times as "HH:MM" text and as minute-of-day counts: the
    `parseTime` / `minutesToTime` pair that both the calendar grid store and the
    date helpers are built on. */
module TimeText {
  import opened Common

  predicate IsDigit(c: char) {
    '0' <= c <= '9'
  }

  predicate AllDigits(s: string) {
    forall i :: 0 <= i < |s| ==> IsDigit(s[i])
  }

  function DigitValue(c: char): (d: nat)
    requires IsDigit(c)
    ensures d < 10
  {
    c as int - '0' as int
  }

  function DigitChar(d: nat): (c: char)
    requires d < 10
    ensures IsDigit(c) && DigitValue(c) == d
  {
    ('0' as int + d) as char
  }

  /** `Number(s)` for a string of decimal digits (the empty string reads as 0). */
  function DigitsValue(s: string): nat
    requires AllDigits(s)
    decreases |s|
  {
    if s == [] then 0 else DigitsValue(s[..|s| - 1]) * 10 + DigitValue(s[|s| - 1])
  }

  /** `n.toString()` for a natural number: shortest decimal form. */
  function Decimal(n: nat): (s: string)
    ensures 1 <= |s| && AllDigits(s)
    decreases n
  {
    if n < 10 then [DigitChar(n)] else Decimal(n / 10) + [DigitChar(n % 10)]
  }

  /** `s.padStart(2, "0")`. */
  function PadStart2(s: string): (r: string)
    ensures |r| == if |s| < 2 then 2 else |s|
  {
    if |s| == 0 then "00" else if |s| == 1 then "0" + s else s
  }

  /** Padding only ever adds leading zeros: the text is a suffix of the result,
      everything before it is '0', and text of two or more characters comes
      back unchanged. */
  lemma PadShape(s: string)
    ensures var r := PadStart2(s);
            && r[|r| - |s|..] == s
            && (forall i :: 0 <= i < |r| - |s| ==> r[i] == '0')
            && (|s| >= 2 ==> r == s)
  {
  }

  /** The inputs `parseTime` is defined on here: two non-empty digit runs around
      the first colon. Other text makes the source compute `NaN` or coerce
      through `Number`, which this model does not follow. */
  predicate WellFormedTime(t: string) {
    var i := IndexOf(t, ':');
    1 <= i && i + 1 < |t| && AllDigits(t[..i]) && AllDigits(t[i + 1..])
  }

  function HourText(t: string): string
    requires WellFormedTime(t)
  {
    t[..IndexOf(t, ':')]
  }

  function MinuteText(t: string): string
    requires WellFormedTime(t)
  {
    t[IndexOf(t, ':') + 1..]
  }

  /** `parseTime`: hours * 60 + minutes of the two colon-separated parts. */
  function ParseTime(t: string): nat
    requires WellFormedTime(t)
  {
    DigitsValue(HourText(t)) * 60 + DigitsValue(MinuteText(t))
  }

  /** `minutesToTime`: hours and minutes, each zero-padded to two digits. */
  function MinutesToTime(m: nat): string {
    PadStart2(Decimal(m / 60)) + ":" + PadStart2(Decimal(m % 60))
  }

  /** A zero-padded 24-hour "HH:MM" time strictly before 24:00. */
  predicate Canonical(t: string) {
    && |t| == 5 && t[2] == ':'
    && IsDigit(t[0]) && IsDigit(t[1]) && IsDigit(t[3]) && IsDigit(t[4])
    && 10 * DigitValue(t[0]) + DigitValue(t[1]) < 24
    && 10 * DigitValue(t[3]) + DigitValue(t[4]) < 60
  }

  // ---------------------------------------------------------------------------
  // Digit strings

  lemma {:induction false} DecimalValue(n: nat)
    ensures DigitsValue(Decimal(n)) == n
    decreases n
  {
    var s := Decimal(n);
    if n < 10 {
      assert s[..|s| - 1] == [];
    } else {
      assert s[..|s| - 1] == Decimal(n / 10);
      DecimalValue(n / 10);
    }
  }

  lemma PadValue(s: string)
    requires AllDigits(s)
    ensures AllDigits(PadStart2(s)) && DigitsValue(PadStart2(s)) == DigitsValue(s)
  {
    var p := PadStart2(s);
    if |s| == 0 {
      assert p[..1] == "0" && p[..1][..0] == [];
    } else if |s| == 1 {
      assert p[..1] == "0" && p[..1][..0] == [];
      assert s[..0] == [];
    }
  }

  lemma DigitsHaveNoColon(s: string)
    requires AllDigits(s)
    ensures ':' !in s
  {
    forall i | 0 <= i < |s|
      ensures s[i] != ':'
    {
      assert IsDigit(s[i]);
    }
  }

  /** A digit run, a colon and a digit run split back into the two runs. */
  lemma {:induction false} SplitTime(h: string, m: string)
    requires AllDigits(h) && AllDigits(m) && 1 <= |h| && 1 <= |m|
    ensures WellFormedTime(h + ":" + m)
    ensures HourText(h + ":" + m) == h && MinuteText(h + ":" + m) == m
  {
    var t := h + ":" + m;
    var i := IndexOf(t, ':');
    assert t[|h|] == ':';
    DigitsHaveNoColon(h);
    assert i == |h|;
    assert t[..i] == h && t[i + 1..] == m;
  }

  /** For every m >= 0, `parseTime(minutesToTime(m)) == m`. */
  lemma {:induction false} ParseMinutesToTime(m: nat)
    ensures WellFormedTime(MinutesToTime(m))
    ensures ParseTime(MinutesToTime(m)) == m
  {
    var h, mm := Decimal(m / 60), Decimal(m % 60);
    PadValue(h);
    PadValue(mm);
    SplitTime(PadStart2(h), PadStart2(mm));
    DecimalValue(m / 60);
    DecimalValue(m % 60);
  }

  /** The printed time of hour h, minute r is the two padded numbers around a colon. */
  lemma MinutesToTimeParts(m: nat, h: nat, r: nat)
    requires m == 60 * h + r && r < 60
    ensures MinutesToTime(m) == PadStart2(Decimal(h)) + ":" + PadStart2(Decimal(r))
  {
    assert m / 60 == h && m % 60 == r;
  }

  /** Different minute counts print differently. */
  lemma MinutesToTimeInjective(a: nat, b: nat)
    ensures MinutesToTime(a) == MinutesToTime(b) <==> a == b
  {
    ParseMinutesToTime(a);
    ParseMinutesToTime(b);
  }

  // ---------------------------------------------------------------------------
  // Canonical "HH:MM" text

  lemma ZeroText()
    ensures PadStart2(Decimal(0)) == "00"
  {
  }

  lemma ThirtyText()
    ensures PadStart2(Decimal(30)) == "30"
  {
    assert Decimal(30) == "30";
  }

  lemma DigitCharValue(c: char)
    requires IsDigit(c)
    ensures DigitChar(DigitValue(c)) == c
  {
  }

  lemma {:induction false} TwoDigits(n: nat)
    requires n < 100
    ensures PadStart2(Decimal(n)) == [DigitChar(n / 10), DigitChar(n % 10)]
  {
    if n >= 10 {
      assert Decimal(n) == Decimal(n / 10) + [DigitChar(n % 10)];
      assert Decimal(n / 10) == [DigitChar(n / 10)];
    }
  }

  lemma PairValue(a: char, b: char)
    requires IsDigit(a) && IsDigit(b)
    ensures DigitsValue([a, b]) == 10 * DigitValue(a) + DigitValue(b)
  {
    var ab := [a, b];
    assert ab[..|ab| - 1] == [a];
    assert [a][..0] == [];
    assert DigitsValue([a]) == DigitValue(a);
    assert DigitsValue(ab) == DigitsValue([a]) * 10 + DigitValue(b);
  }

  lemma CanonicalValue(t: string)
    requires Canonical(t)
    ensures WellFormedTime(t)
    ensures ParseTime(t) == 60 * (10 * DigitValue(t[0]) + DigitValue(t[1]))
                            + 10 * DigitValue(t[3]) + DigitValue(t[4])
  {
    var hh, mm := t[..2], t[3..];
    assert t == hh + ":" + mm;
    SplitTime(hh, mm);
    assert hh == [t[0], t[1]] && mm == [t[3], t[4]];
    PairValue(t[0], t[1]);
    PairValue(t[3], t[4]);
  }

  /** For 0 <= m < 1440, `minutesToTime(m)` is a five-character zero-padded "HH:MM". */
  lemma MinutesToTimeCanonical(m: nat)
    requires m < 1440
    ensures Canonical(MinutesToTime(m))
    ensures MinutesToTime(m) == [DigitChar(m / 60 / 10), DigitChar(m / 60 % 10), ':',
                                 DigitChar(m % 60 / 10), DigitChar(m % 60 % 10)]
  {
    var h, mi := m / 60, m % 60;
    MinutesToTimeParts(m, h, mi);
    TwoDigits(h);
    TwoDigits(mi);
  }

  /** The converse round trip: a canonical time prints back to itself. */
  lemma CanonicalRoundTrip(t: string)
    requires Canonical(t)
    ensures WellFormedTime(t) && MinutesToTime(ParseTime(t)) == t
  {
    CanonicalValue(t);
    var h, mi := 10 * DigitValue(t[0]) + DigitValue(t[1]), 10 * DigitValue(t[3]) + DigitValue(t[4]);
    var m := ParseTime(t);
    assert m / 60 == h && m % 60 == mi;
    assert h / 10 == DigitValue(t[0]) && h % 10 == DigitValue(t[1]);
    assert mi / 10 == DigitValue(t[3]) && mi % 10 == DigitValue(t[4]);
    TwoDigits(h);
    TwoDigits(mi);
    DigitCharValue(t[0]);
    DigitCharValue(t[1]);
    DigitCharValue(t[3]);
    DigitCharValue(t[4]);
    assert PadStart2(Decimal(h)) == [t[0], t[1]];
    assert PadStart2(Decimal(mi)) == [t[3], t[4]];
    assert MinutesToTime(m) == [t[0], t[1]] + ":" + [t[3], t[4]];
  }
}
