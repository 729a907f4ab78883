/** The `MM:SS` countdown text of `PomodoroApp.update_display` and the decimal
    notation it rests on. */
module Display {

  predicate IsDigit(c: char)
  {
    '0' <= c <= '9'
  }

  predicate AllDigits(s: string)
  {
    forall i :: 0 <= i < |s| ==> IsDigit(s[i])
  }

  function DigitChar(d: nat): (c: char)
    requires d < 10
    ensures IsDigit(c) && c as int - '0' as int == d
  {
    (d + '0' as int) as char
  }

  /** Python's `str(n)` for a non-negative integer. */
  function Decimal(n: nat): (s: string)
    ensures 1 <= |s| && AllDigits(s)
    ensures |s| == 1 <==> n < 10
  {
    if n < 10 then [DigitChar(n)] else Decimal(n / 10) + [DigitChar(n % 10)]
  }

  /** Python's `int(s)` for a string of ASCII digits. */
  function ValueOf(s: string): nat
    requires AllDigits(s)
  {
    if s == [] then 0 else ValueOf(s[..|s| - 1]) * 10 + (s[|s| - 1] as int - '0' as int)
  }

  /** `f"{n:02}"`: at least two digits, zero-padded on the left. */
  function Pad2(n: nat): (s: string)
    ensures 2 <= |s| && AllDigits(s)
    ensures |s| == 2 <==> n < 100
  {
    if n < 10 then "0" + Decimal(n) else Decimal(n)
  }

  /** `update_display(seconds)`: minutes and seconds, each padded, joined by ':'. */
  function FormatTime(seconds: nat): (r: string)
    ensures 5 <= |r| && r[|r| - 3] == ':'
  {
    Pad2(seconds / 60) + ":" + Pad2(seconds % 60)
  }

  lemma {:induction false} DecimalRoundTrip(n: nat)
    ensures ValueOf(Decimal(n)) == n
  {
    if n >= 10 {
      var p := Decimal(n / 10);
      var s := p + [DigitChar(n % 10)];
      assert s[..|s| - 1] == p;
      DecimalRoundTrip(n / 10);
    }
  }

  /** A leading zero does not change the value that `int` reads. */
  lemma {:induction false} LeadingZero(s: string)
    requires AllDigits(s)
    ensures AllDigits("0" + s) && ValueOf("0" + s) == ValueOf(s)
  {
    if s != [] {
      var z := "0" + s;
      assert z[..|z| - 1] == "0" + s[..|s| - 1];
      LeadingZero(s[..|s| - 1]);
    }
  }

  lemma Pad2Value(n: nat)
    ensures ValueOf(Pad2(n)) == n
  {
    DecimalRoundTrip(n);
    if n < 10 {
      LeadingZero(Decimal(n));
    }
  }

  /** The displayed text splits at its last ':' into a minutes field and a
      two-digit seconds field, and minutes * 60 + seconds is the input. */
  lemma DisplayReadsBack(seconds: nat)
    ensures var r := FormatTime(seconds);
      var mm := r[..|r| - 3];
      var ss := r[|r| - 2..];
      && 2 <= |mm| && AllDigits(mm) && AllDigits(ss)
      && ValueOf(ss) < 60
      && ValueOf(mm) * 60 + ValueOf(ss) == seconds
  {
    var minutes, rest := seconds / 60, seconds % 60;
    assert minutes * 60 + rest == seconds && rest < 60;
    var m, s := Pad2(minutes), Pad2(rest);
    var r := m + ":" + s;
    assert r == FormatTime(seconds);
    assert |s| == 2;
    assert r[..|r| - 3] == m;
    assert r[|r| - 2..] == s;
    Pad2Value(minutes);
    Pad2Value(rest);
  }
}
