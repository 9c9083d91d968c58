/**
 * The two display formatters of the page: `formatNumber` for counts and
 * `formatDuration` for a length in seconds, over whole numbers.
 */
module Format {
  import opened Wrappers
  import opened Numerals
  import opened Strings

  const Thousand: nat := 1000
  const Million: nat := 1000000

  // ------------------------------------------------------------ formatNumber

  /** `x.toFixed(1)` for `x = t / 10`: the whole part, a point and one decimal. */
  function TenthsToString(t: nat): string {
    NatToString(t / 10) + "." + [DigitChar(t % 10)]
  }

  /** Reads a one-decimal numeral such as `"2.5"` as a count of tenths. */
  function ParseTenths(s: string): Option<nat> {
    if |s| >= 3 && s[|s| - 2] == '.' && AllDigits(s[..|s| - 2]) && IsDigit(s[|s| - 1]) then
      Some(DigitsValue(s[..|s| - 2]) * 10 + DigitValue(s[|s| - 1]))
    else
      None
  }

  /** The one-decimal rendering reads back as the tenths it was made from. */
  lemma TenthsRoundTrip(t: nat)
    ensures ParseTenths(TenthsToString(t)) == Some(t)
  {
    var s := TenthsToString(t);
    var whole := NatToString(t / 10);
    assert s[..|s| - 2] == whole;
    DigitRoundTrip(t % 10);
  }

  /**
   * The tenth nearest to `n / unit`, a tie going up: what `(n / unit).toFixed(1)`
   * shows, except where `n / unit` lies exactly half-way between two tenths and
   * its double falls just below the half.
   */
  function RoundToTenths(n: nat, unit: nat): (t: nat)
    requires unit > 0 && unit % 2 == 0
    ensures 2 * t * unit - unit <= 20 * n < 2 * t * unit + unit
  {
    var t := (10 * n + unit / 2) / unit;
    assert t * unit <= 10 * n + unit / 2 < t * unit + unit;
    t
  }

  /**
   * `r` is a one-decimal numeral followed by `suffix`, its whole part has no
   * superfluous leading zero, and the numeral is `n / unit` rounded to the
   * nearest tenth (half a tenth either way, ties up).
   */
  predicate ShowsTenths(r: string, suffix: char, n: int, unit: nat) {
    |r| >= 4 && r[|r| - 1] == suffix && (r[0] != '0' || r[1] == '.')
    && ParseTenths(r[..|r| - 1]).Some?
    && var t := ParseTenths(r[..|r| - 1]).value;
       2 * t * unit - unit <= 20 * n < 2 * t * unit + unit
  }

  /**
   * `formatNumber(num)`: `"0"` for an absent or zero count, millions with an
   * `M` and thousands with a `K` to one decimal, and any other number as its
   * plain decimal numeral.
   */
  function FormatNumber(num: Option<int>): (r: string)
    ensures num == None || num == Some(0) ==> r == "0"
    ensures num.Some? && num.value >= Million ==> ShowsTenths(r, 'M', num.value, Million)
    ensures num.Some? && Thousand <= num.value < Million ==> ShowsTenths(r, 'K', num.value, Thousand)
    ensures num.Some? && num.value != 0 && num.value < Thousand ==>
      ParseInt(r) == Some(num.value) && CanonicalInt(r)
  {
    match num
    case None => "0"
    case Some(n) =>
      if n == 0 then
        "0"
      else if n >= Million then
        Suffixed(RoundToTenths(n, Million), 'M')
      else if n >= Thousand then
        Suffixed(RoundToTenths(n, Thousand), 'K')
      else
        IntToString(n)
  }

  function Suffixed(t: nat, suffix: char): (r: string)
    ensures |r| >= 4 && r[|r| - 1] == suffix && ParseTenths(r[..|r| - 1]) == Some(t)
    ensures r[0] != '0' || r[1] == '.'
  {
    var whole := NatToString(t / 10);
    var r := TenthsToString(t) + [suffix];
    TenthsRoundTrip(t);
    assert r[..|r| - 1] == TenthsToString(t);
    assert r[0] == whole[0];
    assert |whole| == 1 ==> r[1] == '.';
    r
  }

  /** As written, a count just under a million shows as `"1000.0K"` rather than `"1.0M"`. */
  lemma ThousandsOverflowExample()
    ensures FormatNumber(Some(999950)) == "1000.0K"
  {
    assert RoundToTenths(999950, Thousand) == 10000;
    assert NatToString(1000) == "1000" by {
      assert NatToString(1) == "1";
      assert NatToString(10) == "10";
      assert NatToString(100) == "100";
    }
    assert TenthsToString(10000) == "1000.0";
  }

  /** The smallest count whose thousands round up to 1000.0. */
  const RoundsToMillion: nat := 999950

  /**
   * `formatNumber` with the suffix chosen after rounding: every count that
   * would show as `1000.0K` shows in millions instead, so a `K` display is
   * always below 1000.
   */
  function FormatNumberRounded(num: Option<int>): (r: string)
    ensures num == None || num == Some(0) ==> r == "0"
    ensures num.Some? && num.value >= RoundsToMillion ==> ShowsTenths(r, 'M', num.value, Million)
    ensures num.Some? && Thousand <= num.value < RoundsToMillion ==>
      ShowsTenths(r, 'K', num.value, Thousand) && ParseTenths(r[..|r| - 1]).value < 10000
    ensures num.Some? && num.value != 0 && num.value < Thousand ==>
      ParseInt(r) == Some(num.value) && CanonicalInt(r)
  {
    match num
    case None => "0"
    case Some(n) =>
      if n == 0 then
        "0"
      else if n >= RoundsToMillion then
        Suffixed(RoundToTenths(n, Million), 'M')
      else if n >= Thousand then
        Suffixed(RoundToTenths(n, Thousand), 'K')
      else
        IntToString(n)
  }

  /** The corrected formatter differs from the original only on the counts that rounded up to 1000.0K. */
  lemma RoundedAgreesBelowOverflow(num: Option<int>)
    requires num.None? || num.value < RoundsToMillion || num.value >= Million
    ensures FormatNumberRounded(num) == FormatNumber(num)
  {
  }

  // ---------------------------------------------------------- formatDuration

  /** The quotient of JavaScript's `%`, rounded toward zero. */
  function TruncatedQuotient(a: int, b: nat): int
    requires b > 0
  {
    if a >= 0 then a / b else -((-a) / b)
  }

  /**
   * JavaScript's `a % b`: the remainder of the quotient rounded toward zero,
   * so it takes the sign of the dividend.
   */
  function JsRemainder(a: int, b: nat): (r: int)
    requires b > 0
    ensures a == TruncatedQuotient(a, b) * b + r
    ensures a >= 0 ==> 0 <= r < b
    ensures a < 0 ==> -(b as int) < r <= 0
  {
    if a >= 0 then
      a % b
    else
      var q := (-a) / b;
      assert -a == q * b + (-a) % b;
      assert -(q * b) == (-q) * b;
      -((-a) % b)
  }

  /**
   * `r` reads `m:ss`: a numeral without leading zero for the minutes, a colon
   * and two digits for the seconds, and they add up to `seconds`.
   */
  predicate ShowsMinutes(r: string, seconds: int) {
    |r| >= 4 && r[|r| - 3] == ':' && r[0] != '0'
    && AllDigits(r[..|r| - 3]) && AllDigits(r[|r| - 2..])
    && DigitsValue(r[|r| - 2..]) < 60
    && DigitsValue(r[..|r| - 3]) * 60 + DigitsValue(r[|r| - 2..]) == seconds
  }

  /**
   * `formatDuration(seconds)`: `m:ss` with the seconds padded to two digits
   * when there is at least one whole minute, otherwise the seconds and `s`.
   */
  function FormatDuration(seconds: int): (r: string)
    ensures 0 <= seconds < 60 ==> r == NatToString(seconds) + "s"
    ensures seconds >= 60 ==> ShowsMinutes(r, seconds)
    ensures seconds < 0 ==> r == IntToString(JsRemainder(seconds, 60)) + "s"
  {
    // Math.floor(seconds / 60): Dafny's division by a positive divisor rounds down
    var mins := seconds / 60;
    var secs := JsRemainder(seconds, 60);
    if mins > 0 then
      MinutesAndSeconds(mins, secs)
    else
      IntToString(secs) + "s"
  }

  /** `${mins}:${secs.toString().padStart(2, "0")}` */
  function MinutesAndSeconds(mins: nat, secs: nat): (r: string)
    requires mins > 0 && secs < 60
    ensures ShowsMinutes(r, mins * 60 + secs)
  {
    MinutesAndSecondsShows(mins, secs);
    NatToString(mins) + ":" + PadStart(NatToString(secs), 2, '0')
  }

  lemma MinutesAndSecondsShows(mins: nat, secs: nat)
    requires mins > 0 && secs < 60
    ensures ShowsMinutes(NatToString(mins) + ":" + PadStart(NatToString(secs), 2, '0'), mins * 60 + secs)
  {
    TwoDigits(secs);
    ShowsMinutesOf(NatToString(mins), PadStart(NatToString(secs), 2, '0'), mins, secs);
  }

  /** Minutes and two-digit seconds joined by a colon read `m:ss`. */
  lemma ShowsMinutesOf(m: string, p: string, mins: nat, secs: nat)
    requires |m| > 0 && AllDigits(m) && m[0] != '0' && DigitsValue(m) == mins
    requires |p| == 2 && AllDigits(p) && DigitsValue(p) == secs && secs < 60
    ensures ShowsMinutes(m + ":" + p, mins * 60 + secs)
  {
    ColonSplit(m, p);
  }

  lemma ColonSplit(m: string, p: string)
    requires |p| == 2
    ensures var r := m + ":" + p;
      |r| == |m| + 3 && r[..|r| - 3] == m && r[|r| - 3] == ':' && r[|r| - 2..] == p
      && (m != [] ==> r[0] == m[0])
  {
    var r := m + ":" + p;
    assert r[..|r| - 3] == m;
    assert r[|r| - 2..] == p;
  }

  /** `secs.toString().padStart(2, "0")` is two digits that read back as `secs`. */
  lemma TwoDigits(secs: nat)
    requires secs < 100
    ensures var p := PadStart(NatToString(secs), 2, '0');
      |p| == 2 && AllDigits(p) && DigitsValue(p) == secs
  {
    var s := NatToString(secs);
    var p := PadStart(s, 2, '0');
    if |s| == 1 {
      assert p == ['0'] + s;
      assert p[..1] == "0";
    } else {
      assert p == s;
    }
  }

  // ---------------------------------------------------------------- examples

  /** Absent, zero, plain, thousands and millions counts. */
  lemma FormatNumberExamples()
    ensures FormatNumber(None) == "0" && FormatNumber(Some(0)) == "0"
    ensures FormatNumber(Some(500)) == "500"
    ensures FormatNumber(Some(1500)) == "1.5K"
    ensures FormatNumber(Some(2500000)) == "2.5M"
  {
    assert NatToString(500) == "500" by {
      assert NatToString(5) == "5";
      assert NatToString(50) == NatToString(5) + "0";
    }
    assert RoundToTenths(1500, Thousand) == 15;
    assert TenthsToString(15) == "1.5" by { assert NatToString(1) == "1"; }
    assert RoundToTenths(2500000, Million) == 25;
    assert TenthsToString(25) == "2.5" by { assert NatToString(2) == "2"; }
  }

  /** Durations under a minute: `45` shows as `"45s"`, `5` as `"5s"`. */
  lemma FormatSecondsExamples()
    ensures FormatDuration(45) == "45s"
    ensures FormatDuration(5) == "5s"
  {
    assert NatToString(45) == "45" by { assert NatToString(4) == "4"; }
    assert NatToString(5) == "5";
  }

  /** A minute and a half shows as `"1:30"`. */
  lemma FormatMinuteAndHalfExample()
    ensures FormatDuration(90) == "1:30"
  {
    assert 90 / 60 == 1 && JsRemainder(90, 60) == 30;
    assert FormatDuration(90) == MinutesAndSeconds(1, 30);
    assert NatToString(30) == "30" by { assert NatToString(3) == "3"; }
    assert NatToString(1) == "1";
    assert PadStart("30", 2, '0') == "30";
  }

  /** A whole minute shows as `"1:00"`, the seconds padded to two digits. */
  lemma FormatWholeMinuteExample()
    ensures FormatDuration(60) == "1:00"
  {
    assert 60 / 60 == 1 && JsRemainder(60, 60) == 0;
    assert FormatDuration(60) == MinutesAndSeconds(1, 0);
    assert NatToString(0) == "0";
    assert NatToString(1) == "1";
    assert PadStart("0", 2, '0') == "00";
  }
}
