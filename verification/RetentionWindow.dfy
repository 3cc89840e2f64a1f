/** Retention windows: api/v1/configstore_types.go and what the controller makes of them. */
module RetentionWindow {
  import opened Wrappers
  import opened Decimal
  import opened Integers

  /** Nanoseconds in 24 hours, as a time.Duration. */
  const DAY := 86_400_000_000_000

  /** The most days a 64-bit number of nanoseconds can hold. */
  const MAX_DAYS := 106_751

  const FOREVER := "Forever"

  /** strconv.Atoi: an optional sign, digits, and a value that fits. */
  function Atoi(s: string): Option<int> {
    var signed := s != "" && (s[0] == '-' || s[0] == '+');
    var digits := if signed then s[1..] else s;
    if digits == "" || !AllDigits(digits) then None
    else
      var value: int := Value(digits);
      var n := if s[0] == '-' then -value else value;
      if FitsInt64(n) then Some(n) else None
  }

  function UnitDays(c: char): Option<nat> {
    if c == 'd' then Some(1) else if c == 'w' then Some(7) else if c == 'm' then Some(30) else None
  }

  datatype WindowError = NotADuration | UnknownUnit

  /** 30d, 4w or 6m as a time.Duration, in 64-bit arithmetic. */
  function ParseRetentionWindow(value: string): Result<int, WindowError> {
    if |value| < 2 then Err(NotADuration)
    else match Atoi(value[..|value| - 1])
      case None => Err(NotADuration)
      case Some(count) =>
        if count < 1 then Err(NotADuration)
        else match UnitDays(value[|value| - 1])
          case None => Err(UnknownUnit)
          case Some(days) => Ok(Wrap(Wrap(count * days) * DAY))
  }

  /** The days a value asks for, as a number. */
  function AskedDays(value: string): (days: nat)
    requires ParseRetentionWindow(value).Ok?
    ensures days > 0
  {
    Atoi(value[..|value| - 1]).value * UnitDays(value[|value| - 1]).value
  }

  /** The enforced window as status shows it, in whole days. */
  function DescribeRetention(window: int): string {
    if window == 0 then FOREVER else Text(Quotient(window, DAY)) + "d"
  }

  lemma WrapTwice(x: int, y: int)
    ensures Wrap(Wrap(x) * y) == Wrap(x * y)
  {
    var k := (x + MAX_INT64 + 1) / TWO_64;
    assert Wrap(x) == x - k * TWO_64;
    assert Wrap(x) * y == x * y - (k * y) * TWO_64;
    WrapShift(x * y, k * y);
  }

  lemma WrapShift(x: int, k: int)
    ensures Wrap(x - k * TWO_64) == Wrap(x)
  {
    var a := x + MAX_INT64 + 1;
    assert (a - k * TWO_64) % TWO_64 == a % TWO_64 by {
      var q, r := a / TWO_64, a % TWO_64;
      assert a - k * TWO_64 == (q - k) * TWO_64 + r;
    }
  }

  lemma TextStarts(x: int)
    ensures Text(x) != "" && (Text(x)[0] == '-' || IsDigit(Text(x)[0]))
    ensures x >= 0 ==> AllDigits(Text(x)) && Value(Text(x)) == x
    ensures x < 0 ==> Text(x)[0] == '-'
  {
    PaddedNonEmpty(if x < 0 then -x else x);
  }

  /** Status never shows the days of a window that is too long. */
  lemma DescribedOnlyIfExact(window: int, days: nat)
    requires FitsInt64(window) && days > MAX_DAYS
    ensures DescribeRetention(window) != Text(days) + "d"
  {
    var shown := Quotient(window, DAY);
    TextStarts(days);
    TextStarts(shown);
    var a, b := Text(shown) + "d", Text(days) + "d";
    assert a[..|a| - 1] == Text(shown) && b[..|b| - 1] == Text(days);
    assert b[0] == Text(days)[0] && a[0] == Text(shown)[0];
  }

  /** A window is exact, and status shows the days that were asked for, if and only if these are
      at most 106751; then it is positive. */
  lemma WindowExactIff(value: string)
    requires ParseRetentionWindow(value).Ok?
    ensures var window, days := ParseRetentionWindow(value).value, AskedDays(value);
            && (window == days * DAY <==> days <= MAX_DAYS)
            && (DescribeRetention(window) == Text(days) + "d" <==> days <= MAX_DAYS)
            && (days <= MAX_DAYS ==> window > 0)
  {
    var days := AskedDays(value);
    WrapTwice(days, DAY);
    if days > MAX_DAYS {
      DescribedOnlyIfExact(ParseRetentionWindow(value).value, days);
    }
  }

  /** A little more than that and the window is negative: its cutoff lies in the future, and
      everything but the newest snapshot is superseded. */
  lemma OverlongWindowIsNegative(value: string)
    requires ParseRetentionWindow(value).Ok? && MAX_DAYS < AskedDays(value) <= 2 * MAX_DAYS
    ensures ParseRetentionWindow(value).value < 0
  {
    var days := AskedDays(value);
    WrapTwice(days, DAY);
    WrapShift(days * DAY, 1);
  }

  /** A count as it may be written: digits, and a sign if one likes. */
  ghost predicate Counts(s: string, sign: string, digits: string) {
    (sign == "" || sign == "+" || sign == "-") && digits != "" && AllDigits(digits) && s == sign + digits
  }

  lemma CountReads(s: string, sign: string, digits: string)
    requires Counts(s, sign, digits)
    ensures var n: int := if sign == "-" then -(Value(digits) as int) else Value(digits);
            Atoi(s) == if FitsInt64(n) then Some(n) else None
  {
    if sign == "" {
      assert s == digits && IsDigit(s[0]);
    } else {
      assert s[0] == sign[0] && s[1..] == digits;
    }
  }

  function DaysPer(unit: char): nat {
    if unit == 'd' then 1 else if unit == 'w' then 7 else 30
  }

  /** Which windows are accepted, and what they ask for: a positive count of days, weeks or months of
      thirty days; and the window is that time, when it fits. */
  lemma WindowReads(value: string, sign: string, digits: string, unit: char)
    requires |value| > 0 && Counts(value[..|value| - 1], sign, digits) && value[|value| - 1] == unit
    ensures ParseRetentionWindow(value).Ok? <==>
              sign != "-" && 1 <= Value(digits) <= MAX_INT64 && (unit == 'd' || unit == 'w' || unit == 'm')
    ensures ParseRetentionWindow(value).Ok? ==> AskedDays(value) == Value(digits) * DaysPer(unit)
    ensures ParseRetentionWindow(value).Ok? && Value(digits) * DaysPer(unit) <= MAX_DAYS ==>
              ParseRetentionWindow(value).value == Value(digits) * DaysPer(unit) * (24 * 60 * 60 * 1_000_000_000)
  {
    CountReads(value[..|value| - 1], sign, digits);
    if ParseRetentionWindow(value).Ok? {
      WindowExactIff(value);
    }
  }

  /** And nothing else is. */
  lemma WindowsAreCounts(value: string) returns (sign: string, digits: string)
    requires ParseRetentionWindow(value).Ok?
    ensures |value| > 0 && Counts(value[..|value| - 1], sign, digits)
  {
    var s := value[..|value| - 1];
    if s[0] == '-' || s[0] == '+' {
      sign, digits := [s[0]], s[1..];
    } else {
      sign, digits := "", s;
    }
  }
}
