/** The compact UTC timestamps of snapshot keys: seconds, counted from the start of year 0,
    and their civil form. */
module Civil {
  import opened Wrappers
  import opened Order
  import opened Decimal

  const DAY := 86_400

  datatype Date = Date(year: nat, month: nat, day: nat)

  predicate Leap(year: nat) {
    year % 4 == 0 && (year % 100 != 0 || year % 400 == 0)
  }

  function DaysIn(year: nat, month: nat): (days: nat)
    ensures 28 <= days <= 31
  {
    if month == 2 then (if Leap(year) then 29 else 28)
    else if month == 4 || month == 6 || month == 9 || month == 11 then 30
    else 31
  }

  predicate ValidDate(d: Date) {
    1 <= d.month <= 12 && 1 <= d.day <= DaysIn(d.year, d.month)
  }

  /** The days before a month, counted from the start of year 0. */
  function MonthStart(year: nat, month: nat): nat
    requires 1 <= month <= 12
    decreases year, month
  {
    if month > 1 then MonthStart(year, month - 1) + DaysIn(year, month - 1)
    else if year > 0 then MonthStart(year - 1, 12) + 31
    else 0
  }

  function DayOf(d: Date): nat
    requires ValidDate(d)
  {
    MonthStart(d.year, d.month) + d.day - 1
  }

  /** The month a day falls in, searching forward from a month not after it. */
  function DateFrom(day: nat, year: nat, month: nat): (d: Date)
    requires 1 <= month <= 12 && MonthStart(year, month) <= day
    ensures ValidDate(d) && DayOf(d) == day
    decreases day - MonthStart(year, month)
  {
    var next := MonthStart(year, month) + DaysIn(year, month);
    if day < next then Date(year, month, day - MonthStart(year, month) + 1)
    else if month < 12 then DateFrom(day, year, month + 1)
    else DateFrom(day, year + 1, 1)
  }

  function DateOf(day: nat): (d: Date)
    ensures ValidDate(d) && DayOf(d) == day
  {
    DateFrom(day, 0, 1)
  }

  /** yyyymmdd as a number. */
  function DateNumber(d: Date): nat {
    (d.year * 100 + d.month) * 100 + d.day
  }

  lemma {:induction false} MonthsAscend(year: nat, month: nat, year': nat, month': nat)
    requires 1 <= month <= 12 && 1 <= month' <= 12
    requires year < year' || (year == year' && month < month')
    ensures MonthStart(year, month) + DaysIn(year, month) <= MonthStart(year', month')
    decreases year', month'
  {
    if month' > 1 {
      if !(year == year' && month == month' - 1) {
        MonthsAscend(year, month, year', month' - 1);
      }
    } else if !(year == year' - 1 && month == 12) {
      MonthsAscend(year, month, year' - 1, 12);
    }
  }

  /** Dates follow one another as their written form does. */
  lemma DateOrder(a: Date, b: Date)
    requires ValidDate(a) && ValidDate(b)
    ensures DayOf(a) < DayOf(b) <==> DateNumber(a) < DateNumber(b)
    ensures DayOf(a) == DayOf(b) <==> a == b
    ensures a == b <==> DateNumber(a) == DateNumber(b)
  {
    if a.year < b.year || (a.year == b.year && a.month < b.month) {
      MonthsAscend(a.year, a.month, b.year, b.month);
    } else if b.year < a.year || (a.year == b.year && b.month < a.month) {
      MonthsAscend(b.year, b.month, a.year, a.month);
    }
  }

  datatype Clock = Clock(hour: nat, minute: nat, second: nat)

  predicate ValidClock(c: Clock) {
    c.hour < 24 && c.minute < 60 && c.second < 60
  }

  function SecondOf(c: Clock): (s: nat)
    requires ValidClock(c)
    ensures s < DAY
  {
    3600 * c.hour + 60 * c.minute + c.second
  }

  function ClockOf(s: nat): (c: Clock)
    requires s < DAY
    ensures ValidClock(c) && SecondOf(c) == s
  {
    Clock(s / 3600, s / 60 % 60, s % 60)
  }

  /** hhmmss as a number. */
  function ClockNumber(c: Clock): nat {
    (c.hour * 100 + c.minute) * 100 + c.second
  }

  lemma ClockOrder(a: Clock, b: Clock)
    requires ValidClock(a) && ValidClock(b)
    ensures SecondOf(a) < SecondOf(b) <==> ClockNumber(a) < ClockNumber(b)
    ensures SecondOf(a) == SecondOf(b) <==> a == b
    ensures a == b <==> ClockNumber(a) == ClockNumber(b)
  {
  }

  function DateText(d: Date): string {
    Padded(d.year, 4) + Padded(d.month, 2) + Padded(d.day, 2)
  }

  function ClockText(c: Clock): string {
    Padded(c.hour, 2) + Padded(c.minute, 2) + Padded(c.second, 2)
  }

  /** time.Format with the layout 20060102T150405Z. */
  function StampOf(d: Date, c: Clock): string {
    DateText(d) + ("T" + (ClockText(c) + "Z"))
  }

  function Stamp(second: nat): string {
    StampOf(DateOf(second / DAY), ClockOf(second % DAY))
  }

  /** A moment whose year has at most four digits. */
  predicate FourDigitYear(second: nat) {
    DateOf(second / DAY).year < 10_000
  }

  /** What the key pattern admits: eight digits, T, six digits, Z. */
  predicate StampShaped(s: string) {
    && |s| == 16 && s[8] == 'T' && s[15] == 'Z'
    && AllDigits(s[..8]) && AllDigits(s[9..15])
  }

  function ParseDate(s: string): Date
    requires |s| == 8 && AllDigits(s)
  {
    Date(Value(s[..4]), Value(s[4..6]), Value(s[6..]))
  }

  function ParseClock(s: string): Clock
    requires |s| == 6 && AllDigits(s)
  {
    Clock(Value(s[..2]), Value(s[2..4]), Value(s[4..]))
  }

  /** time.Parse: every field must be in its range. */
  function ParseStamp(s: string): Option<nat>
    requires StampShaped(s)
  {
    var d, c := ParseDate(s[..8]), ParseClock(s[9..15]);
    if ValidDate(d) && ValidClock(c) then Some(DayOf(d) * DAY + SecondOf(c)) else None
  }

  lemma Widths()
    ensures Power(2) == 100 && Power(4) == 10_000 && Power(6) == 1_000_000 && Power(8) == 100_000_000
  {
    assert Power(2) == 10 * Power(1);
    assert Power(4) == 10 * Power(3) && Power(3) == 10 * Power(2);
    assert Power(6) == 10 * Power(5) && Power(5) == 10 * Power(4);
    assert Power(8) == 10 * Power(7) && Power(7) == 10 * Power(6);
  }

  lemma ThreeParts(x: string, y: string, z: string)
    requires AllDigits(x) && AllDigits(y) && AllDigits(z)
    ensures var s := x + y + z;
            AllDigits(s) && s[..|x|] == x && s[|x|..|x| + |y|] == y && s[|x| + |y|..] == z
  {
    var s := x + y + z;
    assert s[..|x|] == x && s[|x|..|x| + |y|] == y && s[|x| + |y|..] == z;
  }

  lemma ThreeFields(a: nat, b: nat, c: nat, w: nat)
    requires a < Power(w) && b < 100 && c < 100
    ensures var s := Padded(a, w) + Padded(b, 2) + Padded(c, 2);
            && |s| == w + 4 && AllDigits(s)
            && Value(s[..w]) == a && Value(s[w..w + 2]) == b && Value(s[w + 2..]) == c
  {
    Widths();
    PaddedReadsBack(a, w);
    PaddedReadsBack(b, 2);
    PaddedReadsBack(c, 2);
    ThreeParts(Padded(a, w), Padded(b, 2), Padded(c, 2));
  }

  lemma DateTextNumber(d: Date)
    requires ValidDate(d) && d.year < 10_000
    ensures DateNumber(d) < Power(8) && DateText(d) == Padded(DateNumber(d), 8)
  {
    Widths();
    ThreeNumbers(d.year, 4, d.month, d.day, DateNumber(d));
  }

  lemma ClockTextNumber(c: Clock)
    requires ValidClock(c)
    ensures ClockNumber(c) < Power(6) && ClockText(c) == Padded(ClockNumber(c), 6)
  {
    Widths();
    ThreeNumbers(c.hour, 2, c.minute, c.second, ClockNumber(c));
  }

  lemma TextsRead(d: Date, c: Clock)
    requires ValidDate(d) && d.year < 10_000 && ValidClock(c)
    ensures |DateText(d)| == 8 && AllDigits(DateText(d)) && ParseDate(DateText(d)) == d
    ensures |ClockText(c)| == 6 && AllDigits(ClockText(c)) && ParseClock(ClockText(c)) == c
  {
    Widths();
    ThreeFields(d.year, d.month, d.day, 4);
    ThreeFields(c.hour, c.minute, c.second, 2);
  }

  lemma StampFields(d: string, c: string)
    requires |d| == 8 && |c| == 6
    ensures var s := d + ("T" + (c + "Z"));
            |s| == 16 && s[8] == 'T' && s[15] == 'Z' && s[..8] == d && s[9..15] == c
  {
    var s := d + ("T" + (c + "Z"));
    assert s[..8] == d && s[9..15] == c;
  }

  lemma StampOfParses(s: string, d: Date, c: Clock, second: nat)
    requires ValidDate(d) && d.year < 10_000 && ValidClock(c)
    requires s == StampOf(d, c) && second == DayOf(d) * DAY + SecondOf(c)
    ensures StampShaped(s) && ParseStamp(s) == Some(second)
  {
    TextsRead(d, c);
    StampFields(DateText(d), ClockText(c));
  }

  lemma StampOfOrder(da: Date, ca: Clock, db: Date, cb: Clock)
    requires ValidDate(da) && da.year < 10_000 && ValidClock(ca) && ValidDate(db) && db.year < 10_000 && ValidClock(cb)
    ensures |StampOf(da, ca)| == |StampOf(db, cb)| == 16
    ensures Less(StampOf(da, ca), StampOf(db, cb)) <==>
            DateNumber(da) < DateNumber(db) || (DateNumber(da) == DateNumber(db) && ClockNumber(ca) < ClockNumber(cb))
    ensures StampOf(da, ca) == StampOf(db, cb)
            <==> DateNumber(da) == DateNumber(db) && ClockNumber(ca) == ClockNumber(cb)
  {
    DateTextNumber(da);
    DateTextNumber(db);
    ClockTextNumber(ca);
    ClockTextNumber(cb);
    TextsRead(da, ca);
    TextsRead(db, cb);
    PaddedOrder(DateNumber(da), DateNumber(db), 8);
    PaddedOrder(ClockNumber(ca), ClockNumber(cb), 6);
    StampTexts(DateText(da), ClockText(ca), DateText(db), ClockText(cb));
  }

  lemma StampTexts(d: string, c: string, d': string, c': string)
    requires |d| == |d'| == 8 && |c| == |c'| == 6
    ensures var s, s' := d + ("T" + (c + "Z")), d' + ("T" + (c' + "Z"));
            && |s| == |s'| == 16 && (Less(s, s') <==> Less(d, d') || (d == d' && Less(c, c')))
            && (s == s' <==> d == d' && c == c')
  {
    StampFields(d, c);
    StampFields(d', c');
    LessConcat(d, "T" + (c + "Z"), d', "T" + (c' + "Z"));
    LessSamePrefix("T", c + "Z", c' + "Z");
    LessConcat(c, "Z", c', "Z");
    LessIrreflexive("Z");
  }

  /** Timestamps have one width, and sort as strings in time order. */
  lemma StampOrder(a: nat, b: nat)
    requires FourDigitYear(a) && FourDigitYear(b)
    ensures |Stamp(a)| == |Stamp(b)|
    ensures Less(Stamp(a), Stamp(b)) <==> a < b
    ensures Stamp(a) == Stamp(b) <==> a == b
  {
    var da, db, ca, cb := DateOf(a / DAY), DateOf(b / DAY), ClockOf(a % DAY), ClockOf(b % DAY);
    StampOfOrder(da, ca, db, cb);
    DateOrder(da, db);
    ClockOrder(ca, cb);
    DaysDecide(a, b);
  }

  lemma DaysDecide(a: nat, b: nat)
    ensures a < b <==> a / DAY < b / DAY || (a / DAY == b / DAY && a % DAY < b % DAY)
    ensures a == b <==> a / DAY == b / DAY && a % DAY == b % DAY
  {
  }

  lemma DaysAndSeconds(total: nat, day: nat, second: nat)
    requires second < DAY
    ensures total == day * DAY + second <==> total / DAY == day && total % DAY == second
  {
  }

  /** Parsing inverts formatting. */
  lemma StampParses(second: nat)
    requires FourDigitYear(second)
    ensures StampShaped(Stamp(second)) && ParseStamp(Stamp(second)) == Some(second)
  {
    DaysAndSeconds(second, second / DAY, second % DAY);
    StampOfParses(Stamp(second), DateOf(second / DAY), ClockOf(second % DAY), second);
  }

  lemma ParsedDateIsCanonical(s: string)
    requires |s| == 8 && AllDigits(s)
    ensures DateText(ParseDate(s)) == s && ParseDate(s).year < 10_000
  {
    Widths();
    ValueBound(s[..4]);
    DigitsArePadded(s[..4]);
    DigitsArePadded(s[4..6]);
    DigitsArePadded(s[6..]);
    assert s == s[..4] + s[4..6] + s[6..];
  }

  lemma ParsedClockIsCanonical(s: string)
    requires |s| == 6 && AllDigits(s)
    ensures ClockText(ParseClock(s)) == s
  {
    DigitsArePadded(s[..2]);
    DigitsArePadded(s[2..4]);
    DigitsArePadded(s[4..]);
    assert s == s[..2] + s[2..4] + s[4..];
  }

  lemma StampOfSecond(d: Date, c: Clock, total: nat)
    requires ValidDate(d) && ValidClock(c) && total == DayOf(d) * DAY + SecondOf(c)
    ensures DateOf(total / DAY) == d && ClockOf(total % DAY) == c
  {
    DaysAndSeconds(total, DayOf(d), SecondOf(c));
    DateOrder(d, DateOf(total / DAY));
    ClockOrder(c, ClockOf(total % DAY));
  }

  lemma StampOfParts(s: string)
    requires StampShaped(s) && ValidDate(ParseDate(s[..8])) && ValidClock(ParseClock(s[9..15]))
    ensures StampOf(ParseDate(s[..8]), ParseClock(s[9..15])) == s && ParseDate(s[..8]).year < 10_000
  {
    ParsedDateIsCanonical(s[..8]);
    ParsedClockIsCanonical(s[9..15]);
    assert s == s[..8] + ("T" + (s[9..15] + "Z"));
  }

  /** And formatting inverts parsing: a timestamp names one second in one way. */
  lemma ParsedStampIsCanonical(s: string)
    requires StampShaped(s) && ParseStamp(s).Some?
    ensures FourDigitYear(ParseStamp(s).value) && Stamp(ParseStamp(s).value) == s
  {
    StampOfParts(s);
    StampOfSecond(ParseDate(s[..8]), ParseClock(s[9..15]), ParseStamp(s).value);
  }

  /** Timestamps that parse sort as strings in time order. */
  lemma ParsedStampsOrder(s: string, s': string)
    requires StampShaped(s) && ParseStamp(s).Some? && StampShaped(s') && ParseStamp(s').Some?
    ensures Less(s, s') <==> ParseStamp(s).value < ParseStamp(s').value
    ensures s == s' <==> ParseStamp(s).value == ParseStamp(s').value
  {
    ParsedStampIsCanonical(s);
    ParsedStampIsCanonical(s');
    StampOrder(ParseStamp(s).value, ParseStamp(s').value);
  }

  const MONTH_DAYS := [31, 28, 31, 30, 31, 30, 31, 31, 30, 31, 30, 31]

  /** The calendar day after. */
  function Tomorrow(d: Date): Date
    requires 1 <= d.month <= 12
  {
    var leap := d.year % 400 == 0 || (d.year % 4 == 0 && d.year % 100 != 0);
    var last := if d.month == 2 && leap then 29 else MONTH_DAYS[d.month - 1];
    if d.day < last then Date(d.year, d.month, d.day + 1)
    else if d.month < 12 then Date(d.year, d.month + 1, 1)
    else Date(d.year + 1, 1, 1)
  }

  lemma MonthTable(year: nat, month: nat)
    requires 1 <= month <= 12
    ensures DaysIn(year, month) == if month == 2 && Leap(year) then 29 else MONTH_DAYS[month - 1]
  {
  }

  /** Days are counted from the first of year 0, and each is followed by the next of the Gregorian
      calendar. */
  lemma DaysFollow(day: nat)
    ensures DateOf(0) == Date(0, 1, 1)
    ensures DateOf(day + 1) == Tomorrow(DateOf(day))
  {
    var d, next := DateOf(day), Tomorrow(DateOf(day));
    MonthTable(d.year, d.month);
    assert ValidDate(next);
    assert DayOf(next) == day + 1;
    DateOrder(DateOf(day + 1), next);
    DateOrder(DateOf(0), Date(0, 1, 1));
  }

  /** A stamp is the date and the time of day of its second, zero-padded. */
  lemma StampReads(second: nat, h: nat, m: nat, x: nat)
    requires h < 24 && m < 60 && x < 60 && second % 86_400 == 3600 * h + 60 * m + x
    ensures var d := DateOf(second / 86_400);
            Stamp(second) == Padded(d.year, 4) + Padded(d.month, 2) + Padded(d.day, 2)
                             + ("T" + (Padded(h, 2) + Padded(m, 2) + Padded(x, 2) + "Z"))
  {
    ClockOrder(Clock(h, m, x), ClockOf(second % DAY));
  }
}
