/** PostgreSQL memory settings: internal/restore/celenv/pgmem.go. */
module PgMemory {
  import opened Wrappers
  import opened Decimal
  import opened Integers

  predicate IsSpace(c: char) {
    c == ' ' || c == '\t' || c == '\n' || c == '\r' || c == 0x0c as char
  }

  function SkipSpace(s: string): string {
    if s != "" && IsSpace(s[0]) then SkipSpace(s[1..]) else s
  }

  function DropSpace(s: string): string {
    if s != "" && IsSpace(s[|s| - 1]) then DropSpace(s[..|s| - 1]) else s
  }

  /** How many digits s starts with. */
  function LeadingDigits(s: string): (n: nat)
    ensures n <= |s| && AllDigits(s[..n])
  {
    if s == "" || !IsDigit(s[0]) then 0
    else
      var n := 1 + LeadingDigits(s[1..]);
      assert s[..n] == [s[0]] + s[1..][..n - 1];
      n
  }

  predicate IsLetterUnit(c: char) {
    c in "kKmMgGtT"
  }

  predicate IsUnitText(s: string) {
    || s == ""
    || (|s| == 1 && (IsLetterUnit(s[0]) || s[0] in "bB"))
    || (|s| == 2 && IsLetterUnit(s[0]) && s[1] in "bB")
  }

  /** The groups of the setting pattern: sign, digits and unit. */
  datatype Setting = Setting(negative: bool, digits: string, unit: string) {
    function Amount(): int
      requires AllDigits(digits)
    {
      var n: int := Value(digits);
      if negative then -n else n
    }
  }

  function Match(value: string): (m: Option<Setting>)
    ensures m.Some? ==> AllDigits(m.value.digits) && IsUnitText(m.value.unit)
  {
    var s := SkipSpace(value);
    var negative := s != "" && s[0] == '-';
    var t := if negative then s[1..] else s;
    var n := LeadingDigits(t);
    var unit := DropSpace(SkipSpace(t[n..]));
    if n > 0 && IsUnitText(unit) then Some(Setting(negative, t[..n], unit)) else None
  }

  function Upper(c: char): char {
    if 'a' <= c <= 'z' then (c as int - 32) as char else c
  }

  function ToUpper(s: string): (u: string)
    ensures |u| == |s|
  {
    if s == "" then "" else [Upper(s[0])] + ToUpper(s[1..])
  }

  /** The unit letter, or "" for bytes. */
  function Normalized(unit: string): string {
    var upper := ToUpper(unit);
    if upper != "" && upper[|upper| - 1] == 'B' then upper[..|upper| - 1] else upper
  }

  predicate IsMultiplier(m: int) {
    m == 1 || m == 0x400 || m == 0x10_0000 || m == 0x4000_0000 || m == 0x100_0000_0000
  }

  function Multiplier(normalized: string): (m: Option<int>)
    ensures m.Some? ==> IsMultiplier(m.value)
  {
    if normalized == "" then Some(1)
    else if normalized == "K" then Some(0x400)
    else if normalized == "M" then Some(0x10_0000)
    else if normalized == "G" then Some(0x4000_0000)
    else if normalized == "T" then Some(0x100_0000_0000)
    else None
  }

  function CanonicalUnit(normalized: string): string {
    if normalized == "" then "" else if normalized == "K" then "kB" else normalized + "B"
  }

  datatype MemoryError = NotASetting | OutOfRange | UnknownUnit | RoundsToZero

  function ParsePgMemory(value: string): Result<int, MemoryError> {
    match Match(value)
    case None => Err(NotASetting)
    case Some(m) =>
      if !FitsInt64(m.Amount()) then Err(OutOfRange)
      else match Multiplier(Normalized(m.unit))
        case None => Err(UnknownUnit)
        case Some(unit) => Ok(Wrap(m.Amount() * unit))
  }

  function FormatPgMemory(bytes: int, unit: string): Result<string, MemoryError> {
    match Multiplier(Normalized(unit))
    case None => Err(UnknownUnit)
    case Some(m) =>
      if Quotient(bytes, m) == 0 && bytes != 0 then Err(RoundsToZero)
      else Ok(Text(Quotient(bytes, m)) + CanonicalUnit(Normalized(unit)))
  }

  function UnitOf(value: string): string {
    match Match(value)
    case None => ""
    case Some(m) => CanonicalUnit(Normalized(m.unit))
  }

  lemma UnitTextNormalizes(unit: string)
    requires IsUnitText(unit)
    ensures Multiplier(Normalized(unit)).Some?
  {
    if |unit| == 1 {
      assert ToUpper(unit) == [Upper(unit[0])] + ToUpper(unit[1..]);
    } else if |unit| == 2 {
      assert ToUpper(unit) == [Upper(unit[0])] + ToUpper(unit[1..]);
      assert ToUpper(unit[1..]) == [Upper(unit[1])] + ToUpper(unit[1..][1..]);
    }
  }

  lemma CanonicalUnitNormalizes(letter: string)
    requires Multiplier(letter).Some?
    ensures Normalized(CanonicalUnit(letter)) == letter && IsUnitText(CanonicalUnit(letter))
    ensures CanonicalUnit(letter) != "" ==> !IsDigit(CanonicalUnit(letter)[0])
    ensures DropSpace(SkipSpace(CanonicalUnit(letter))) == CanonicalUnit(letter)
  {
    var unit := CanonicalUnit(letter);
    if letter != "" {
      assert ToUpper(unit) == [Upper(unit[0])] + ToUpper(unit[1..]);
      assert ToUpper(unit[1..]) == [Upper(unit[1])] + ToUpper(unit[1..][1..]);
    }
  }

  lemma {:induction false} DigitsEnd(digits: string, rest: string)
    requires AllDigits(digits) && (rest != "" ==> !IsDigit(rest[0]))
    ensures LeadingDigits(digits + rest) == |digits|
  {
    if digits == "" {
      assert digits + rest == rest;
    } else {
      assert (digits + rest)[1..] == digits[1..] + rest;
      DigitsEnd(digits[1..], rest);
    }
  }

  lemma MatchOf(sign: string, digits: string, unit: string)
    requires sign == "" || sign == "-"
    requires digits != "" && AllDigits(digits) && IsUnitText(unit)
    ensures Match(sign + (digits + unit)) == Some(Setting(sign == "-", digits, unit))
  {
    assert "" + (unit + "") == unit && "" + (sign + (digits + unit)) == sign + (digits + unit);
    WrittenMatches(sign + (digits + unit), Setting(sign == "-", digits, unit), "", "", "");
  }

  lemma TextParts(amount: int) returns (sign: string, digits: string)
    ensures Text(amount) == sign + digits && (sign == "" || sign == "-")
    ensures digits != "" && AllDigits(digits)
    ensures amount == if sign == "-" then -(Value(digits) as int) else Value(digits)
  {
    if amount < 0 {
      PaddedNonEmpty(-amount);
      sign, digits := "-", Padded(-amount, 1);
    } else {
      PaddedNonEmpty(amount);
      sign, digits := "", Padded(amount, 1);
      assert Text(amount) == sign + digits;
    }
  }

  /** What is formatted matches again, as the same amount in the same unit. */
  lemma FormattedMatches(amount: int, letter: string)
    requires Multiplier(letter).Some?
    ensures var m := Match(Text(amount) + CanonicalUnit(letter));
            m.Some? && m.value.Amount() == amount && m.value.unit == CanonicalUnit(letter)
  {
    var unit := CanonicalUnit(letter);
    var sign, digits := TextParts(amount);
    CanonicalUnitNormalizes(letter);
    MatchOf(sign, digits, unit);
    assert Text(amount) + unit == sign + (digits + unit);
  }

  /** A product of whole units divides back exactly. */
  lemma WholeUnits(a: int, m: int)
    requires IsMultiplier(m)
    ensures Quotient(a * m, m) == a && (a == 0 <==> a * m == 0)
  {
    if m == 1 {
    } else if m == 0x400 {
    } else if m == 0x10_0000 {
    } else if m == 0x4000_0000 {
    } else {
      assert m == 0x100_0000_0000;
    }
  }

  /** Truncation loses less than one unit, toward zero, and leaves nothing only of an amount
      smaller than the unit. */
  lemma TruncationLoss(a: int, m: int)
    requires IsMultiplier(m) && FitsInt64(a)
    ensures var lost := a - Quotient(a, m) * m;
            -m < lost < m && (a >= 0 ==> lost >= 0) && (a <= 0 ==> lost <= 0)
    ensures Quotient(a, m) == 0 <==> -m < a < m
    ensures FitsInt64(Quotient(a, m) * m) && FitsInt64(Quotient(a, m))
  {
    if m == 1 {
    } else if m == 0x400 {
    } else if m == 0x10_0000 {
    } else if m == 0x4000_0000 {
    } else {
      assert m == 0x100_0000_0000;
    }
  }

  /** Formatting and reading back: the error cases, and what truncation may lose. */
  lemma FormatLosesLessThanAUnit(bytes: int, unit: string)
    requires FitsInt64(bytes) && Multiplier(Normalized(unit)).Some?
    ensures var m, f := Multiplier(Normalized(unit)).value, FormatPgMemory(bytes, unit);
            && (f.Err? <==> bytes != 0 && -m < bytes < m)
            && (f.Ok? ==> ParsePgMemory(f.value).Ok?
                          && var lost := bytes - ParsePgMemory(f.value).value;
                             -m < lost < m && (bytes >= 0 ==> lost >= 0) && (bytes <= 0 ==> lost <= 0))
  {
    var letter := Normalized(unit);
    var m := Multiplier(letter).value;
    TruncationLoss(bytes, m);
    FormattedMatches(Quotient(bytes, m), letter);
    CanonicalUnitNormalizes(letter);
  }

  /** A setting read and written in its own unit reads as the same number of bytes, whenever
      that number fits 64 bits; and only then is it read exactly. */
  lemma SettingRoundTrips(value: string)
    requires Match(value).Some? && FitsInt64(Match(value).value.Amount())
    ensures var m := Match(value).value;
            var unit := Multiplier(Normalized(m.unit));
            && unit.Some? && ParsePgMemory(value).Ok?
            && (ParsePgMemory(value).value == m.Amount() * unit.value <==> FitsInt64(m.Amount() * unit.value))
            && (FitsInt64(m.Amount() * unit.value) ==>
                  && FormatPgMemory(ParsePgMemory(value).value, UnitOf(value)).Ok?
                  && ParsePgMemory(FormatPgMemory(ParsePgMemory(value).value, UnitOf(value)).value)
                    == ParsePgMemory(value))
  {
    var m := Match(value).value;
    UnitTextNormalizes(m.unit);
    var letter := Normalized(m.unit);
    var unit := Multiplier(letter).value;
    CanonicalUnitNormalizes(letter);
    if FitsInt64(m.Amount() * unit) {
      WholeUnits(m.Amount(), unit);
      FormattedMatches(m.Amount(), letter);
    }
  }

  predicate Spaces(s: string) {
    forall i :: 0 <= i < |s| ==> IsSpace(s[i])
  }

  lemma {:induction false} SkipSpaceSkips(a: string, rest: string)
    requires Spaces(a) && (rest != "" ==> !IsSpace(rest[0]))
    ensures SkipSpace(a + rest) == rest
  {
    if a == "" {
      assert a + rest == rest;
    } else {
      assert (a + rest)[1..] == a[1..] + rest;
      SkipSpaceSkips(a[1..], rest);
    }
  }

  lemma {:induction false} DropSpaceDrops(rest: string, c: string)
    requires Spaces(c) && (rest != "" ==> !IsSpace(rest[|rest| - 1]))
    ensures DropSpace(rest + c) == rest
  {
    if c == "" {
      assert rest + c == rest;
    } else {
      assert (rest + c)[..|rest + c| - 1] == rest + c[..|c| - 1];
      DropSpaceDrops(rest, c[..|c| - 1]);
    }
  }

  lemma {:induction false} SkippedSpace(s: string) returns (a: string)
    ensures Spaces(a) && s == a + SkipSpace(s)
  {
    a := "";
    if s != "" && IsSpace(s[0]) {
      a := SkippedSpace(s[1..]);
      a := [s[0]] + a;
    }
  }

  lemma {:induction false} DroppedSpace(s: string) returns (c: string)
    ensures Spaces(c) && s == DropSpace(s) + c
  {
    c := "";
    if s != "" && IsSpace(s[|s| - 1]) {
      c := DroppedSpace(s[..|s| - 1]);
      c := c + [s[|s| - 1]];
    }
  }

  /** A setting as PostgreSQL writes one: an optional sign, digits and a unit, with spaces around and
      between them. */
  ghost predicate Written(value: string, m: Setting, a: string, b: string, c: string) {
    && Spaces(a) && Spaces(b) && Spaces(c) && m.digits != "" && AllDigits(m.digits) && IsUnitText(m.unit)
    && value == a + ((if m.negative then "-" else "") + (m.digits + (b + (m.unit + c))))
  }

  lemma UnitEnds(b: string, unit: string, c: string)
    requires Spaces(b) && Spaces(c) && IsUnitText(unit)
    ensures DropSpace(SkipSpace(b + (unit + c))) == unit
    ensures b + (unit + c) != "" ==> !IsDigit((b + (unit + c))[0])
  {
    if unit == "" {
      assert b + (unit + c) == (b + c) + "" && Spaces(b + c);
      SkipSpaceSkips(b + c, "");
    } else {
      SkipSpaceSkips(b, unit + c);
      DropSpaceDrops(unit, c);
    }
  }

  lemma WrittenMatches(value: string, m: Setting, a: string, b: string, c: string)
    requires Written(value, m, a, b, c)
    ensures Match(value) == Some(m)
  {
    var end := b + (m.unit + c);
    var t := m.digits + end;
    var s := (if m.negative then "-" else "") + t;
    UnitEnds(b, m.unit, c);
    DigitsEnd(m.digits, end);
    assert t[0] == m.digits[0] && IsDigit(t[0]);
    assert s[0] == if m.negative then '-' else t[0];
    SkipSpaceSkips(a, s);
    assert (if m.negative then s[1..] else s) == t;
    assert t[..|m.digits|] == m.digits && t[|m.digits|..] == end;
  }

  lemma MatchedIsWritten(value: string, m: Setting) returns (a: string, b: string, c: string)
    requires Match(value) == Some(m)
    ensures Written(value, m, a, b, c)
  {
    var s := SkipSpace(value);
    var t := if m.negative then s[1..] else s;
    var n := LeadingDigits(t);
    a := SkippedSpace(value);
    b := SkippedSpace(t[n..]);
    c := DroppedSpace(SkipSpace(t[n..]));
    MatchedParts(s, m, t, n, b, c);
  }

  lemma MatchedParts(s: string, m: Setting, t: string, n: nat, b: string, c: string)
    requires n <= |t| && s == (if m.negative then "-" else "") + t && m.digits == t[..n]
    requires t[n..] == b + SkipSpace(t[n..]) && SkipSpace(t[n..]) == m.unit + c
    ensures s == (if m.negative then "-" else "") + (m.digits + (b + (m.unit + c)))
  {
    assert t == t[..n] + t[n..];
  }

  /** What is read as a memory setting, and as what: exactly the settings so written. */
  lemma MatchIff(value: string, m: Setting)
    ensures Match(value) == Some(m) <==> exists a, b, c :: Written(value, m, a, b, c)
  {
    forall a, b, c | Written(value, m, a, b, c) ensures Match(value) == Some(m) {
      WrittenMatches(value, m, a, b, c);
    }
    if Match(value) == Some(m) {
      var a, b, c := MatchedIsWritten(value, m);
    }
  }

  /** The bytes of a unit: PostgreSQL's units are binary, whatever their case and with or without B. */
  function UnitBytes(unit: string): int {
    if unit == "" || unit[0] == 'b' || unit[0] == 'B' then 1
    else if unit[0] == 'k' || unit[0] == 'K' then 1024
    else if unit[0] == 'm' || unit[0] == 'M' then 1024 * 1024
    else if unit[0] == 'g' || unit[0] == 'G' then 1024 * 1024 * 1024
    else 1024 * 1024 * 1024 * 1024
  }

  lemma UnitsAreBinary(unit: string)
    requires IsUnitText(unit)
    ensures Multiplier(Normalized(unit)) == Some(UnitBytes(unit))
  {
    if |unit| == 1 {
      assert ToUpper(unit) == [Upper(unit[0])] + ToUpper(unit[1..]);
    } else if |unit| == 2 {
      assert ToUpper(unit) == [Upper(unit[0])] + ToUpper(unit[1..]);
      assert ToUpper(unit[1..]) == [Upper(unit[1])] + ToUpper(unit[1..][1..]);
    }
  }

  /** What a setting reads as: the amount times the bytes of its unit, kept to 64 bits; refused when it
      is no setting, or its amount does not fit. */
  lemma SettingReads(value: string, m: Setting, a: string, b: string, c: string)
    requires Written(value, m, a, b, c)
    ensures var amount: int := if m.negative then -(Value(m.digits) as int) else Value(m.digits);
            ParsePgMemory(value) ==
            if FitsInt64(amount) then Ok(Wrap(amount * UnitBytes(m.unit))) else Err(OutOfRange)
  {
    WrittenMatches(value, m, a, b, c);
    UnitsAreBinary(m.unit);
  }

  /** What is refused: everything else. */
  lemma NoSettingIff(value: string)
    ensures ParsePgMemory(value) == Err(NotASetting) <==> forall m, a, b, c :: !Written(value, m, a, b, c)
  {
    forall m, a, b, c | Written(value, m, a, b, c) ensures Match(value) == Some(m) {
      WrittenMatches(value, m, a, b, c);
    }
    if Match(value).Some? {
      MatchIff(value, Match(value).value);
      UnitTextNormalizes(Match(value).value.unit);
    }
  }

  /** How bytes are written: whole units, truncated toward zero, under the unit's name. */
  lemma FormatReads(bytes: int, unit: string)
    requires IsUnitText(unit) && FormatPgMemory(bytes, unit).Ok?
    ensures var n := UnitBytes(unit);
            var name := if n == 1 then "" else if n == 1024 then "kB" else if n == 1024 * 1024 then "MB"
                        else if n == 1024 * 1024 * 1024 then "GB" else "TB";
            FormatPgMemory(bytes, unit) == Ok(Text(if bytes >= 0 then bytes / n else -(-bytes / n)) + name)
  {
    UnitsAreBinary(unit);
    assert "M" + "B" == "MB" && "G" + "B" == "GB" && "T" + "B" == "TB";
    assert Normalized(unit) in {"", "K", "M", "G", "T"};
  }
}
