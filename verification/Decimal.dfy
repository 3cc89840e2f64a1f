/** Zero-padded decimal numbers, as %0*d and time.Format write them. */
module Decimal {
  import opened Order

  const DIGITS := "0123456789"

  predicate IsDigit(c: char) {
    '0' <= c <= '9'
  }

  predicate AllDigits(s: string) {
    forall i :: 0 <= i < |s| ==> IsDigit(s[i])
  }

  function Digit(d: nat): (c: char)
    requires d < 10
    ensures IsDigit(c) && c as int == '0' as int + d
  {
    DIGITS[d]
  }

  function Power(width: nat): (p: nat)
    ensures p > 0
  {
    if width == 0 then 1 else 10 * Power(width - 1)
  }

  /** n in decimal, padded with zeros to at least width characters; a width is always given. */
  function Padded(n: nat, width: nat): string
    decreases n, width
  {
    if n == 0 && width == 0 then ""
    else if n == 0 then Padded(0, width - 1) + [Digit(0)]
    else Padded(n / 10, if width == 0 then 0 else width - 1) + [Digit(n % 10)]
  }

  function Value(s: string): nat
    requires AllDigits(s)
  {
    if s == [] then 0 else 10 * Value(s[..|s| - 1]) + (s[|s| - 1] as int - '0' as int)
  }

  /** Padding and reading back: digits only, the width asked for when the number fits in it,
      and the number itself. */
  lemma {:induction false} PaddedReadsBack(n: nat, width: nat)
    ensures AllDigits(Padded(n, width)) && Value(Padded(n, width)) == n
    ensures n < Power(width) ==> |Padded(n, width)| == width
    decreases n, width
  {
    if n != 0 || width != 0 {
      var less := if width == 0 then 0 else width - 1;
      if n == 0 {
        PaddedReadsBack(0, less);
      } else {
        PaddedReadsBack(n / 10, less);
      }
      var s := Padded(n, width);
      assert s[..|s| - 1] == Padded(n / 10, less);
    }
  }

  lemma {:induction false} ValueBound(s: string)
    requires AllDigits(s)
    ensures Value(s) < Power(|s|)
  {
    if s != [] {
      ValueBound(s[..|s| - 1]);
    }
  }

  /** Every digit string is the padding of its value. */
  lemma {:induction false} DigitsArePadded(s: string)
    requires AllDigits(s)
    ensures Padded(Value(s), |s|) == s
  {
    if s != [] {
      var front, last := s[..|s| - 1], s[|s| - 1];
      DigitsArePadded(front);
      assert Value(s) / 10 == Value(front) && Value(s) % 10 == last as int - '0' as int;
      assert s == front + [last];
      assert Digit(Value(s) % 10) == last;
    }
  }

  lemma PaddedStep(n: nat, width: nat)
    requires width > 0
    ensures Padded(n, width) == Padded(n / 10, width - 1) + [Digit(n % 10)]
  {
  }

  lemma OneDigit(a: nat, b: nat)
    requires a < 10 && b < 10
    ensures Less([Digit(a)], [Digit(b)]) <==> a < b
    ensures Digit(a) == Digit(b) <==> a == b
  {
  }

  lemma TensDecide(a: nat, b: nat)
    ensures a < b <==> a / 10 < b / 10 || (a / 10 == b / 10 && a % 10 < b % 10)
    ensures a == b <==> a / 10 == b / 10 && a % 10 == b % 10
  {
  }

  lemma PaddedLength(n: nat, width: nat)
    requires n < Power(width)
    ensures |Padded(n, width)| == width
  {
    PaddedReadsBack(n, width);
  }

  /** Padded numbers of one width compare as strings the way they compare as numbers. */
  lemma {:induction false} PaddedOrder(a: nat, b: nat, width: nat)
    requires a < Power(width) && b < Power(width)
    ensures Less(Padded(a, width), Padded(b, width)) <==> a < b
    ensures Padded(a, width) == Padded(b, width) <==> a == b
  {
    if width > 0 {
      var front, front' := Padded(a / 10, width - 1), Padded(b / 10, width - 1);
      PaddedStep(a, width);
      PaddedStep(b, width);
      PaddedOrder(a / 10, b / 10, width - 1);
      PaddedLength(a / 10, width - 1);
      PaddedLength(b / 10, width - 1);
      LessConcat(front, [Digit(a % 10)], front', [Digit(b % 10)]);
      OneDigit(a % 10, b % 10);
      TensDecide(a, b);
      SameEnds(front, front', Digit(a % 10), Digit(b % 10));
    }
  }

  lemma SameEnds(s: string, s': string, c: char, c': char)
    ensures s + [c] == s' + [c'] <==> s == s' && c == c'
  {
    if s + [c] == s' + [c'] {
      assert (s + [c])[..|s|] == s && (s' + [c'])[..|s'|] == s';
    }
  }

  /** Digit strings of one length compare as strings the way they compare as numbers. */
  lemma DigitsOrder(s: string, s': string)
    requires AllDigits(s) && AllDigits(s') && |s| == |s'|
    ensures Less(s, s') <==> Value(s) < Value(s')
    ensures s == s' <==> Value(s) == Value(s')
  {
    DigitsArePadded(s);
    DigitsArePadded(s');
    ValueBound(s);
    ValueBound(s');
    PaddedOrder(Value(s), Value(s'), |s|);
  }

  lemma TensAndUnits(n: nat, tens: nat, units: nat)
    requires units < 10 && n == 10 * tens + units
    ensures n / 10 == tens && n % 10 == units
  {
  }

  /** A number followed by two digits more is one number. */
  lemma TwoMoreDigits(a: nat, width: nat, b: nat, n: nat)
    requires b < 100 && n == a * 100 + b
    ensures Padded(a, width) + Padded(b, 2) == Padded(n, width + 2)
  {
    var tens, units := b / 10, b % 10;
    TensAndUnits(n, 10 * a + tens, units);
    TensAndUnits(10 * a + tens, a, tens);
    TensAndUnits(tens, 0, tens);
    PaddedStep(n, width + 2);
    PaddedStep(10 * a + tens, width + 1);
    PaddedStep(b, 2);
    PaddedStep(tens, 1);
  }

  lemma ThreeNumbers(a: nat, width: nat, b: nat, c: nat, n: nat)
    requires b < 100 && c < 100 && n == (a * 100 + b) * 100 + c
    ensures Padded(a, width) + Padded(b, 2) + Padded(c, 2) == Padded(n, width + 4)
  {
    TwoMoreDigits(a, width, b, a * 100 + b);
    TwoMoreDigits(a * 100 + b, width + 2, c, n);
  }
}
