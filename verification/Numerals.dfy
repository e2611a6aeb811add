/** Decimal numerals, and what an array index is. */
module Numerals {
  import opened Texts
  import opened Json
  import opened KeyOrder

  /** The decimal digits of a number. */
  function Decimal(n: nat): (t: Text)
    ensures t != [] && forall i | 0 <= i < |t| :: IsDigit(t[i])
  {
    if n < 10 then [48 + n] else Decimal(n / 10) + [48 + n % 10]
  }

  predicate AllDigits(t: Text) { forall i | 0 <= i < |t| :: IsDigit(t[i]) }

  /** The number the digits stand for. */
  function ValueOf(t: Text): nat
    requires AllDigits(t)
  {
    if t == [] then 0 else 10 * ValueOf(t[..|t| - 1]) + (t[|t| - 1] - 48)
  }

  /** Digits, without a zero in front of others. */
  predicate IsNumeral(t: Text) { t != [] && AllDigits(t) && (t[0] == 48 ==> |t| == 1) }

  /** A number is printed as a numeral of its value. */
  lemma {:induction false} DecimalHasValue(n: nat)
    ensures IsNumeral(Decimal(n)) && ValueOf(Decimal(n)) == n
    ensures n > 0 ==> Decimal(n)[0] != 48
  {
    if n >= 10 {
      DecimalHasValue(n / 10);
      assert Decimal(n)[..|Decimal(n)| - 1] == Decimal(n / 10);
    }
  }

  lemma {:induction false} ValueIsPositive(t: Text)
    requires t != [] && AllDigits(t) && t[0] != 48
    ensures ValueOf(t) > 0
  {
    if |t| > 1 { ValueIsPositive(t[..|t| - 1]); }
  }

  /** And every numeral is what is printed for its value. */
  lemma {:induction false} NumeralIsDecimal(t: Text)
    requires IsNumeral(t)
    ensures Decimal(ValueOf(t)) == t
  {
    if |t| > 1 {
      var init := t[..|t| - 1];
      ValueIsPositive(init);
      NumeralIsDecimal(init);
      assert t == init + [t[|t| - 1]];
    }
  }

  function Power(width: nat): nat { if width == 0 then 1 else 10 * Power(width - 1) }

  lemma {:induction false} ValueIsBounded(t: Text)
    requires AllDigits(t)
    ensures ValueOf(t) < Power(|t|)
    ensures t != [] && t[0] != 48 ==> Power(|t| - 1) <= ValueOf(t)
  {
    if t != [] { ValueIsBounded(t[..|t| - 1]); }
  }

  lemma {:induction false} PowerGrows(m: nat, n: nat)
    requires m <= n
    ensures Power(m) <= Power(n)
  {
    if m < n { PowerGrows(m, n - 1); }
  }

  lemma {:induction false} SameLengthInOrder(a: Text, b: Text)
    requires |a| == |b| && AllDigits(a) && AllDigits(b)
    ensures Less(a, b) <==> ValueOf(a) < ValueOf(b)
    decreases |a|
  {
    if a != [] {
      var p, q := a[..|a| - 1], b[..|b| - 1];
      SameLengthInOrder(p, q);
      SameLengthInOrder(q, p);
      assert a == p + [a[|a| - 1]] && b == q + [b[|b| - 1]];
      if p == q {
        LessBehind(p, [a[|a| - 1]], [b[|b| - 1]]);
      } else {
        LessTotal(p, q);
        LessInHead(p, q, [a[|a| - 1]], [b[|b| - 1]]);
      }
    }
  }

  /** Of numerals, the shorter and then the lesser text is the lesser number. */
  lemma NumeralsInOrder(a: Text, b: Text)
    requires IsNumeral(a) && IsNumeral(b)
    ensures Shortlex(a, b) <==> ValueOf(a) < ValueOf(b)
  {
    ValueIsBounded(a);
    ValueIsBounded(b);
    if |a| == |b| {
      SameLengthInOrder(a, b);
    } else if |a| < |b| {
      PowerGrows(|a|, |b| - 1);
    } else {
      PowerGrows(|b|, |a| - 1);
    }
  }

  // ----- Array indices -----

  lemma IndexLimit()
    ensures AllDigits(INDEX_LIMIT) && ValueOf(INDEX_LIMIT) == 4294967295
  {
    var a: Text := [52, 50, 57];
    var b: Text := a + [52, 57];
    var c: Text := b + [54, 55];
    var d: Text := c + [50, 57];
    assert a == [52] + [50, 57] && ValueOf([52]) == 4;
    TwoMore([52], 50, 57);
    TwoMore(a, 52, 57);
    TwoMore(b, 54, 55);
    TwoMore(c, 50, 57);
    OneMore(d, 53);
    assert INDEX_LIMIT == d + [53];
  }

  lemma OneMore(t: Text, c: CodeUnit)
    requires AllDigits(t) && IsDigit(c)
    ensures ValueOf(t + [c]) == 10 * ValueOf(t) + (c - 48)
  {
    assert (t + [c])[..|t|] == t;
  }

  lemma TwoMore(t: Text, c: CodeUnit, d: CodeUnit)
    requires AllDigits(t) && IsDigit(c) && IsDigit(d)
    ensures ValueOf(t + [c, d]) == 100 * ValueOf(t) + 10 * (c - 48) + (d - 48)
  {
    OneMore(t, c);
    OneMore(t + [c], d);
    assert t + [c] + [d] == t + [c, d];
  }

  lemma TenDigits()
    ensures Power(9) == 1000000000 && Power(10) == 10000000000
  {
    assert Power(3) == 1000 && Power(6) == 1000 * Power(3) && Power(9) == 1000 * Power(6);
  }

  lemma IndexIsSmallNumeral(k: Text)
    ensures IsArrayIndex(k) <==> IsNumeral(k) && ValueOf(k) < 4294967295
  {
    if IsNumeral(k) {
      IndexLimit();
      TenDigits();
      ValueIsBounded(k);
      if |k| == 10 { SameLengthInOrder(k, INDEX_LIMIT); }
      if |k| < 10 { PowerGrows(|k|, 9); }
      if |k| > 10 { PowerGrows(10, |k| - 1); }
    }
  }

  /** The array indices are the decimal numerals of the numbers below 2^32 - 1, and no other keys. */
  lemma ArrayIndicesAre(k: Text)
    ensures IsArrayIndex(k) <==> exists n: nat :: n < 0xFFFF_FFFF && k == Decimal(n)
  {
    IndexIsSmallNumeral(k);
    if IsArrayIndex(k) { NumeralIsDecimal(k); }
    forall n: nat | k == Decimal(n) ensures IsNumeral(k) && ValueOf(k) == n { DecimalHasValue(n); }
  }

  /** Where a key stands in one of the three orders. */
  ghost predicate StandsBefore(o: Order, a: Text, b: Text) {
    match o
    case ByCodeUnits => exists n: nat :: PartsAt(a, b, n)
    case ByEnumeration =>
      if IsArrayIndex(a) && IsArrayIndex(b) then NumeralBefore(a, b)
      else IsArrayIndex(a) || (!IsArrayIndex(b) && exists n: nat :: PartsAt(a, b, n))
    case ByReadBack =>
      if IsArrayIndex(a) && IsArrayIndex(b) then NumeralBefore(a, b)
      else IsArrayIndex(a) || (!IsArrayIndex(b) && BytesBefore(a, b))
  }

  predicate NumeralBefore(a: Text, b: Text) {
    AllDigits(a) && AllDigits(b) && ValueOf(a) < ValueOf(b)
  }

  /** Fewer bytes of UTF-8, or as many and at the first difference the smaller byte. */
  ghost predicate BytesBefore(a: Text, b: Text) {
    |Utf8(a)| < |Utf8(b)| || (|Utf8(a)| == |Utf8(b)| && exists n: nat :: PartsAt(Utf8(a), Utf8(b), n))
  }

  lemma BytesDecide(a: Text, b: Text)
    ensures JsonbBefore(a, b) <==> BytesBefore(a, b)
  {
    LessMeans(Utf8(a), Utf8(b));
    if Utf8(a) == Utf8(b) {
      Utf8IsRead(a);
      Utf8IsRead(b);
      LessIrreflexive(a);
    }
  }

  /** What the three orders mean: the first differing unit; indices by number and then the same; indices by number and
      then by bytes. */
  lemma OrdersMean(o: Order, a: Text, b: Text)
    ensures Before(o, a, b) <==> StandsBefore(o, a, b)
  {
    LessMeans(a, b);
    BytesDecide(a, b);
    IndexIsSmallNumeral(a);
    IndexIsSmallNumeral(b);
    if IsArrayIndex(a) && IsArrayIndex(b) { NumeralsInOrder(a, b); }
  }
}
