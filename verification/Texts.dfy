/** Text as JavaScript holds it: a sequence of UTF-16 code units, compared code unit by code unit
    (the order of `Array.prototype.sort` without a comparator). */
module Texts {

  type CodeUnit = n: int | 0 <= n < 0x1_0000

  type Text = seq<CodeUnit>

  /** The code units of a literal; every character used here is below U+10000. */
  function Units(s: string): (t: Text)
    requires forall i | 0 <= i < |s| :: s[i] as int < 0x1_0000
    ensures |t| == |s|
    ensures forall i | 0 <= i < |s| :: t[i] == s[i] as int
  {
    seq(|s|, i requires 0 <= i < |s| => s[i] as int)
  }

  /** Strict lexicographic order on code units. */
  predicate Less(a: Text, b: Text) {
    if b == [] then false
    else if a == [] then true
    else a[0] < b[0] || (a[0] == b[0] && Less(a[1..], b[1..]))
  }

  lemma {:induction false} LessIrreflexive(a: Text)
    ensures !Less(a, a)
  {
    if a != [] { LessIrreflexive(a[1..]); }
  }

  lemma {:induction false} LessTransitive(a: Text, b: Text, c: Text)
    requires Less(a, b) && Less(b, c)
    ensures Less(a, c)
  {
    if a != [] && a[0] == b[0] && b[0] == c[0] {
      LessTransitive(a[1..], b[1..], c[1..]);
    }
  }

  lemma {:induction false} LessTotal(a: Text, b: Text)
    ensures Less(a, b) || a == b || Less(b, a)
  {
    if a != [] && b != [] && a[0] == b[0] {
      LessTotal(a[1..], b[1..]);
      assert a == [a[0]] + a[1..] && b == [b[0]] + b[1..];
    }
  }

  /** The two texts part at place `n`: there the first ends, or has the smaller unit. */
  predicate PartsAt(a: Text, b: Text, n: nat) {
    n <= |a| && n < |b| && a[..n] == b[..n] && (n == |a| || a[n] < b[n])
  }

  lemma CommonHead(a: Text, b: Text, n: nat)
    ensures n > 0 && PartsAt(a, b, n) ==> a[0] == b[0]
  {
    if n > 0 && PartsAt(a, b, n) { assert a[0] == a[..n][0] && b[0] == b[..n][0]; }
  }

  /** What the order means: a common beginning, and then the first ends or has the smaller unit. */
  lemma {:induction false} LessMeans(a: Text, b: Text)
    ensures Less(a, b) <==> exists n: nat :: PartsAt(a, b, n)
  {
    if a != [] && b != [] && a[0] == b[0] {
      LessMeans(a[1..], b[1..]);
      if Less(a, b) {
        var n: nat :| PartsAt(a[1..], b[1..], n);
        assert a[..n + 1] == [a[0]] + a[1..][..n] && b[..n + 1] == [b[0]] + b[1..][..n];
        assert PartsAt(a, b, n + 1);
      }
      if exists n: nat :: PartsAt(a, b, n) {
        var n: nat :| PartsAt(a, b, n);
        assert n > 0 && a[1..][..n - 1] == a[..n][1..] && b[1..][..n - 1] == b[..n][1..];
        assert PartsAt(a[1..], b[1..], n - 1);
      }
    } else if Less(a, b) {
      assert PartsAt(a, b, 0);
    } else {
      forall n: nat ensures !PartsAt(a, b, n) {
        CommonHead(a, b, n);
      }
    }
  }

  lemma {:induction false} LessBehind(p: Text, x: Text, y: Text)
    ensures Less(p + x, p + y) <==> Less(x, y)
  {
    if p == [] {
      assert p + x == x && p + y == y;
    } else {
      assert (p + x)[1..] == p[1..] + x && (p + y)[1..] == p[1..] + y;
      LessBehind(p[1..], x, y);
    }
  }

  lemma {:induction false} LessInHead(p: Text, q: Text, x: Text, y: Text)
    requires |p| == |q| && p != q
    ensures Less(p + x, q + y) <==> Less(p, q)
  {
    assert (p + x)[1..] == p[1..] + x && (q + y)[1..] == q[1..] + y;
    if p[0] == q[0] {
      assert p == [p[0]] + p[1..] && q == [q[0]] + q[1..];
      LessInHead(p[1..], q[1..], x, y);
    }
  }

  lemma LessAtOnce(p: Text, q: Text, x: Text, y: Text)
    requires p != [] && q != [] && p[0] != q[0]
    ensures Less(p + x, q + y) <==> Less(p, q)
  {
  }

  predicate IsHighSurrogate(c: CodeUnit) { 0xD800 <= c < 0xDC00 }

  predicate IsLowSurrogate(c: CodeUnit) { 0xDC00 <= c < 0xE000 }

  predicate IsSurrogate(c: CodeUnit) { 0xD800 <= c < 0xE000 }

  /** Every surrogate is part of a high-low pair: such a text survives UTF-8 encoding without loss. */
  predicate WellFormed(t: Text) {
    if t == [] then true
    else if IsHighSurrogate(t[0]) then |t| > 1 && IsLowSurrogate(t[1]) && WellFormed(t[2..])
    else !IsSurrogate(t[0]) && WellFormed(t[1..])
  }

  lemma {:induction false} WellFormedConcat(a: Text, b: Text)
    requires WellFormed(a) && WellFormed(b)
    ensures WellFormed(a + b)
  {
    if a == [] {
      assert a + b == b;
    } else if IsHighSurrogate(a[0]) {
      WellFormedConcat(a[2..], b);
      assert (a + b)[2..] == a[2..] + b;
    } else {
      WellFormedConcat(a[1..], b);
      assert (a + b)[1..] == a[1..] + b;
    }
  }

  lemma {:induction false} PlainIsWellFormed(t: Text)
    requires forall i | 0 <= i < |t| :: !IsSurrogate(t[i])
    ensures WellFormed(t)
  {
    if t != [] { PlainIsWellFormed(t[1..]); }
  }

  /** The UTF-8 bytes of a text, a surrogate pair taken as one character. */
  function Utf8(t: Text): Text {
    if t == [] then []
    else if |t| > 1 && IsHighSurrogate(t[0]) && IsLowSurrogate(t[1]) then SupplementaryBytes(t[0], t[1]) + Utf8(t[2..])
    else UnitBytes(t[0]) + Utf8(t[1..])
  }

  function UnitBytes(c: CodeUnit): Text {
    if c < 0x80 then [c]
    else if c < 0x800 then [0xC0 + c / 0x40, 0x80 + c % 0x40]
    else [0xE0 + c / 0x1000, 0x80 + c / 0x40 % 0x40, 0x80 + c % 0x40]
  }

  function SupplementaryBytes(high: CodeUnit, low: CodeUnit): Text
    requires IsHighSurrogate(high) && IsLowSurrogate(low)
  {
    var c := 0x1_0000 + (high - 0xD800) * 0x400 + (low - 0xDC00);
    [0xF0 + c / 0x4_0000, 0x80 + c / 0x1000 % 0x40, 0x80 + c / 0x40 % 0x40, 0x80 + c % 0x40]
  }

  function PairOf(c: int): Text
    requires 0x1_0000 <= c < 0x11_0000
  {
    [0xD800 + (c - 0x1_0000) / 0x400, 0xDC00 + (c - 0x1_0000) % 0x400]
  }

  /** A reader of UTF-8 (section 3 of RFC 3629): the first byte says how many follow. */
  function FromUtf8(b: Text): Text {
    if b == [] then []
    else if b[0] < 0x80 then [b[0]] + FromUtf8(b[1..])
    else if 0xC0 <= b[0] < 0xE0 && |b| >= 2 then UnitOf((b[0] as int - 0xC0) * 0x40 + (b[1] as int - 0x80)) + FromUtf8(b[2..])
    else if 0xE0 <= b[0] < 0xF0 && |b| >= 3 then
      UnitOf(((b[0] as int - 0xE0) * 0x40 + (b[1] as int - 0x80)) * 0x40 + (b[2] as int - 0x80)) + FromUtf8(b[3..])
    else if 0xF0 <= b[0] < 0xF8 && |b| >= 4 then
      UnitOf((((b[0] as int - 0xF0) * 0x40 + (b[1] as int - 0x80)) * 0x40 + (b[2] as int - 0x80)) * 0x40 + (b[3] as int - 0x80)) + FromUtf8(b[4..])
    else []
  }

  function UnitOf(c: int): Text {
    if 0 <= c < 0x1_0000 then [c] else if 0x1_0000 <= c < 0x11_0000 then PairOf(c) else []
  }

  lemma UnitBytesRead(c: CodeUnit, rest: Text)
    ensures FromUtf8(UnitBytes(c) + rest) == [c] + FromUtf8(rest)
  {
    if c < 0x80 {
      assert ([c] + rest)[1..] == rest;
    } else if c < 0x800 {
      TwoBytesRead(c, rest);
    } else {
      ThreeBytesRead(c, rest);
    }
  }

  lemma TwoBytesRead(c: CodeUnit, rest: Text)
    requires 0x80 <= c < 0x800
    ensures FromUtf8(UnitBytes(c) + rest) == [c] + FromUtf8(rest)
  {
    var b := UnitBytes(c) + rest;
    assert c / 0x40 * 0x40 + c % 0x40 == c && 2 <= c / 0x40 < 0x20;
    assert b[2..] == rest && b[0] == 0xC0 + c / 0x40 && b[1] == 0x80 + c % 0x40;
  }

  lemma ThreeBytesRead(c: CodeUnit, rest: Text)
    requires 0x800 <= c
    ensures FromUtf8(UnitBytes(c) + rest) == [c] + FromUtf8(rest)
  {
    var b := UnitBytes(c) + rest;
    assert (c / 0x1000 * 0x40 + c / 0x40 % 0x40) * 0x40 + c % 0x40 == c && 0 <= c / 0x1000 < 0x10;
    assert b[3..] == rest && b[0] == 0xE0 + c / 0x1000 && b[1] == 0x80 + c / 0x40 % 0x40 && b[2] == 0x80 + c % 0x40;
  }

  lemma SupplementaryBytesRead(high: CodeUnit, low: CodeUnit, rest: Text)
    requires IsHighSurrogate(high) && IsLowSurrogate(low)
    ensures FromUtf8(SupplementaryBytes(high, low) + rest) == [high, low] + FromUtf8(rest)
  {
    var b := SupplementaryBytes(high, low) + rest;
    var c: int := 0x1_0000 + (high - 0xD800) * 0x400 + (low - 0xDC00);
    FourBytes(c);
    assert b[4..] == rest && b[..4] == SupplementaryBytes(high, low);
    assert PairOf(c) == [high, low];
  }

  lemma FourBytes(c: int)
    requires 0x1_0000 <= c < 0x11_0000
    ensures 0xF0 <= 0xF0 + c / 0x4_0000 < 0xF8
    ensures ((c / 0x4_0000 * 0x40 + c / 0x1000 % 0x40) * 0x40 + c / 0x40 % 0x40) * 0x40 + c % 0x40 == c
  {
  }

  /** The bytes of a text give the text back. */
  lemma {:induction false} Utf8IsRead(t: Text)
    ensures FromUtf8(Utf8(t)) == t
  {
    if t != [] {
      if |t| > 1 && IsHighSurrogate(t[0]) && IsLowSurrogate(t[1]) {
        Utf8IsRead(t[2..]);
        SupplementaryBytesRead(t[0], t[1], Utf8(t[2..]));
        assert t == [t[0], t[1]] + t[2..];
      } else {
        Utf8IsRead(t[1..]);
        UnitBytesRead(t[0], Utf8(t[1..]));
        assert t == [t[0]] + t[1..];
      }
    }
  }
}
