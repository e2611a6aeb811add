/** Which escaping `JSON.stringify` chooses (section 7 of RFC 8259): of all texts that a reader takes to the same
    string, the shortest, and no other is as short. */
module JsonEscapes {
  import opened Texts
  import opened JsonText

  /** What may stand inside a quoted string: paired surrogates, and no control characters. */
  predicate Writable(t: Text) {
    WellFormed(t) && forall i | 0 <= i < |t| :: t[i] >= 32
  }

  /** Neither a quotation mark nor a backslash. */
  predicate NeedsNoEscape(t: Text) {
    Writable(t) && forall i | 0 <= i < |t| :: t[i] != 34 && t[i] != 92
  }

  /** A reader takes the text, up to the closing quotation mark, to `s`. */
  predicate Spells(t: Text, s: Text) { ReadChars(t + [34]) == Ok(s, []) }

  // ----- Strings that stand for themselves -----

  lemma {:induction false} EscapeIsNoShorter(s: Text)
    ensures |Escape(s)| >= |s|
  {
    if s != [] { EscapeIsNoShorter(s[HeadLength(s)..]); }
  }

  lemma {:induction false} EscapedAsIs(s: Text)
    ensures Escape(s) == s <==> NeedsNoEscape(s)
  {
    if s != [] {
      var n := HeadLength(s);
      EscapedAsIs(s[n..]);
      EscapeIsNoShorter(s[n..]);
      assert s == s[..n] + s[n..];
      if Escape(s) == s { SameLengthHeads(EscapedHead(s), Escape(s[n..]), s[..n], s[n..]); }
      HeadAsIs(s);
    }
  }

  lemma HeadAsIs(s: Text)
    requires s != []
    ensures var n := HeadLength(s);
            NeedsNoEscape(s) <==> EscapedHead(s) == s[..n] && NeedsNoEscape(s[n..])
  {
    var n := HeadLength(s);
    assert s == s[..n] + s[n..];
    assert |EscapedHead(s)| >= n;
  }

  lemma SameLengthHeads(a: Text, b: Text, a': Text, b': Text)
    requires a + b == a' + b' && |a| >= |a'| && |b| >= |b'|
    ensures a == a' && b == b'
  {
    assert |a| == |a'|;
    assert a == (a + b)[..|a|] && a' == (a' + b')[..|a'|];
    assert b == (a + b)[|a|..] && b' == (a' + b')[|a'|..];
  }

  /** A string is printed as itself between quotation marks if and only if its surrogates are paired and it holds no
      control character, quotation mark or backslash: accented letters and the like are left alone. */
  lemma QuotedAsIs(s: Text)
    ensures Quote(s) == [34] + s + [34] <==>
            WellFormed(s) && forall i | 0 <= i < |s| :: s[i] >= 32 && s[i] != 34 && s[i] != 92
  {
    EscapedAsIs(s);
    if Quote(s) == [34] + s + [34] {
      assert Escape(s) == Quote(s)[1..|Quote(s)| - 1];
      assert s == ([34] + s + [34])[1..|s| + 1];
    }
  }

  // ----- The shortest spelling -----

  lemma {:induction false} EscapeHasNoControls(s: Text)
    ensures forall i | 0 <= i < |Escape(s)| :: Escape(s)[i] >= 32
  {
    if s != [] { EscapeHasNoControls(s[HeadLength(s)..]); }
  }

  /** What is printed is such a spelling. */
  lemma EscapeSpells(s: Text)
    ensures Writable(Escape(s)) && Spells(Escape(s), s)
  {
    EscapeIsWellFormed(s);
    EscapeHasNoControls(s);
    ReadQuoted(s, []);
    assert Escape(s) + [34] + [] == Escape(s) + [34];
  }

  /** No spelling is shorter than what is printed, and no other is as short. */
  predicate NoShorter(t: Text, s: Text) {
    |Escape(s)| <= |t| && (|Escape(s)| == |t| ==> Escape(s) == t)
  }

  /** One unit in front of a string: six units at most, and fewer when it pairs with the next. */
  lemma UnitInFront(c: CodeUnit, s: Text)
    ensures Escape([c] + s) == EscapeUnit(c) + Escape(s) || |Escape([c] + s)| < 6 + |Escape(s)|
    ensures !IsHighSurrogate(c) ==> Escape([c] + s) == EscapeUnit(c) + Escape(s)
    ensures |EscapeUnit(c)| <= 6
  {
    var u := [c] + s;
    assert u[1..] == s;
    if StartsWithPair(u) {
      assert u[2..] == s[1..];
      assert Escape(u) == u[..2] + Escape(s[1..]);
      EscapeIsNoShorter(s);
      assert !StartsWithPair(s) && Escape(s) == EscapeUnit(s[0]) + Escape(s[1..]);
    } else {
      assert u[HeadLength(u)..] == s;
      assert Escape(u) == EscapeUnit(c) + Escape(s);
    }
  }

  lemma PairInFront(high: CodeUnit, low: CodeUnit, s: Text)
    requires IsHighSurrogate(high) && IsLowSurrogate(low)
    ensures Escape([high, low] + s) == [high, low] + Escape(s)
  {
    var u := [high, low] + s;
    assert u[..2] == [high, low] && u[2..] == s;
  }

  lemma TailSpells(t: Text, n: nat)
    requires n <= |t|
    ensures (t + [34])[n..] == t[n..] + [34]
  {
  }

  lemma ShorterConcat(a: Text, b: Text, a': Text, b': Text)
    requires |a| <= |a'| && (|a| == |a'| ==> a == a') && |b| <= |b'| && (|b| == |b'| ==> b == b')
    ensures |a + b| <= |a' + b'| && (|a + b| == |a' + b'| ==> a + b == a' + b')
  {
  }

  lemma NoQuoteInside(t: Text, s: Text)
    requires Spells(t, s) && t != []
    ensures t[0] != 34
  {
    assert |(t + [34])[1..]| > 0;
  }

  lemma PlainUnitFirst(t: Text, s: Text)
    requires Spells(t, s) && t != [] && t[0] != 92
    ensures s != [] && s[0] == t[0] && Spells(t[1..], s[1..])
  {
    NoQuoteInside(t, s);
    TailSpells(t, 1);
    assert s == [t[0]] + s[1..];
  }

  lemma WritableTail(t: Text)
    requires Writable(t) && t != []
    ensures if IsHighSurrogate(t[0]) then |t| > 1 && IsLowSurrogate(t[1]) && Writable(t[2..]) else !IsSurrogate(t[0]) && Writable(t[1..])
  {
  }

  /** A text that starts with a plain unit or a pair. */
  lemma {:induction false} PlainSpelling(t: Text, s: Text)
    requires Writable(t) && Spells(t, s) && t != [] && t[0] != 92
    ensures NoShorter(t, s)
    decreases |t|, 0
  {
    PlainUnitFirst(t, s);
    WritableTail(t);
    assert s == [t[0]] + s[1..] && t == [t[0]] + t[1..];
    if IsHighSurrogate(t[0]) {
      PlainUnitFirst(t[1..], s[1..]);
      assert t[1..][1..] == t[2..] && s[1..][1..] == s[2..];
      assert s == [t[0], t[1]] + s[2..] && t == [t[0], t[1]] + t[2..];
      ShortestSpelling(t[2..], s[2..]);
      PairInFront(t[0], t[1], s[2..]);
    } else {
      NoQuoteInside(t, s);
      ShortestSpelling(t[1..], s[1..]);
      UnitInFront(t[0], s[1..]);
      assert EscapeUnit(t[0]) == [t[0]];
    }
  }

  lemma HexOfUnhex(c: CodeUnit)
    requires Unhex(c) >= 0
    ensures Hex(Unhex(c)) == c
  {
  }

  lemma HexDigitsOf(a: int, b: int, c: int, d: int)
    requires 0 <= a < 16 && 0 <= b < 16 && 0 <= c < 16 && 0 <= d < 16
    ensures var n := ((a * 16 + b) * 16 + c) * 16 + d;
            0 <= n < 0x1_0000 && UnicodeEscape(n) == [92, 117, Hex(a), Hex(b), Hex(c), Hex(d)]
  {
    var n := ((a * 16 + b) * 16 + c) * 16 + d;
    LastDigit((a * 16 + b) * 16 + c, d);
    LastDigit(a * 16 + b, c);
    LastDigit(a, b);
    DigitsAbove(n);
  }

  lemma LastDigit(q: int, r: int)
    requires 0 <= q && 0 <= r < 16
    ensures (q * 16 + r) / 16 == q && (q * 16 + r) % 16 == r
  {
  }

  lemma DigitsAbove(n: int)
    requires 0 <= n
    ensures n / 256 == n / 16 / 16 && n / 4096 == n / 16 / 16 / 16
  {
  }

  lemma UnicodeFirst(t: Text, s: Text)
    requires Spells(t, s) && |t| >= 5 && t[0] == 92 && t[1] == 117
    ensures |t| >= 6 && s != [] && t[..6] == UnicodeEscape(s[0]) && Spells(t[6..], s[1..])
  {
    var u := t + [34];
    var (a, b, c, d) := (Unhex(u[2]), Unhex(u[3]), Unhex(u[4]), Unhex(u[5]));
    assert |t| >= 6;
    TailSpells(t, 6);
    HexDigitsOf(a, b, c, d);
    HexOfUnhex(t[2]);
    HexOfUnhex(t[3]);
    HexOfUnhex(t[4]);
    HexOfUnhex(t[5]);
    assert s == [s[0]] + s[1..];
  }

  /** A text that starts with a Unicode escape. */
  lemma {:induction false} UnicodeSpelling(t: Text, s: Text)
    requires Writable(t) && Spells(t, s) && |t| >= 5 && t[0] == 92 && t[1] == 117
    ensures NoShorter(t, s)
    decreases |t|, 0
  {
    UnicodeFirst(t, s);
    EscapedTailIsWritable(t, 6);
    ShortestSpelling(t[6..], s[1..]);
    UnicodeInFront(s[0], s[1..], t[6..]);
    assert s == [s[0]] + s[1..] && t == t[..6] + t[6..];
  }

  lemma UnicodeInFront(c: CodeUnit, s: Text, t: Text)
    requires NoShorter(t, s)
    ensures NoShorter(UnicodeEscape(c) + t, [c] + s)
  {
    UnitInFront(c, s);
    SixUnits(c);
    if Escape([c] + s) == EscapeUnit(c) + Escape(s) { ShorterConcat(EscapeUnit(c), Escape(s), UnicodeEscape(c), t); }
  }

  lemma SixUnits(c: CodeUnit)
    ensures |EscapeUnit(c)| == 6 ==> EscapeUnit(c) == UnicodeEscape(c)
  {
  }

  lemma {:induction false} EscapedTailIsWritable(t: Text, n: nat)
    requires Writable(t) && n <= |t| && forall i | 0 <= i < n :: !IsSurrogate(t[i])
    ensures Writable(t[n..])
  {
    if n > 0 {
      EscapedTailIsWritable(t[1..], n - 1);
      assert t[1..][n - 1..] == t[n..];
    }
  }

  /** A text that starts with any other escape. */
  lemma {:induction false} ShortSpelling(t: Text, s: Text)
    requires Writable(t) && Spells(t, s) && t != [] && t[0] == 92 && !(|t| >= 5 && t[1] == 117)
    ensures NoShorter(t, s)
    decreases |t|, 0
  {
    ShortFirst(t, s);
    WritableTail(t);
    WritableTail(t[1..]);
    if IsHighSurrogate(t[1]) {
      assert t[1..][2..] == t[3..];
      PlainUnitFirst(t[2..], s[1..]);
      assert t[2..][1..] == t[3..] && s[1..][1..] == s[2..];
      ShortestSpelling(t[3..], s[2..]);
      EscapedPairInFront(t, s);
    } else {
      assert t[1..][1..] == t[2..];
      ShortestSpelling(t[2..], s[1..]);
      ShortInFront(t[1], s[1..], t[2..]);
      assert t == [92, t[1]] + t[2..] && s == [s[0]] + s[1..];
    }
  }

  lemma EscapedPairInFront(t: Text, s: Text)
    requires |t| >= 3 && |s| >= 2 && IsHighSurrogate(t[1]) && IsLowSurrogate(t[2]) && s[0] == ShortUnescape(t[1]) && s[1] == t[2]
    requires NoShorter(t[3..], s[2..])
    ensures NoShorter(t, s)
  {
    PairInFront(t[1], t[2], s[2..]);
    assert s == [t[1], t[2]] + s[2..];
  }

  lemma ShortInFront(e: CodeUnit, s: Text, t: Text)
    requires e >= 32 && !IsSurrogate(e) && NoShorter(t, s)
    ensures NoShorter([92, e] + t, [ShortUnescape(e)] + s)
  {
    ShortEscapes(e);
    UnitInFront(ShortUnescape(e), s);
    ShorterConcat(EscapeUnit(ShortUnescape(e)), Escape(s), [92, e], t);
  }

  lemma ShortFirst(t: Text, s: Text)
    requires Spells(t, s) && t != [] && t[0] == 92 && !(|t| >= 5 && t[1] == 117)
    ensures |t| >= 2 && s != [] && s[0] == ShortUnescape(t[1]) && Spells(t[2..], s[1..])
  {
    var u := t + [34];
    assert u[0] == 92;
    TailSpells(t, 2);
    assert s == [s[0]] + s[1..];
  }

  lemma ShortEscapes(e: CodeUnit)
    requires e >= 32 && !IsSurrogate(e)
    ensures |EscapeUnit(ShortUnescape(e))| <= 2 && !IsSurrogate(ShortUnescape(e))
    ensures |EscapeUnit(ShortUnescape(e))| == 2 ==> EscapeUnit(ShortUnescape(e)) == [92, e]
  {
  }

  /** Of all texts without control characters and lone surrogates that a reader takes to `s`, what is printed for `s`
      is the shortest, and no other is as short. */
  lemma {:induction false} ShortestSpelling(t: Text, s: Text)
    requires Writable(t) && Spells(t, s)
    ensures |Escape(s)| <= |t| && (|Escape(s)| == |t| ==> Escape(s) == t)
    decreases |t|, 1
  {
    if t == [] {
      assert t + [34] == [34];
    } else if t[0] != 92 {
      PlainSpelling(t, s);
    } else if |t| >= 5 && t[1] == 117 {
      UnicodeSpelling(t, s);
    } else {
      ShortSpelling(t, s);
    }
  }
}
