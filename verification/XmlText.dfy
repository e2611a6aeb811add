/** Character data of the package XML: the three replacements that escape it, and what an XML reader makes
    of it (sections 2.2, 2.4 and 2.11 of XML 1.0). */
module XmlText {
  import opened Wrappers
  import opened Texts

  const CR: CodeUnit := 13
  const AMP: CodeUnit := 38
  const SLASH: CodeUnit := 47
  const LT: CodeUnit := 60
  const GT: CodeUnit := 62
  const AMP_TEXT: Text := [38, 97, 109, 112, 59]
  const LT_TEXT: Text := [38, 108, 116, 59]
  const GT_TEXT: Text := [38, 103, 116, 59]

  // ----- Escaping -----

  /** `s.replace(/c/g, with)`. */
  function ReplaceAll(s: Text, c: CodeUnit, with: Text): Text {
    if s == [] then [] else (if s[0] == c then with else [s[0]]) + ReplaceAll(s[1..], c, with)
  }

  /** `esc`: ampersands first, then the two brackets. */
  function Esc(s: Text): Text {
    ReplaceAll(ReplaceAll(ReplaceAll(s, AMP, AMP_TEXT), LT, LT_TEXT), GT, GT_TEXT)
  }

  function EscapeUnit(c: CodeUnit): Text {
    if c == AMP then AMP_TEXT else if c == LT then LT_TEXT else if c == GT then GT_TEXT else [c]
  }

  /** The three characters replaced in one pass. */
  function EscapeOnce(s: Text): Text {
    if s == [] then [] else EscapeUnit(s[0]) + EscapeOnce(s[1..])
  }

  lemma {:induction false} ReplaceConcat(a: Text, b: Text, c: CodeUnit, with: Text)
    ensures ReplaceAll(a + b, c, with) == ReplaceAll(a, c, with) + ReplaceAll(b, c, with)
  {
    if a == [] {
      assert a + b == b;
    } else {
      assert (a + b)[1..] == a[1..] + b;
      ReplaceConcat(a[1..], b, c, with);
    }
  }

  lemma {:induction false} NothingToReplace(s: Text, c: CodeUnit, with: Text)
    requires c !in s
    ensures ReplaceAll(s, c, with) == s
  {
    if s != [] { NothingToReplace(s[1..], c, with); }
  }

  lemma ReplaceUnit(u: CodeUnit, c: CodeUnit, with: Text)
    ensures ReplaceAll([u], c, with) == if u == c then with else [u]
  {
  }

  lemma EscUnit(c: CodeUnit)
    ensures Esc([c]) == EscapeUnit(c)
  {
    ReplaceUnit(c, AMP, AMP_TEXT);
    if c == AMP {
      NothingToReplace(AMP_TEXT, LT, LT_TEXT);
      NothingToReplace(AMP_TEXT, GT, GT_TEXT);
    } else {
      ReplaceUnit(c, LT, LT_TEXT);
      if c == LT { NothingToReplace(LT_TEXT, GT, GT_TEXT); } else { ReplaceUnit(c, GT, GT_TEXT); }
    }
  }

  lemma EscConcat(a: Text, b: Text)
    ensures Esc(a + b) == Esc(a) + Esc(b)
  {
    var a1, b1 := ReplaceAll(a, AMP, AMP_TEXT), ReplaceAll(b, AMP, AMP_TEXT);
    var a2, b2 := ReplaceAll(a1, LT, LT_TEXT), ReplaceAll(b1, LT, LT_TEXT);
    ReplaceConcat(a, b, AMP, AMP_TEXT);
    ReplaceConcat(a1, b1, LT, LT_TEXT);
    ReplaceConcat(a2, b2, GT, GT_TEXT);
  }

  /** The three sequential replacements are one simultaneous substitution. */
  lemma {:induction false} EscIsSimultaneous(s: Text)
    ensures Esc(s) == EscapeOnce(s)
  {
    if s == [] {
      assert ReplaceAll([], AMP, AMP_TEXT) == [];
    } else {
      assert [s[0]] + s[1..] == s;
      EscConcat([s[0]], s[1..]);
      EscUnit(s[0]);
      EscIsSimultaneous(s[1..]);
    }
  }

  lemma {:induction false} EscapedHasNoBrackets(s: Text)
    ensures LT !in EscapeOnce(s) && GT !in EscapeOnce(s)
    ensures CR in EscapeOnce(s) <==> CR in s
  {
    if s != [] {
      EscapedHasNoBrackets(s[1..]);
      assert s == [s[0]] + s[1..];
    }
  }

  // ----- Reading character data -----

  /** Entity references replaced; absent when an ampersand starts none of the three. */
  function Unescape(t: Text): Option<Text> {
    if t == [] then Some([])
    else if AMP_TEXT <= t then Prefixed(AMP, Unescape(t[5..]))
    else if LT_TEXT <= t then Prefixed(LT, Unescape(t[4..]))
    else if GT_TEXT <= t then Prefixed(GT, Unescape(t[4..]))
    else if t[0] == AMP then None
    else Prefixed(t[0], Unescape(t[1..]))
  }

  function Prefixed(c: CodeUnit, rest: Option<Text>): Option<Text> {
    if rest.Some? then Some([c] + rest.value) else None
  }

  lemma UnescapeHead(c: CodeUnit, t: Text)
    ensures Unescape(EscapeUnit(c) + t) == Prefixed(c, Unescape(t))
  {
    var u := EscapeUnit(c) + t;
    assert u[|EscapeUnit(c)|..] == t;
    assert u[0] == EscapeUnit(c)[0] && EscapeUnit(c) <= u;
    assert AMP_TEXT <= u ==> u[0] == AMP && u[1] == 97 by { if AMP_TEXT <= u { assert u[0] == AMP_TEXT[0] && u[1] == AMP_TEXT[1]; } }
    assert LT_TEXT <= u ==> u[0] == AMP && u[1] == 108 by { if LT_TEXT <= u { assert u[0] == LT_TEXT[0] && u[1] == LT_TEXT[1]; } }
    assert GT_TEXT <= u ==> u[0] == AMP && u[1] == 103 by { if GT_TEXT <= u { assert u[0] == GT_TEXT[0] && u[1] == GT_TEXT[1]; } }
    if c == AMP || c == LT || c == GT { assert u[1] == EscapeUnit(c)[1]; }
  }

  /** Escaping is undone by reading, so it is injective. */
  lemma {:induction false} UnescapeEscape(s: Text)
    ensures Unescape(EscapeOnce(s)) == Some(s)
  {
    if s != [] {
      UnescapeEscape(s[1..]);
      UnescapeHead(s[0], EscapeOnce(s[1..]));
      assert s == [s[0]] + s[1..];
    }
  }

  lemma EscIsInjective(a: Text, b: Text)
    requires Esc(a) == Esc(b)
    ensures a == b
  {
    EscIsSimultaneous(a);
    EscIsSimultaneous(b);
    UnescapeEscape(a);
    UnescapeEscape(b);
  }

  lemma {:induction false} UnescapeAddsNoCr(t: Text)
    requires CR !in t
    ensures Unescape(t).Some? ==> CR !in Unescape(t).value
  {
    if t != [] {
      if AMP_TEXT <= t { UnescapeAddsNoCr(t[5..]); }
      else if LT_TEXT <= t || GT_TEXT <= t { UnescapeAddsNoCr(t[4..]); }
      else if t[0] != AMP { UnescapeAddsNoCr(t[1..]); }
    }
  }

  /** End-of-line handling: CR LF and lone CR both become LF. */
  function NormalEnds(t: Text): (r: Text)
    ensures CR !in r
  {
    if t == [] then []
    else if t[0] == CR then [10] + NormalEnds(if |t| > 1 && t[1] == 10 then t[2..] else t[1..])
    else [t[0]] + NormalEnds(t[1..])
  }

  lemma {:induction false} NoCrIsNormal(t: Text)
    requires CR !in t
    ensures NormalEnds(t) == t
  {
    if t != [] { NoCrIsNormal(t[1..]); }
  }

  /** Characters XML allows, by code unit; surrogates must come in pairs. */
  predicate Legal(t: Text) {
    WellFormed(t) && forall i | 0 <= i < |t| :: t[i] == 9 || t[i] == 10 || t[i] == CR || 32 <= t[i] < 0xFFFE
  }

  /** What a reader reports for a run of character data. */
  function ReadText(raw: Text): Option<Text> {
    var read := Unescape(NormalEnds(raw));
    if read.Some? && Legal(read.value) then read else None
  }

  predicate CleanText(t: Text) { Legal(t) && CR !in t }

  lemma ReadTextIsClean(raw: Text)
    ensures ReadText(raw).Some? ==> CleanText(ReadText(raw).value)
  {
    UnescapeAddsNoCr(NormalEnds(raw));
  }

  /** Escaped text is read back as it was if and only if it is legal in XML and has no carriage return. */
  lemma ReadTextEsc(s: Text)
    ensures ReadText(Esc(s)) == Some(s) <==> CleanText(s)
  {
    ReadTextIsClean(Esc(s));
    if CleanText(s) {
      EscIsSimultaneous(s);
      EscapedHasNoBrackets(s);
      NoCrIsNormal(Esc(s));
      UnescapeEscape(s);
    }
  }
}
