/** `JSON.stringify` without indentation, and a reader that recovers the tree from any longer text. */
module JsonText {
  import opened Texts
  import opened Json

  const NULL_TEXT: Text := [110, 117, 108, 108]
  const TRUE_TEXT: Text := [116, 114, 117, 101]
  const FALSE_TEXT: Text := [102, 97, 108, 115, 101]

  // ----- Strings (section 7 of RFC 8259) -----

  /** One lower-case hexadecimal digit. */
  function Hex(d: int): (c: CodeUnit)
    requires 0 <= d < 16
  {
    if d < 10 then 48 + d else 87 + d
  }

  function Unhex(c: CodeUnit): (d: int)
    ensures d < 16
  {
    if 48 <= c <= 57 then c - 48 else if 97 <= c <= 102 then c - 87 else -1
  }

  /** The letter of a two-character escape, or 0. */
  function ShortEscape(c: CodeUnit): CodeUnit {
    if c == 8 then 98
    else if c == 9 then 116
    else if c == 10 then 110
    else if c == 12 then 102
    else if c == 13 then 114
    else if c == 34 || c == 92 then c
    else 0
  }

  function ShortUnescape(e: CodeUnit): CodeUnit {
    if e == 98 then 8
    else if e == 116 then 9
    else if e == 110 then 10
    else if e == 102 then 12
    else if e == 114 then 13
    else e
  }

  function UnicodeEscape(c: CodeUnit): Text {
    [92, 117, Hex(c / 4096), Hex(c / 256 % 16), Hex(c / 16 % 16), Hex(c % 16)]
  }

  /** A code unit standing alone: short escape, \u escape for controls and lone surrogates, or itself. */
  function EscapeUnit(c: CodeUnit): Text {
    if ShortEscape(c) != 0 then [92, ShortEscape(c)]
    else if c < 32 || IsSurrogate(c) then UnicodeEscape(c)
    else [c]
  }

  predicate StartsWithPair(s: Text) {
    |s| > 1 && IsHighSurrogate(s[0]) && IsLowSurrogate(s[1])
  }

  /** How many code units the first code point takes. */
  function HeadLength(s: Text): (n: nat)
    requires s != []
    ensures 0 < n <= |s|
  {
    if StartsWithPair(s) then 2 else 1
  }

  function EscapedHead(s: Text): Text
    requires s != []
  {
    if StartsWithPair(s) then s[..2] else EscapeUnit(s[0])
  }

  function Escape(s: Text): Text {
    if s == [] then [] else EscapedHead(s) + Escape(s[HeadLength(s)..])
  }

  function Quote(s: Text): Text {
    [34] + Escape(s) + [34]
  }

  // ----- Printing -----

  function Print(v: Json): Text
    decreases v, 1
  {
    match v
    case Null => NULL_TEXT
    case Bool(b) => if b then TRUE_TEXT else FALSE_TEXT
    case Num(token) => token
    case Str(s) => Quote(s)
    case Arr(items) => [91] + PrintItems(items) + [93]
    case Obj(fields) => [123] + PrintFields(fields) + [125]
  }

  /** The items joined by commas. */
  function PrintItems(items: seq<Json>): Text
    decreases items, 0
  {
    if items == [] then []
    else if |items| == 1 then Print(items[0])
    else Print(items[0]) + [44] + PrintItems(items[1..])
  }

  function PrintFields(fields: seq<Entry<Json>>): Text
    decreases fields, 0
  {
    if fields == [] then []
    else
      var first := Quote(fields[0].key) + [58] + Print(fields[0].value);
      if |fields| == 1 then first else first + [44] + PrintFields(fields[1..])
  }

  // ----- Reading -----

  datatype Parsed<T> = Fail | Ok(value: T, rest: Text)

  /** Reads string characters up to the closing quote. */
  function ReadChars(t: Text): (r: Parsed<Text>)
    ensures r.Ok? ==> |r.rest| < |t|
  {
    if t == [] then Fail
    else if t[0] == 34 then Ok([], t[1..])
    else if t[0] != 92 then Prepend(t[0], ReadChars(t[1..]))
    else if |t| >= 6 && t[1] == 117 then
      var (a, b, c, d) := (Unhex(t[2]), Unhex(t[3]), Unhex(t[4]), Unhex(t[5]));
      if a < 0 || b < 0 || c < 0 || d < 0 then Fail
      else Prepend(((a * 16 + b) * 16 + c) * 16 + d, ReadChars(t[6..]))
    else if |t| >= 2 then Prepend(ShortUnescape(t[1]), ReadChars(t[2..]))
    else Fail
  }

  function Prepend(c: CodeUnit, r: Parsed<Text>): Parsed<Text> {
    if r.Ok? then Ok([c] + r.value, r.rest) else Fail
  }

  /** A quoted key and the colon after it. */
  function ReadKey(t: Text): (r: Parsed<Text>)
    ensures r.Ok? ==> |r.rest| < |t|
  {
    if t == [] || t[0] != 34 then Fail
    else
      var k := ReadChars(t[1..]);
      if k.Fail? || k.rest == [] || k.rest[0] != 58 then Fail else Ok(k.value, k.rest[1..])
  }

  function Literal(word: Text, v: Json, t: Text): (r: Parsed<Json>)
    ensures r.Ok? && word != [] ==> |r.rest| < |t|
  {
    if word <= t then Ok(v, t[|word|..]) else Fail
  }

  function NumberPrefix(t: Text): (n: nat)
    ensures n <= |t|
  {
    if t == [] || !IsNumberUnit(t[0]) then 0 else 1 + NumberPrefix(t[1..])
  }

  function Read(t: Text): (r: Parsed<Json>)
    ensures r.Ok? ==> |r.rest| < |t|
    decreases |t|, 0
  {
    if t == [] then Fail
    else if t[0] == 110 then Literal(NULL_TEXT, Null, t)
    else if t[0] == 116 then Literal(TRUE_TEXT, Bool(true), t)
    else if t[0] == 102 then Literal(FALSE_TEXT, Bool(false), t)
    else if t[0] == 34 then
      var s := ReadChars(t[1..]);
      if s.Ok? then Ok(Str(s.value), s.rest) else Fail
    else if t[0] == 91 then
      if |t| > 1 && t[1] == 93 then Ok(Arr([]), t[2..])
      else
        var xs := ReadItems(t[1..]);
        if xs.Ok? then Ok(Arr(xs.value), xs.rest) else Fail
    else if t[0] == 123 then
      if |t| > 1 && t[1] == 125 then Ok(Obj([]), t[2..])
      else
        var fs := ReadFields(t[1..]);
        if fs.Ok? then Ok(Obj(fs.value), fs.rest) else Fail
    else
      var n := NumberPrefix(t);
      if n == 0 then Fail else Ok(Num(t[..n]), t[n..])
  }

  /** Reads one or more items and the closing bracket. */
  function ReadItems(t: Text): (r: Parsed<seq<Json>>)
    ensures r.Ok? ==> |r.rest| < |t|
    decreases |t|, 1
  {
    var x := Read(t);
    if x.Fail? || x.rest == [] then Fail
    else if x.rest[0] == 93 then Ok([x.value], x.rest[1..])
    else if x.rest[0] != 44 then Fail
    else
      var xs := ReadItems(x.rest[1..]);
      if xs.Ok? then Ok([x.value] + xs.value, xs.rest) else Fail
  }

  /** Reads one or more members and the closing brace. */
  function ReadFields(t: Text): (r: Parsed<seq<Entry<Json>>>)
    ensures r.Ok? ==> |r.rest| < |t|
    decreases |t|, 1
  {
    var k := ReadKey(t);
    if k.Fail? then Fail
    else
      var x := Read(k.rest);
      if x.Fail? || x.rest == [] then Fail
      else if x.rest[0] == 125 then Ok([Entry(k.value, x.value)], x.rest[1..])
      else if x.rest[0] != 44 then Fail
      else
        var fs := ReadFields(x.rest[1..]);
        if fs.Ok? then Ok([Entry(k.value, x.value)] + fs.value, fs.rest) else Fail
  }

  // ----- Reading undoes printing -----

  lemma UnhexHex(d: int)
    requires 0 <= d < 16
    ensures Unhex(Hex(d)) == d
  {
  }

  lemma HexDigitsRebuild(c: CodeUnit)
    ensures 0 <= c / 4096 < 16
    ensures ((c / 4096 * 16 + c / 256 % 16) * 16 + c / 16 % 16) * 16 + c % 16 == c
  {
  }

  lemma ReadShortEscape(e: CodeUnit, rest: Text)
    requires e != 117
    ensures ReadChars([92, e] + rest) == Prepend(ShortUnescape(e), ReadChars(rest))
  {
  }

  lemma ReadUnicodeEscape(c: CodeUnit, rest: Text)
    ensures ReadChars(UnicodeEscape(c) + rest) == Prepend(c, ReadChars(rest))
  {
    var t := UnicodeEscape(c) + rest;
    HexDigitsRebuild(c);
    assert t[0] == 92 && t[1] == 117 && t[2] == Hex(c / 4096) && t[3] == Hex(c / 256 % 16)
        && t[4] == Hex(c / 16 % 16) && t[5] == Hex(c % 16) && t[6..] == rest;
    UnhexHex(c / 4096);
    UnhexHex(c / 256 % 16);
    UnhexHex(c / 16 % 16);
    UnhexHex(c % 16);
  }

  lemma ReadPlainUnit(c: CodeUnit, rest: Text)
    requires c != 34 && c != 92
    ensures ReadChars([c] + rest) == Prepend(c, ReadChars(rest))
  {
  }

  lemma ReadEscapedUnit(c: CodeUnit, rest: Text)
    ensures ReadChars(EscapeUnit(c) + rest) == Prepend(c, ReadChars(rest))
  {
    if ShortEscape(c) != 0 {
      ReadShortEscape(ShortEscape(c), rest);
    } else if c < 32 || IsSurrogate(c) {
      ReadUnicodeEscape(c, rest);
    } else {
      ReadPlainUnit(c, rest);
    }
  }

  lemma ReadPair(high: CodeUnit, low: CodeUnit, rest: Text)
    requires IsHighSurrogate(high) && IsLowSurrogate(low)
    ensures ReadChars([high, low] + rest) == Prepend(high, Prepend(low, ReadChars(rest)))
  {
  }

  lemma ReadHead(s: Text, tail: Text, rest: Text)
    requires s != [] && ReadChars(tail) == Ok(s[HeadLength(s)..], rest)
    ensures ReadChars(EscapedHead(s) + tail) == Ok(s, rest)
  {
    if StartsWithPair(s) {
      assert s[..2] == [s[0], s[1]];
      ReadPair(s[0], s[1], tail);
      assert s == [s[0]] + ([s[1]] + s[2..]);
    } else {
      ReadEscapedUnit(s[0], tail);
      assert s == [s[0]] + s[1..];
    }
  }

  lemma {:induction false} ReadQuoted(s: Text, rest: Text)
    ensures ReadChars(Escape(s) + [34] + rest) == Ok(s, rest)
  {
    if s == [] {
      assert Escape(s) + [34] + rest == [34] + rest;
      assert ([34] + rest)[1..] == rest;
    } else {
      var s' := s[HeadLength(s)..];
      ReadQuoted(s', rest);
      ReadHead(s, Escape(s') + [34] + rest, rest);
      Regroup(EscapedHead(s), Escape(s'), [34], rest);
    }
  }

  lemma Regroup(a: Text, b: Text, c: Text, d: Text)
    ensures (a + b) + c + d == a + (b + c + d)
  {
  }

  /** Where a printed value may end: nothing that could extend a number. */
  predicate Ends(rest: Text) {
    rest == [] || !IsNumberUnit(rest[0])
  }

  lemma {:induction false} NumberPrefixIsToken(token: Text, rest: Text)
    requires forall i | 0 <= i < |token| :: IsNumberUnit(token[i])
    requires Ends(rest)
    ensures NumberPrefix(token + rest) == |token|
  {
    if token == [] {
      assert token + rest == rest;
    } else {
      assert (token + rest)[1..] == token[1..] + rest;
      NumberPrefixIsToken(token[1..], rest);
    }
  }

  /** A printed value starts neither with a closing bracket or brace, nor empty. */
  lemma PrintStarts(v: Json)
    requires Valid(v)
    ensures Print(v) != [] && Print(v)[0] != 93 && Print(v)[0] != 125
  {
  }

  lemma ReadLiteral(word: Text, v: Json, rest: Text)
    ensures Literal(word, v, word + rest) == Ok(v, rest)
  {
  }

  lemma ReadNumber(token: Text, rest: Text)
    requires IsNumberToken(token) && Ends(rest)
    ensures Read(token + rest) == Ok(Num(token), rest)
  {
    var t := token + rest;
    NumberPrefixIsToken(token, rest);
    assert t[0] == token[0];
    assert t[..|token|] == token && t[|token|..] == rest;
  }

  lemma ReadString(s: Text, rest: Text)
    ensures Read(Quote(s) + rest) == Ok(Str(s), rest)
  {
    var t := Quote(s) + rest;
    assert t[0] == 34 && t[1..] == Escape(s) + [34] + rest;
    ReadQuoted(s, rest);
  }

  lemma ReadArray(inner: Text, items: seq<Json>, rest: Text)
    requires items == [] ==> inner == []
    requires items != [] ==> inner != [] && inner[0] != 93 && ReadItems(inner + [93] + rest) == Ok(items, rest)
    ensures Read([91] + inner + [93] + rest) == Ok(Arr(items), rest)
  {
    var t := [91] + inner + [93] + rest;
    assert t[0] == 91;
    if items == [] {
      assert t[1] == 93 && t[2..] == rest;
    } else {
      assert t[1..] == inner + [93] + rest;
      assert t[1] == inner[0];
    }
  }

  lemma ReadObject(inner: Text, fields: seq<Entry<Json>>, rest: Text)
    requires fields == [] ==> inner == []
    requires fields != [] ==> inner != [] && inner[0] != 125 && ReadFields(inner + [125] + rest) == Ok(fields, rest)
    ensures Read([123] + inner + [125] + rest) == Ok(Obj(fields), rest)
  {
    var t := [123] + inner + [125] + rest;
    assert t[0] == 123;
    if fields == [] {
      assert t[1] == 125 && t[2..] == rest;
    } else {
      assert t[1..] == inner + [125] + rest;
      assert t[1] == inner[0];
    }
  }

  /** The printed form is uniquely decodable: whatever follows, reading returns exactly the tree
      that was printed and exactly the text that follows it. */
  lemma {:induction false} ReadPrint(v: Json, rest: Text)
    requires Valid(v) && Ends(rest)
    ensures Read(Print(v) + rest) == Ok(v, rest)
    decreases v, 1
  {
    match v {
      case Null => ReadLiteral(NULL_TEXT, v, rest);
      case Bool(b) =>
        if b { ReadLiteral(TRUE_TEXT, v, rest); } else { ReadLiteral(FALSE_TEXT, v, rest); }
      case Num(token) => ReadNumber(token, rest);
      case Str(s) => ReadString(s, rest);
      case Arr(items) =>
        if items != [] {
          PrintStarts(items[0]);
          ReadPrintItems(items, rest);
        }
        ReadArray(PrintItems(items), items, rest);
      case Obj(fields) =>
        if fields != [] { ReadPrintFields(fields, rest); }
        ReadObject(PrintFields(fields), fields, rest);
    }
  }

  lemma ReadItemThen(x: Json, tail: Text)
    requires tail != [] && Read(Print(x) + tail) == Ok(x, tail)
    ensures tail[0] == 93 ==> ReadItems(Print(x) + tail) == Ok([x], tail[1..])
    ensures tail[0] == 44 && ReadItems(tail[1..]).Ok? ==>
              ReadItems(Print(x) + tail) == Ok([x] + ReadItems(tail[1..]).value, ReadItems(tail[1..]).rest)
  {
  }

  lemma LastItem(x: Json, items: seq<Json>, rest: Text)
    requires items == [x] && Read(Print(x) + ([93] + rest)) == Ok(x, [93] + rest)
    ensures ReadItems(PrintItems(items) + [93] + rest) == Ok(items, rest)
  {
    var tail := [93] + rest;
    ReadItemThen(x, tail);
    assert tail[0] == 93 && tail[1..] == rest;
    assert PrintItems(items) == Print(x);
    LastItemRegroup(Print(x), rest);
  }

  lemma LastItemRegroup(p: Text, rest: Text)
    ensures p + [93] + rest == p + ([93] + rest)
  {
  }

  lemma NextItem(x: Json, items: seq<Json>, rest: Text)
    requires |items| > 1 && items[0] == x
    requires ReadItems(PrintItems(items[1..]) + [93] + rest) == Ok(items[1..], rest)
    requires var tail := [44] + (PrintItems(items[1..]) + [93] + rest); Read(Print(x) + tail) == Ok(x, tail)
    ensures ReadItems(PrintItems(items) + [93] + rest) == Ok(items, rest)
  {
    var more := PrintItems(items[1..]) + [93] + rest;
    var tail := [44] + more;
    ReadItemThen(x, tail);
    assert tail[0] == 44 && tail[1..] == more;
    ItemRegroup(Print(x), PrintItems(items[1..]), rest);
    assert [x] + items[1..] == items;
  }

  lemma ItemRegroup(p: Text, more: Text, rest: Text)
    ensures p + [44] + more + [93] + rest == p + ([44] + (more + [93] + rest))
  {
  }

  lemma {:induction false} ReadPrintItems(items: seq<Json>, rest: Text)
    requires items != [] && forall i | 0 <= i < |items| :: Valid(items[i])
    ensures ReadItems(PrintItems(items) + [93] + rest) == Ok(items, rest)
    decreases items, 0
  {
    if |items| == 1 {
      ReadPrint(items[0], [93] + rest);
      LastItem(items[0], items, rest);
    } else {
      ReadPrint(items[0], [44] + (PrintItems(items[1..]) + [93] + rest));
      ReadPrintItems(items[1..], rest);
      NextItem(items[0], items, rest);
    }
  }

  lemma ReadQuotedKey(key: Text, rest: Text)
    ensures ReadKey(Quote(key) + [58] + rest) == Ok(key, rest)
  {
    var t := Quote(key) + [58] + rest;
    assert t[0] == 34 && t[1..] == Escape(key) + [34] + ([58] + rest);
    ReadQuoted(key, [58] + rest);
    assert ([58] + rest)[1..] == rest;
  }

  lemma ReadFieldThen(t: Text, f: Entry<Json>, tail: Text)
    requires tail != [] && ReadKey(t).Ok? && ReadKey(t).value == f.key
    requires Read(ReadKey(t).rest) == Ok(f.value, tail)
    ensures tail[0] == 125 ==> ReadFields(t) == Ok([f], tail[1..])
    ensures tail[0] == 44 && ReadFields(tail[1..]).Ok? ==>
              ReadFields(t) == Ok([f] + ReadFields(tail[1..]).value, ReadFields(tail[1..]).rest)
  {
  }

  lemma LastField(f: Entry<Json>, fields: seq<Entry<Json>>, rest: Text)
    requires fields == [f] && Read(Print(f.value) + ([125] + rest)) == Ok(f.value, [125] + rest)
    ensures ReadFields(PrintFields(fields) + [125] + rest) == Ok(fields, rest)
  {
    var tail := [125] + rest;
    ReadQuotedKey(f.key, Print(f.value) + tail);
    ReadFieldThen(Quote(f.key) + [58] + (Print(f.value) + tail), f, tail);
    assert tail[0] == 125 && tail[1..] == rest;
    assert PrintFields(fields) == Quote(f.key) + [58] + Print(f.value);
    LastFieldRegroup(Quote(f.key), Print(f.value), rest);
  }

  lemma PrintedMoreFields(f: Entry<Json>, fields: seq<Entry<Json>>, rest: Text)
    requires |fields| > 1 && fields[0] == f
    ensures PrintFields(fields) + [125] + rest
         == Quote(f.key) + [58] + (Print(f.value) + ([44] + (PrintFields(fields[1..]) + [125] + rest)))
  {
    var more := PrintFields(fields[1..]);
    assert PrintFields(fields) == Quote(f.key) + [58] + Print(f.value) + [44] + more;
    FieldRegroup(Quote(f.key), Print(f.value), more, rest);
  }

  lemma ReadFieldAndMore(f: Entry<Json>, more: Text, fs: seq<Entry<Json>>, rest: Text)
    requires ReadFields(more) == Ok(fs, rest) && Read(Print(f.value) + ([44] + more)) == Ok(f.value, [44] + more)
    ensures ReadFields(Quote(f.key) + [58] + (Print(f.value) + ([44] + more))) == Ok([f] + fs, rest)
  {
    var tail := [44] + more;
    ReadQuotedKey(f.key, Print(f.value) + tail);
    ReadFieldThen(Quote(f.key) + [58] + (Print(f.value) + tail), f, tail);
    assert tail[0] == 44 && tail[1..] == more;
  }

  lemma NextField(f: Entry<Json>, fields: seq<Entry<Json>>, rest: Text)
    requires |fields| > 1 && fields[0] == f
    requires ReadFields(PrintFields(fields[1..]) + [125] + rest) == Ok(fields[1..], rest)
    requires var tail := [44] + (PrintFields(fields[1..]) + [125] + rest); Read(Print(f.value) + tail) == Ok(f.value, tail)
    ensures ReadFields(PrintFields(fields) + [125] + rest) == Ok(fields, rest)
  {
    PrintedMoreFields(f, fields, rest);
    ReadFieldAndMore(f, PrintFields(fields[1..]) + [125] + rest, fields[1..], rest);
    assert [f] + fields[1..] == fields;
  }

  lemma {:induction false} ReadPrintFields(fields: seq<Entry<Json>>, rest: Text)
    requires fields != [] && forall i | 0 <= i < |fields| :: Valid(fields[i].value)
    ensures PrintFields(fields) != [] && PrintFields(fields)[0] == 34
    ensures ReadFields(PrintFields(fields) + [125] + rest) == Ok(fields, rest)
    decreases fields, 0
  {
    if |fields| == 1 {
      ReadPrint(fields[0].value, [125] + rest);
      LastField(fields[0], fields, rest);
    } else {
      ReadPrintFields(fields[1..], rest);
      ReadPrint(fields[0].value, [44] + (PrintFields(fields[1..]) + [125] + rest));
      NextField(fields[0], fields, rest);
    }
  }

  lemma LastFieldRegroup(k: Text, v: Text, rest: Text)
    ensures k + [58] + v + [125] + rest == k + [58] + (v + ([125] + rest))
  {
  }

  lemma FieldRegroup(k: Text, v: Text, more: Text, rest: Text)
    ensures k + [58] + v + [44] + more + [125] + rest == k + [58] + (v + ([44] + (more + [125] + rest)))
  {
  }

  lemma PrintInjective(a: Json, b: Json)
    requires Valid(a) && Valid(b) && Print(a) == Print(b)
    ensures a == b
  {
    ReadPrint(a, []);
    ReadPrint(b, []);
    assert Print(a) + [] == Print(a) && Print(b) + [] == Print(b);
  }

  // ----- Printed text survives UTF-8 -----

  lemma {:induction false} EscapeIsWellFormed(s: Text)
    ensures WellFormed(Escape(s))
  {
    if s != [] {
      EscapeIsWellFormed(s[HeadLength(s)..]);
      if StartsWithPair(s) {
        assert s[..2][2..] == [];
      } else {
        PlainIsWellFormed(EscapeUnit(s[0]));
      }
      WellFormedConcat(EscapedHead(s), Escape(s[HeadLength(s)..]));
    }
  }

  lemma QuoteIsWellFormed(s: Text)
    ensures WellFormed(Quote(s))
  {
    EscapeIsWellFormed(s);
    PlainIsWellFormed([34]);
    WellFormedConcat([34], Escape(s));
    WellFormedConcat([34] + Escape(s), [34]);
  }

  /** No printed value contains a lone surrogate, so hashing its UTF-8 bytes loses nothing. */
  lemma {:induction false} PrintIsWellFormed(v: Json)
    requires Valid(v)
    ensures WellFormed(Print(v))
    decreases v, 1
  {
    match v {
      case Null => PlainIsWellFormed(NULL_TEXT);
      case Bool(b) => PlainIsWellFormed(TRUE_TEXT); PlainIsWellFormed(FALSE_TEXT);
      case Num(token) => PlainIsWellFormed(token);
      case Str(s) => QuoteIsWellFormed(s);
      case Arr(items) =>
        PrintItemsIsWellFormed(items);
        Bracketed([91], PrintItems(items), [93]);
      case Obj(fields) =>
        PrintFieldsIsWellFormed(fields);
        Bracketed([123], PrintFields(fields), [125]);
    }
  }

  lemma Bracketed(a: Text, t: Text, b: Text)
    requires |a| == 1 && |b| == 1 && !IsSurrogate(a[0]) && !IsSurrogate(b[0]) && WellFormed(t)
    ensures WellFormed(a + t + b)
  {
    PlainIsWellFormed(a);
    PlainIsWellFormed(b);
    WellFormedConcat(a, t);
    WellFormedConcat(a + t, b);
  }

  lemma {:induction false} PrintItemsIsWellFormed(items: seq<Json>)
    requires forall i | 0 <= i < |items| :: Valid(items[i])
    ensures WellFormed(PrintItems(items))
    decreases items, 0
  {
    if items != [] {
      PrintIsWellFormed(items[0]);
      PrintItemsIsWellFormed(items[1..]);
      PlainIsWellFormed([44]);
      WellFormedConcat(Print(items[0]), [44]);
      WellFormedConcat(Print(items[0]) + [44], PrintItems(items[1..]));
    }
  }

  lemma {:induction false} PrintFieldsIsWellFormed(fields: seq<Entry<Json>>)
    requires forall i | 0 <= i < |fields| :: Valid(fields[i].value)
    ensures WellFormed(PrintFields(fields))
    decreases fields, 0
  {
    if fields != [] {
      QuoteIsWellFormed(fields[0].key);
      PrintIsWellFormed(fields[0].value);
      PrintFieldsIsWellFormed(fields[1..]);
      PlainIsWellFormed([44]);
      PlainIsWellFormed([58]);
      WellFormedConcat(Quote(fields[0].key), [58]);
      var first := Quote(fields[0].key) + [58] + Print(fields[0].value);
      WellFormedConcat(Quote(fields[0].key) + [58], Print(fields[0].value));
      WellFormedConcat(first, [44]);
      WellFormedConcat(first + [44], PrintFields(fields[1..]));
    }
  }
}
