/** `toXml`: the element tree of a JSON value, its printed form, and a reader that recovers it (section 3 of
    XML 1.0, for elements without attributes). */
module Xml {
  import opened Wrappers
  import opened Texts
  import opened Json
  import opened JsonText
  import opened Numerals
  import opened XmlText

  // ----- Names -----

  /** Code units of name start characters. A supplementary one, U+10000 to U+EFFFF, is a pair of surrogates whose
      first is below 0xDB80. */
  predicate IsNameStart(c: CodeUnit) {
    || c == 58 || c == 95 || 65 <= c <= 90 || 97 <= c <= 122
    || (0xC0 <= c <= 0x2FF && c != 0xD7 && c != 0xF7) || (0x370 <= c <= 0x1FFF && c != 0x37E)
    || 0x200C <= c <= 0x200D || 0x2070 <= c <= 0x218F || 0x2C00 <= c <= 0x2FEF || (0x3001 <= c <= 0xDFFF && !(0xDB80 <= c <= 0xDBFF))
    || 0xF900 <= c <= 0xFDCF || 0xFDF0 <= c <= 0xFFFD
  }

  predicate IsNameUnit(c: CodeUnit) {
    IsNameStart(c) || c == 45 || c == 46 || 48 <= c <= 57 || c == 0xB7 || 0x300 <= c <= 0x36F || 0x203F <= c <= 0x2040
  }

  predicate IsName(t: Text) {
    t != [] && IsNameStart(t[0]) && WellFormed(t) && forall i | 0 <= i < |t| :: IsNameUnit(t[i])
  }

  /** `i${i}` */
  function ItemTag(i: nat): (t: Text)
    ensures IsName(t)
  {
    PlainIsWellFormed([105] + Decimal(i));
    [105] + Decimal(i)
  }

  /** "dealSeal" */
  const ROOT: Text := [100, 101, 97, 108, 83, 101, 97, 108]

  // ----- Elements -----

  /** An element holds text or children; when it holds neither, it is empty. */
  datatype Element = Element(tag: Text, text: Text, children: seq<Element>)

  /** `String(v)` of a scalar. */
  function ScalarText(v: Json): Text
    requires v.Bool? || v.Num? || v.Str?
  {
    match v
    case Bool(b) => if b then TRUE_TEXT else FALSE_TEXT
    case Num(token) => token
    case Str(s) => s
  }

  /** A string is its own text, and any other scalar is printed as in JSON. */
  lemma ScalarTextMeans(v: Json)
    requires v.Bool? || v.Num? || v.Str?
    ensures ScalarText(v) == if v.Str? then v.s else Print(v)
  {
  }

  /** The tag of an item is the letter i and the decimal numeral of its place. */
  lemma ItemTagMeans(i: nat)
    ensures var t := ItemTag(i); t[0] == 'i' as int && IsNumeral(t[1..]) && ValueOf(t[1..]) == i
  {
    DecimalHasValue(i);
    assert ItemTag(i)[1..] == Decimal(i);
  }

  /** The element a value stands for. */
  function Tree(v: Json, tag: Text): Element
    decreases v, 1
  {
    match v
    case Null => Element(tag, [], [])
    case Arr(items) => Element(tag, [], ItemTrees(items, 0))
    case Obj(fields) => Element(tag, [], FieldTrees(fields))
    case _ => Element(tag, ScalarText(v), [])
  }

  function ItemTrees(items: seq<Json>, i: nat): seq<Element>
    decreases items, 0
  {
    if items == [] then [] else [Tree(items[0], ItemTag(i))] + ItemTrees(items[1..], i + 1)
  }

  function FieldTrees(fields: seq<Entry<Json>>): seq<Element>
    decreases fields, 0
  {
    if fields == [] then [] else [Tree(fields[0].value, fields[0].key)] + FieldTrees(fields[1..])
  }

  // ----- Printing -----

  function Open(tag: Text): Text { [LT] + tag + [GT] }

  function Close(tag: Text): Text { [LT, SLASH] + tag + [GT] }

  /** `walk`. */
  function Walk(v: Json, tag: Text): Text
    decreases v, 1
  {
    match v
    case Null => [LT] + tag + [SLASH, GT]
    case Arr(items) => Open(tag) + WalkItems(items, 0) + Close(tag)
    case Obj(fields) => Open(tag) + WalkFields(fields) + Close(tag)
    case _ => Open(tag) + Esc(ScalarText(v)) + Close(tag)
  }

  function WalkItems(items: seq<Json>, i: nat): Text
    decreases items, 0
  {
    if items == [] then [] else Walk(items[0], ItemTag(i)) + WalkItems(items[1..], i + 1)
  }

  function WalkFields(fields: seq<Entry<Json>>): Text
    decreases fields, 0
  {
    if fields == [] then [] else Walk(fields[0].value, fields[0].key) + WalkFields(fields[1..])
  }

  /** `<?xml version="1.0" encoding="UTF-8"?>` and a line feed. */
  const DECLARATION: Text := Units("<?xml version=\"1.0\" encoding=\"UTF-8\"?>\n")

  function ToXml(v: Json): Text { DECLARATION + Walk(v, ROOT) }

  // ----- Reading -----

  /** What was read, and the text after it. */
  datatype Parsed<T> = Parsed(value: T, rest: Text)

  /** The length of the longest prefix of name characters. */
  function NameLength(s: Text): (n: nat)
    ensures n <= |s| && forall i | 0 <= i < n :: IsNameUnit(s[i])
  {
    if s != [] && IsNameUnit(s[0]) then 1 + NameLength(s[1..]) else 0
  }

  /** The length of the text before the next bracket. */
  function TextLength(s: Text): (n: nat)
    ensures n <= |s| && LT !in s[..n]
  {
    if s != [] && s[0] != LT then 1 + TextLength(s[1..]) else 0
  }

  predicate StartsChild(s: Text) { |s| > 1 && s[0] == LT && s[1] != SLASH }

  function ReadClose(tag: Text, s: Text): Option<Text> {
    if Close(tag) <= s then Some(s[|tag| + 3..]) else None
  }

  /** The content after a start tag, up to and including the end tag. */
  function ReadContent(tag: Text, s: Text): (r: Option<Parsed<Element>>)
    ensures r.Some? ==> |r.value.rest| < |s|
    decreases |s|, 3
  {
    if StartsChild(s) then
      var children := ReadChildren(s);
      if children.None? then None
      else
        var rest := ReadClose(tag, children.value.rest);
        if rest.None? then None else Some(Parsed(Element(tag, [], children.value.value), rest.value))
    else
      var n := TextLength(s);
      var text, rest := ReadText(s[..n]), ReadClose(tag, s[n..]);
      if text.None? || rest.None? then None else Some(Parsed(Element(tag, text.value, []), rest.value))
  }

  function ReadElement(s: Text): (r: Option<Parsed<Element>>)
    ensures r.Some? ==> |r.value.rest| < |s|
    decreases |s|, 1
  {
    if s == [] || s[0] != LT then None
    else
      var n := NameLength(s[1..]);
      var tag, after := s[1..1 + n], s[1 + n..];
      if !IsName(tag) then None
      else if [SLASH, GT] <= after then Some(Parsed(Element(tag, [], []), after[2..]))
      else if [GT] <= after then ReadContent(tag, after[1..])
      else None
  }

  function ReadChildren(s: Text): (r: Option<Parsed<seq<Element>>>)
    ensures r.Some? ==> |r.value.rest| <= |s|
    decreases |s|, 2
  {
    if !StartsChild(s) then Some(Parsed([], s))
    else
      var first := ReadElement(s);
      if first.None? then None
      else
        var more := ReadChildren(first.value.rest);
        if more.None? then None else Some(Parsed([first.value.value] + more.value.value, more.value.rest))
  }

  /** A document: the declaration and one element. */
  function ReadXml(s: Text): Option<Element> {
    if DECLARATION <= s then
      var root := ReadElement(s[|DECLARATION|..]);
      if root.Some? && root.value.rest == [] then Some(root.value.value) else None
    else None
  }

  // ----- What a reader can give back -----

  /** Names are names and text is clean, in the element and all its children. */
  predicate CleanElement(e: Element) {
    IsName(e.tag) && CleanText(e.text) && forall i | 0 <= i < |e.children| :: CleanElement(e.children[i])
  }

  lemma {:induction false} ContentIsClean(tag: Text, s: Text)
    requires IsName(tag)
    ensures ReadContent(tag, s).Some? ==> CleanElement(ReadContent(tag, s).value.value)
    decreases |s|, 3
  {
    if StartsChild(s) {
      ChildrenAreClean(s);
      EmptyIsClean();
    } else {
      ReadTextIsClean(s[..TextLength(s)]);
    }
  }

  lemma EmptyIsClean()
    ensures CleanText([])
  {
  }

  lemma {:induction false} ElementIsClean(s: Text)
    ensures ReadElement(s).Some? ==> CleanElement(ReadElement(s).value.value)
    decreases |s|, 1
  {
    if s != [] && s[0] == LT {
      var n := NameLength(s[1..]);
      var tag, after := s[1..1 + n], s[1 + n..];
      EmptyIsClean();
      if IsName(tag) && !([SLASH, GT] <= after) && [GT] <= after { ContentIsClean(tag, after[1..]); }
    }
  }

  lemma {:induction false} ChildrenAreClean(s: Text)
    ensures ReadChildren(s).Some? ==> forall i | 0 <= i < |ReadChildren(s).value.value| :: CleanElement(ReadChildren(s).value.value[i])
    decreases |s|, 2
  {
    if StartsChild(s) {
      ElementIsClean(s);
      if ReadElement(s).Some? { ChildrenAreClean(ReadElement(s).value.rest); }
    }
  }

  // ----- Reading what was printed -----

  lemma {:induction false} NameLengthIs(tag: Text, after: Text)
    requires forall i | 0 <= i < |tag| :: IsNameUnit(tag[i])
    requires after != [] && !IsNameUnit(after[0])
    ensures NameLength(tag + after) == |tag|
  {
    var s := tag + after;
    if tag != [] {
      assert s[0] == tag[0] && s[1..] == tag[1..] + after;
      NameLengthIs(tag[1..], after);
    }
  }

  lemma {:induction false} TextLengthIs(text: Text, after: Text)
    requires LT !in text && after != [] && after[0] == LT
    ensures TextLength(text + after) == |text|
  {
    var s := text + after;
    if text != [] {
      assert s[0] == text[0] && s[1..] == text[1..] + after;
      assert text[0] in text;
      TextLengthIs(text[1..], after);
    }
  }

  lemma CloseReads(tag: Text, rest: Text)
    ensures ReadClose(tag, Close(tag) + rest) == Some(rest)
  {
  }

  lemma TagIsTaken(tag: Text, after: Text)
    requires IsName(tag) && after != [] && !IsNameUnit(after[0])
    ensures var s := [LT] + tag + after;
            NameLength(s[1..]) == |tag| && s[1..1 + |tag|] == tag && s[1 + |tag|..] == after
  {
    var s := [LT] + tag + after;
    assert s[1..] == tag + after;
    NameLengthIs(tag, after);
  }

  /** A start tag hands the rest of the text to the content reader. */
  lemma OpenReads(tag: Text, body: Text)
    requires IsName(tag)
    ensures ReadElement(Open(tag) + body) == ReadContent(tag, body)
  {
    var after := [GT] + body;
    TagIsTaken(tag, after);
    Reassociate([LT] + tag, [GT], body);
    assert after[0] == GT && after[1..] == body;
    assert !([SLASH, GT] <= after);
  }

  lemma EmptyTagReads(tag: Text, rest: Text)
    requires IsName(tag)
    ensures ReadElement([LT] + tag + [SLASH, GT] + rest) == Some(Parsed(Element(tag, [], []), rest))
  {
    var after := [SLASH, GT] + rest;
    TagIsTaken(tag, after);
    Reassociate([LT] + tag, [SLASH, GT], rest);
    assert after[2..] == rest;
  }

  /** A run of text before an end tag is taken as a whole. */
  lemma TextThenClose(raw: Text, end: Text)
    requires LT !in raw && |end| > 1 && end[0] == LT && end[1] == SLASH
    ensures var s := raw + end;
            !StartsChild(s) && TextLength(s) == |raw| && s[..|raw|] == raw && s[|raw|..] == end
  {
    TextLengthIs(raw, end);
    if raw != [] { assert (raw + end)[0] == raw[0] && raw[0] in raw; }
  }

  lemma TextContent(tag: Text, text: Text, s: Text, n: nat, rest: Text)
    requires n <= |s| && !StartsChild(s) && TextLength(s) == n
    requires ReadText(s[..n]) == Some(text) && ReadClose(tag, s[n..]) == Some(rest)
    ensures ReadContent(tag, s) == Some(Parsed(Element(tag, text, []), rest))
  {
  }

  lemma TextReads(tag: Text, text: Text, rest: Text)
    requires CleanText(text)
    ensures ReadContent(tag, Esc(text) + Close(tag) + rest) == Some(Parsed(Element(tag, text, []), rest))
  {
    var raw, end := Esc(text), Close(tag) + rest;
    Reassociate(raw, Close(tag), rest);
    EscIsSimultaneous(text);
    EscapedHasNoBrackets(text);
    TextThenClose(raw, end);
    ReadTextEsc(text);
    CloseReads(tag, rest);
    TextContent(tag, text, raw + end, |raw|, rest);
  }

  /** Children read up to an end tag make the element's content. */
  lemma ChildrenMakeContent(tag: Text, inner: Text, children: seq<Element>, rest: Text)
    requires ReadChildren(inner + (Close(tag) + rest)) == Some(Parsed(children, Close(tag) + rest))
    requires inner == [] ==> children == []
    requires inner != [] ==> StartsChild(inner)
    ensures ReadContent(tag, inner + Close(tag) + rest) == Some(Parsed(Element(tag, [], children), rest))
  {
    var s := inner + (Close(tag) + rest);
    assert s == inner + Close(tag) + rest;
    CloseReads(tag, rest);
    if inner == [] {
      assert s == Close(tag) + rest && s[0] == LT && s[1] == SLASH;
      assert s[..0] == [] && s[0..] == s;
      assert TextLength(s) == 0;
      assert ReadText([]) == Some([]);
    } else {
      assert s[0] == inner[0] && s[1] == inner[1];
    }
  }

  /** Keys are names and texts are clean, at every depth. */
  predicate Clean(v: Json) {
    match v
    case Null => true
    case Arr(items) => forall i | 0 <= i < |items| :: Clean(items[i])
    case Obj(fields) => forall i | 0 <= i < |fields| :: IsName(fields[i].key) && Clean(fields[i].value)
    case _ => CleanText(ScalarText(v))
  }

  lemma WalkStarts(v: Json, tag: Text)
    requires IsName(tag)
    ensures StartsChild(Walk(v, tag))
  {
  }

  lemma OpenThenContent(tag: Text, inner: Text, e: Element, rest: Text)
    requires IsName(tag) && ReadContent(tag, inner + Close(tag) + rest) == Some(Parsed(e, rest))
    ensures ReadElement(Open(tag) + inner + Close(tag) + rest) == Some(Parsed(e, rest))
  {
    OpenReads(tag, inner + Close(tag) + rest);
    RegroupFour(Open(tag), inner, Close(tag), rest);
  }

  lemma {:induction false} ReadWalk(v: Json, tag: Text, rest: Text)
    requires Clean(v) && IsName(tag)
    ensures ReadElement(Walk(v, tag) + rest) == Some(Parsed(Tree(v, tag), rest))
    decreases v, 1
  {
    match v {
      case Null => EmptyTagReads(tag, rest);
      case Arr(items) =>
        ReadWalkItems(items, 0, Close(tag) + rest);
        ChildrenMakeContent(tag, WalkItems(items, 0), ItemTrees(items, 0), rest);
        OpenThenContent(tag, WalkItems(items, 0), Tree(v, tag), rest);
      case Obj(fields) =>
        ReadWalkFields(fields, Close(tag) + rest);
        ChildrenMakeContent(tag, WalkFields(fields), FieldTrees(fields), rest);
        OpenThenContent(tag, WalkFields(fields), Tree(v, tag), rest);
      case _ =>
        TextReads(tag, ScalarText(v), rest);
        OpenThenContent(tag, Esc(ScalarText(v)), Tree(v, tag), rest);
    }
  }

  lemma ChildThenMore(s: Text, e: Element, rest: Text, es: seq<Element>, end: Text)
    requires StartsChild(s) && ReadElement(s) == Some(Parsed(e, rest)) && ReadChildren(rest) == Some(Parsed(es, end))
    ensures ReadChildren(s) == Some(Parsed([e] + es, end))
  {
  }

  lemma StartsChildLonger(first: Text, more: Text)
    requires StartsChild(first)
    ensures StartsChild(first + more)
  {
  }

  lemma OneMoreChild(first: Text, e: Element, more: Text, es: seq<Element>, end: Text)
    requires StartsChild(first)
    requires ReadElement(first + (more + end)) == Some(Parsed(e, more + end))
    requires ReadChildren(more + end) == Some(Parsed(es, end))
    ensures ReadChildren(first + more + end) == Some(Parsed([e] + es, end))
    ensures StartsChild(first + more)
  {
    StartsChildLonger(first, more);
    StartsChildLonger(first, more + end);
    ChildThenMore(first + (more + end), e, more + end, es, end);
    Reassociate(first, more, end);
  }

  lemma RegroupFour(a: Text, b: Text, c: Text, d: Text)
    ensures a + b + c + d == a + (b + c + d)
  {
  }

  lemma Reassociate(a: Text, b: Text, c: Text)
    ensures a + b + c == a + (b + c)
  {
  }

  lemma {:induction false} ReadWalkItems(items: seq<Json>, i: nat, end: Text)
    requires (forall k | 0 <= k < |items| :: Clean(items[k])) && !StartsChild(end)
    ensures ReadChildren(WalkItems(items, i) + end) == Some(Parsed(ItemTrees(items, i), end))
    ensures items != [] ==> StartsChild(WalkItems(items, i))
    ensures items == [] ==> WalkItems(items, i) == []
    decreases items, 0
  {
    if items == [] {
      assert WalkItems(items, i) + end == end;
    } else {
      var first, more := Walk(items[0], ItemTag(i)), WalkItems(items[1..], i + 1);
      ReadWalk(items[0], ItemTag(i), more + end);
      WalkStarts(items[0], ItemTag(i));
      ReadWalkItems(items[1..], i + 1, end);
      OneMoreChild(first, Tree(items[0], ItemTag(i)), more, ItemTrees(items[1..], i + 1), end);
    }
  }

  lemma {:induction false} ReadWalkFields(fields: seq<Entry<Json>>, end: Text)
    requires (forall k | 0 <= k < |fields| :: IsName(fields[k].key) && Clean(fields[k].value)) && !StartsChild(end)
    ensures ReadChildren(WalkFields(fields) + end) == Some(Parsed(FieldTrees(fields), end))
    ensures fields != [] ==> StartsChild(WalkFields(fields))
    ensures fields == [] ==> WalkFields(fields) == []
    decreases fields, 0
  {
    if fields == [] {
      assert WalkFields(fields) + end == end;
    } else {
      var f := fields[0];
      var first, more := Walk(f.value, f.key), WalkFields(fields[1..]);
      ReadWalk(f.value, f.key, more + end);
      WalkStarts(f.value, f.key);
      ReadWalkFields(fields[1..], end);
      OneMoreChild(first, Tree(f.value, f.key), more, FieldTrees(fields[1..]), end);
    }
  }

  // ----- Exactly when -----

  lemma {:induction false} TreeIsCleanIff(v: Json, tag: Text)
    ensures CleanElement(Tree(v, tag)) <==> IsName(tag) && Clean(v)
    decreases v, 1
  {
    EmptyIsClean();
    match v {
      case Arr(items) => ItemTreesAreCleanIff(items, 0);
      case Obj(fields) => FieldTreesAreCleanIff(fields);
      case _ =>
    }
  }

  predicate AllClean(es: seq<Element>) { forall i | 0 <= i < |es| :: CleanElement(es[i]) }

  lemma AllCleanCons(e: Element, es: seq<Element>)
    ensures AllClean([e] + es) <==> CleanElement(e) && AllClean(es)
  {
    var more := [e] + es;
    assert more[0] == e && forall i | 0 <= i < |es| :: more[i + 1] == es[i];
  }

  lemma {:induction false} ItemTreesAreCleanIff(items: seq<Json>, i: nat)
    ensures AllClean(ItemTrees(items, i)) <==> forall k | 0 <= k < |items| :: Clean(items[k])
    decreases items, 0
  {
    if items != [] {
      TreeIsCleanIff(items[0], ItemTag(i));
      ItemTreesAreCleanIff(items[1..], i + 1);
      AllCleanCons(Tree(items[0], ItemTag(i)), ItemTrees(items[1..], i + 1));
      assert forall k | 0 < k < |items| :: items[k] == items[1..][k - 1];
    }
  }

  lemma {:induction false} FieldTreesAreCleanIff(fields: seq<Entry<Json>>)
    ensures AllClean(FieldTrees(fields)) <==> forall k | 0 <= k < |fields| :: IsName(fields[k].key) && Clean(fields[k].value)
    decreases fields, 0
  {
    if fields != [] {
      TreeIsCleanIff(fields[0].value, fields[0].key);
      FieldTreesAreCleanIff(fields[1..]);
      AllCleanCons(Tree(fields[0].value, fields[0].key), FieldTrees(fields[1..]));
      assert forall k | 0 < k < |fields| :: fields[k] == fields[1..][k - 1];
    }
  }

  lemma AfterDeclaration(s: Text)
    ensures var root := ReadElement(s);
            ReadXml(DECLARATION + s) == if root.Some? && root.value.rest == [] then Some(root.value.value) else None
  {
    assert (DECLARATION + s)[|DECLARATION|..] == s;
  }

  lemma RootIsName()
    ensures IsName(ROOT)
  {
    PlainIsWellFormed(ROOT);
  }

  /** Reading the printed document gives back the value's element tree if and only if every key is an XML name
      and every text is legal in XML and has no carriage return. */
  lemma XmlRoundTrip(v: Json)
    ensures ReadXml(ToXml(v)) == Some(Tree(v, ROOT)) <==> Clean(v)
  {
    RootIsName();
    AfterDeclaration(Walk(v, ROOT));
    ElementIsClean(Walk(v, ROOT));
    TreeIsCleanIff(v, ROOT);
    if Clean(v) {
      assert Walk(v, ROOT) + [] == Walk(v, ROOT);
      ReadWalk(v, ROOT, []);
    }
  }

  lemma UncleanIsNotReadBack(v: Json)
    requires !Clean(v)
    ensures ReadXml(ToXml(v)) != Some(Tree(v, ROOT))
  {
    XmlRoundTrip(v);
  }

  lemma UncleanKey(key: Text, value: Json)
    requires !IsName(key)
    ensures !Clean(Obj([Entry(key, value)]))
  {
    var fields := [Entry(key, value)];
    assert fields[0].key == key;
  }

  /** A lone surrogate as key, a key outside the name characters (U+F0000), and a text with a carriage return. */
  lemma NotReadBack()
    ensures var v := Obj([Entry([0xD800], Null)]); ReadXml(ToXml(v)) != Some(Tree(v, ROOT))
    ensures var v := Obj([Entry([0xDB80, 0xDC00], Null)]); ReadXml(ToXml(v)) != Some(Tree(v, ROOT))
    ensures var v := Str([CR]); ReadXml(ToXml(v)) != Some(Tree(v, ROOT))
  {
    UncleanKey([0xD800], Null);
    UncleanKey([0xDB80, 0xDC00], Null);
    UncleanIsNotReadBack(Obj([Entry([0xD800], Null)]));
    UncleanIsNotReadBack(Obj([Entry([0xDB80, 0xDC00], Null)]));
    UncleanIsNotReadBack(Str([CR]));
  }
}
