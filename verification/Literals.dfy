/** The texts the code spells out, as it spells them. */
module Literals {
  import opened Texts
  import opened KeyOrder
  import opened JsonText
  import opened XmlText
  import opened Xml
  import opened RawPayloads
  import opened Timeline

  lemma JsonWords()
    ensures NULL_TEXT == Units("null") && TRUE_TEXT == Units("true") && FALSE_TEXT == Units("false")
    ensures UNDEFINED_TEXT == Units("undefined") && PROTO == Units("__proto__")
  {
  }

  lemma XmlWords()
    ensures AMP_TEXT == Units("&amp;") && LT_TEXT == Units("&lt;") && GT_TEXT == Units("&gt;")
    ensures [AMP] == Units("&") && [LT] == Units("<") && [GT] == Units(">") && [SLASH] == Units("/") && [CR] == Units("\r")
    ensures ROOT == Units("dealSeal") && DECLARATION == Units("<?xml version=\"1.0\" encoding=\"UTF-8\"?>\n")
  {
  }

  lemma SourceNames()
    ensures NameOf(STATE) == Units("state") && NameOf(AUDIT) == Units("audit")
    ensures NameOf(DOCUMENT) == Units("document") && NameOf(PACKAGE) == Units("package")
  {
  }

  /** Among the ASCII characters, letters, colon and underscore start a name; digits, hyphen and dot go on. */
  lemma AsciiNames(c: CodeUnit)
    requires c < 128
    ensures IsNameStart(c) <==> 'a' as int <= c <= 'z' as int || 'A' as int <= c <= 'Z' as int || c == ':' as int || c == '_' as int
    ensures IsNameUnit(c) <==> IsNameStart(c) || '0' as int <= c <= '9' as int || c == '-' as int || c == '.' as int
  {
  }
}
