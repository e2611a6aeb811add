/** The sort key of the timeline as text: printed instant, source and id, and that comparing the texts is comparing the
    parts. */
module TimelineKeys {
  import opened Texts
  import opened Numerals
  import opened Timeline

  /** The instants are printed in one width and in their order, as ISO instants of four-digit years are. */
  ghost predicate PrintsInOrder(iso: int -> Text, low: int, high: int) {
    forall x, y | low <= x < high && low <= y < high ::
      |iso(x)| == |iso(y)| && (x < y <==> Less(iso(x), iso(y)))
  }

  /** `sortKey`: the parts, with a zero between them. */
  function SortKey(iso: int -> Text, k: Key): Text {
    iso(k.at) + ([0] + (NameOf(k.source) + ([0] + k.id)))
  }

  lemma SourceDecides(a: Key, b: Key)
    ensures Less(NameOf(b.source) + ([0] + b.id), NameOf(a.source) + ([0] + a.id)) <==>
            Less(NameOf(b.source), NameOf(a.source)) || (a.source == b.source && Less(b.id, a.id))
  {
    if a.source == b.source {
      LessBehind(NameOf(a.source), [0] + b.id, [0] + a.id);
      LessBehind([0], b.id, a.id);
      LessIrreflexive(NameOf(a.source));
    } else {
      NamesInOrder(a.source, b.source);
      LessAtOnce(NameOf(b.source), NameOf(a.source), [0] + b.id, [0] + a.id);
    }
  }

  /** The timeline is in descending order of its sort keys. */
  lemma SortKeyDecides(iso: int -> Text, low: int, high: int, a: Key, b: Key)
    requires PrintsInOrder(iso, low, high) && low <= a.at < high && low <= b.at < high
    ensures Newer(a, b) <==> Less(SortKey(iso, b), SortKey(iso, a))
  {
    NewerMeans(a, b);
    var x, y := NameOf(b.source) + ([0] + b.id), NameOf(a.source) + ([0] + a.id);
    SourceDecides(a, b);
    LessBehind([0], x, y);
    if a.at == b.at {
      LessBehind(iso(a.at), [0] + x, [0] + y);
    } else {
      if iso(a.at) == iso(b.at) { LessIrreflexive(iso(a.at)); }
      LessInHead(iso(b.at), iso(a.at), [0] + x, [0] + y);
    }
  }

  // ----- A printing in order -----

  /** The decimal digits of a number, in a fixed width. */
  function Digits(n: nat, width: nat): (t: Text)
    ensures |t| == width
  {
    if width == 0 then [] else Digits(n / 10, width - 1) + [48 + n % 10]
  }

  lemma {:induction false} DigitsInOrder(x: nat, y: nat, width: nat)
    requires x < Power(width) && y < Power(width)
    ensures x < y <==> Less(Digits(x, width), Digits(y, width))
    decreases width
  {
    if width > 0 {
      DigitsInOrder(x / 10, y / 10, width - 1);
      var p, q := Digits(x / 10, width - 1), Digits(y / 10, width - 1);
      if x / 10 == y / 10 {
        LessBehind(p, [48 + x % 10], [48 + y % 10]);
      } else {
        DigitsInOrder(y / 10, x / 10, width - 1);
        if p == q { LessIrreflexive(p); }
        LessInHead(p, q, [48 + x % 10], [48 + y % 10]);
      }
    }
  }

  /** Decimal digits of a fixed width are such a printing. */
  lemma DigitsPrintInOrder(width: nat)
    ensures PrintsInOrder(n => if n >= 0 then Digits(n, width) else [], 0, Power(width))
  {
    forall x: int, y: int | 0 <= x < Power(width) && 0 <= y < Power(width)
      ensures x < y <==> Less(Digits(x, width), Digits(y, width))
    {
      DigitsInOrder(x, y, width);
    }
  }
}
