/** The three key-sorting serialisers: `stableStringify` (audit chain), `canonicalStringify`
    (certification) and `canonicalizeJson` (custody ledger). */
module Canonical {
  import opened Texts
  import opened Json
  import opened JsonText
  import opened KeyOrder

  /** What becomes of a sorted list of entries: printed as listed, rebuilt into an object first, or stored in a
      JSONB column and read back. */
  datatype Layout = Listed | Rebuilt | Stored

  function Arrange<V>(l: Layout, es: seq<Entry<V>>): seq<Entry<V>> {
    match l
    case Listed => es
    case Rebuilt => FromEntries(es)
    case Stored => Sort(ByReadBack, es)
  }

  /** The tree with the keys of every object rearranged. `Normal(Rebuilt, v)` is `sortDeep(v)`; `Normal(Stored, v)`
      is what a JSONB column returns for `v`. */
  function Normal(l: Layout, v: Json): Json
    decreases v, 1
  {
    match v
    case Arr(items) => Arr(NormalItems(l, items))
    case Obj(fields) => Obj(Arrange(l, Sort(ByCodeUnits, NormalFields(l, fields))))
    case _ => v
  }

  function NormalItems(l: Layout, items: seq<Json>): (r: seq<Json>)
    ensures |r| == |items|
    ensures forall i | 0 <= i < |items| :: r[i] == Normal(l, items[i])
    decreases items, 0
  {
    if items == [] then [] else [Normal(l, items[0])] + NormalItems(l, items[1..])
  }

  function NormalFields(l: Layout, fields: seq<Entry<Json>>): (r: seq<Entry<Json>>)
    ensures |r| == |fields|
    ensures forall i | 0 <= i < |fields| :: r[i] == Entry(fields[i].key, Normal(l, fields[i].value))
    decreases fields, 0
  {
    if fields == [] then []
    else [Entry(fields[0].key, Normal(l, fields[0].value))] + NormalFields(l, fields[1..])
  }

  function CanonicalStringify(v: Json): Text {
    Print(Normal(Rebuilt, v))
  }

  // ----- stableStringify: its own recursion, straight to text -----

  function StableStringify(v: Json): Text
    decreases v, 1
  {
    match v
    case Arr(items) => [91] + JoinItems(items) + [93]
    case Obj(fields) => [123] + JoinMembers(Sort(ByCodeUnits, StableMembers(fields))) + [125]
    case _ => Print(v)
  }

  function JoinItems(items: seq<Json>): Text
    decreases items, 0
  {
    if items == [] then []
    else if |items| == 1 then StableStringify(items[0])
    else StableStringify(items[0]) + [44] + JoinItems(items[1..])
  }

  /** Each key with the text of its value. */
  function StableMembers(fields: seq<Entry<Json>>): (r: seq<Entry<Text>>)
    ensures |r| == |fields|
    decreases fields, 0
  {
    if fields == [] then []
    else [Entry(fields[0].key, StableStringify(fields[0].value))] + StableMembers(fields[1..])
  }

  function JoinMembers(ms: seq<Entry<Text>>): Text {
    if ms == [] then []
    else
      var first := Quote(ms[0].key) + [58] + ms[0].value;
      if |ms| == 1 then first else first + [44] + JoinMembers(ms[1..])
  }

  /** Printing in sorted order is sorting and then printing. */
  lemma {:induction false} StableIsPrintOfSorted(v: Json)
    ensures StableStringify(v) == Print(Normal(Listed, v))
    decreases v, 1
  {
    match v {
      case Arr(items) => JoinIsPrintOfSorted(items);
      case Obj(fields) =>
        MembersArePrinted(fields);
        SortPrinted(NormalFields(Listed, fields));
        JoinPrinted(Sort(ByCodeUnits, NormalFields(Listed, fields)));
      case _ =>
    }
  }

  lemma {:induction false} JoinIsPrintOfSorted(items: seq<Json>)
    ensures JoinItems(items) == PrintItems(NormalItems(Listed, items))
    decreases items, 0
  {
    if items != [] {
      StableIsPrintOfSorted(items[0]);
      JoinIsPrintOfSorted(items[1..]);
      assert NormalItems(Listed, items)[1..] == NormalItems(Listed, items[1..]);
    }
  }

  function Printed(es: seq<Entry<Json>>): (r: seq<Entry<Text>>)
    ensures |r| == |es|
  {
    if es == [] then [] else [Entry(es[0].key, Print(es[0].value))] + Printed(es[1..])
  }

  lemma {:induction false} MembersArePrinted(fields: seq<Entry<Json>>)
    ensures StableMembers(fields) == Printed(NormalFields(Listed, fields))
    decreases fields, 0
  {
    if fields != [] {
      StableIsPrintOfSorted(fields[0].value);
      MembersArePrinted(fields[1..]);
      assert NormalFields(Listed, fields)[1..] == NormalFields(Listed, fields[1..]);
    }
  }

  lemma {:induction false} InsertPrinted(e: Entry<Json>, es: seq<Entry<Json>>)
    ensures Printed(Insert(ByCodeUnits, e, es)) == Insert(ByCodeUnits, Entry(e.key, Print(e.value)), Printed(es))
  {
    if es != [] && Before(ByCodeUnits, es[0].key, e.key) {
      InsertPrinted(e, es[1..]);
      assert Insert(ByCodeUnits, e, es)[1..] == Insert(ByCodeUnits, e, es[1..]);
      assert Printed(es)[1..] == Printed(es[1..]);
    } else {
      assert ([e] + es)[1..] == es;
    }
  }

  /** Sorting looks at keys only. */
  lemma {:induction false} SortPrinted(es: seq<Entry<Json>>)
    ensures Printed(Sort(ByCodeUnits, es)) == Sort(ByCodeUnits, Printed(es))
  {
    if es != [] {
      SortPrinted(es[1..]);
      InsertPrinted(es[0], Sort(ByCodeUnits, es[1..]));
      assert Printed(es)[1..] == Printed(es[1..]);
    }
  }

  lemma {:induction false} JoinPrinted(es: seq<Entry<Json>>)
    ensures JoinMembers(Printed(es)) == PrintFields(es)
  {
    if |es| > 1 {
      JoinPrinted(es[1..]);
      assert Printed(es)[1..] == Printed(es[1..]);
    }
  }

  // ----- Normal forms decide equality up to key order -----

  lemma ArrangedHasEntry<V>(l: Layout, es: seq<Entry<V>>, e: Entry<V>)
    ensures e in Arrange(l, Sort(ByCodeUnits, es)) <==> e in es
  {
    SortHasEntry(ByCodeUnits, es, e);
    FromEntriesHasEntry(Sort(ByCodeUnits, es), e);
    SortHasEntry(ByReadBack, Sort(ByCodeUnits, es), e);
  }

  lemma ArrangedIsDistinct<V>(l: Layout, es: seq<Entry<V>>)
    requires DistinctKeys(es)
    ensures DistinctKeys(Arrange(l, Sort(ByCodeUnits, es)))
  {
    SortCorrect(ByCodeUnits, es);
    SortedIsDistinct(ByCodeUnits, Sort(ByCodeUnits, es));
    FromEntriesEnumerates(Sort(ByCodeUnits, es));
    SortedIsDistinct(ByEnumeration, FromEntries(Sort(ByCodeUnits, es)));
    SortCorrect(ByReadBack, Sort(ByCodeUnits, es));
    SortedIsDistinct(ByReadBack, Sort(ByReadBack, Sort(ByCodeUnits, es)));
  }

  lemma {:induction false} NormalIsValid(l: Layout, v: Json)
    requires Valid(v)
    ensures Valid(Normal(l, v))
  {
    match v {
      case Arr(items) =>
        forall i | 0 <= i < |items| ensures Valid(Normal(l, items[i])) { NormalIsValid(l, items[i]); }
      case Obj(fields) =>
        var ns := NormalFields(l, fields);
        forall i | 0 <= i < |fields| ensures Valid(ns[i].value) { NormalIsValid(l, fields[i].value); }
        ArrangedIsDistinct(l, ns);
        var out := Arrange(l, Sort(ByCodeUnits, ns));
        forall k | 0 <= k < |out| ensures Valid(out[k].value) { ArrangedHasEntry(l, ns, out[k]); }
      case _ =>
    }
  }

  /** The two members have one key and values with one normal form. */
  predicate Matches(l: Layout, f: Entry<Json>, g: Entry<Json>) {
    f.key == g.key && Normal(l, f.value) == Normal(l, g.value)
  }

  ghost predicate HasMatch(l: Layout, f: Entry<Json>, gs: seq<Entry<Json>>) {
    exists j :: 0 <= j < |gs| && Matches(l, f, gs[j])
  }

  ghost predicate MatchedInto(l: Layout, fs: seq<Entry<Json>>, gs: seq<Entry<Json>>) {
    forall i | 0 <= i < |fs| :: HasMatch(l, fs[i], gs)
  }

  ghost predicate AllMatched(l: Layout, fs: seq<Entry<Json>>, gs: seq<Entry<Json>>) {
    MatchedInto(l, fs, gs) && MatchedInto(l, gs, fs)
  }

  lemma MatchedKeepsEntry(l: Layout, fs: seq<Entry<Json>>, gs: seq<Entry<Json>>, e: Entry<Json>)
    requires MatchedInto(l, fs, gs) && e in NormalFields(l, fs)
    ensures e in NormalFields(l, gs)
  {
  }

  lemma MatchedHaveOneSort(l: Layout, fs: seq<Entry<Json>>, gs: seq<Entry<Json>>)
    requires DistinctKeys(fs) && DistinctKeys(gs) && AllMatched(l, fs, gs)
    ensures Sort(ByCodeUnits, NormalFields(l, fs)) == Sort(ByCodeUnits, NormalFields(l, gs))
  {
    var nf, ng := NormalFields(l, fs), NormalFields(l, gs);
    SortCorrect(ByCodeUnits, nf);
    SortCorrect(ByCodeUnits, ng);
    forall e ensures e in Sort(ByCodeUnits, nf) <==> e in Sort(ByCodeUnits, ng) {
      SortHasEntry(ByCodeUnits, nf, e);
      SortHasEntry(ByCodeUnits, ng, e);
      if e in nf { MatchedKeepsEntry(l, fs, gs, e); }
      if e in ng { MatchedKeepsEntry(l, gs, fs, e); }
    }
    SortedUnique(ByCodeUnits, Sort(ByCodeUnits, nf), Sort(ByCodeUnits, ng));
  }

  lemma ArrangedMatchesInto(l: Layout, fs: seq<Entry<Json>>, gs: seq<Entry<Json>>)
    requires Normal(l, Obj(fs)) == Normal(l, Obj(gs))
    ensures MatchedInto(l, fs, gs)
  {
    var nf, ng := NormalFields(l, fs), NormalFields(l, gs);
    forall i | 0 <= i < |fs| ensures HasMatch(l, fs[i], gs) {
      ArrangedHasEntry(l, nf, nf[i]);
      ArrangedHasEntry(l, ng, nf[i]);
      var j :| 0 <= j < |ng| && ng[j] == nf[i];
      assert Matches(l, fs[i], gs[j]);
    }
  }

  /** Sorting removes key order. */
  lemma {:induction false} SameHaveOneNormal(l: Layout, a: Json, b: Json)
    requires Valid(a) && Valid(b) && SameUpToKeyOrder(a, b)
    ensures Normal(l, a) == Normal(l, b)
    decreases a, 1
  {
    match a {
      case Arr(xs) =>
        forall i | 0 <= i < |xs| ensures Normal(l, xs[i]) == Normal(l, b.items[i]) {
          SameHaveOneNormal(l, xs[i], b.items[i]);
        }
        assert NormalItems(l, xs) == NormalItems(l, b.items);
      case Obj(fs) =>
        SameFieldsMatch(l, a, b);
        MatchedHaveOneSort(l, fs, b.fields);
      case _ =>
    }
  }

  lemma {:induction false} SameFieldsMatch(l: Layout, a: Json, b: Json)
    requires Valid(a) && Valid(b) && SameUpToKeyOrder(a, b) && a.Obj?
    ensures b.Obj? && AllMatched(l, a.fields, b.fields)
    decreases a, 0
  {
    var fs, gs := a.fields, b.fields;
    forall i | 0 <= i < |fs| ensures HasMatch(l, fs[i], gs) {
      assert HasMember(fs[i], gs);
      var j :| 0 <= j < |gs| && SameMember(fs[i], gs[j]);
      SameHaveOneNormal(l, fs[i].value, gs[j].value);
      assert Matches(l, fs[i], gs[j]);
    }
    forall j | 0 <= j < |gs| ensures HasMatch(l, gs[j], fs) {
      assert IsMember(fs, gs[j]);
      var i :| 0 <= i < |fs| && SameMember(fs[i], gs[j]);
      SameHaveOneNormal(l, fs[i].value, gs[j].value);
      assert Matches(l, gs[j], fs[i]);
    }
  }

  /** Sorting removes nothing else. */
  lemma {:induction false} OneNormalIsSame(l: Layout, a: Json, b: Json)
    requires Normal(l, a) == Normal(l, b)
    ensures SameUpToKeyOrder(a, b)
    decreases a, 1
  {
    match (a, b) {
      case (Arr(xs), Arr(ys)) =>
        assert |xs| == |NormalItems(l, xs)| == |ys|;
        forall i | 0 <= i < |xs| ensures SameUpToKeyOrder(xs[i], ys[i]) {
          assert NormalItems(l, xs)[i] == NormalItems(l, ys)[i];
          OneNormalIsSame(l, xs[i], ys[i]);
        }
      case (Obj(fs), Obj(gs)) =>
        ArrangedMatchesInto(l, fs, gs);
        ArrangedMatchesInto(l, gs, fs);
        MatchedHaveMembers(l, fs, gs);
        MatchedAreMembers(l, fs, gs);
      case _ =>
    }
  }

  lemma {:induction false} MatchIsMember(l: Layout, f: Entry<Json>, g: Entry<Json>)
    requires Matches(l, f, g)
    ensures SameMember(f, g)
    decreases f, 0
  {
    OneNormalIsSame(l, f.value, g.value);
  }

  lemma {:induction false} MatchedHasMember(l: Layout, f: Entry<Json>, gs: seq<Entry<Json>>)
    requires HasMatch(l, f, gs)
    ensures HasMember(f, gs)
    decreases f, 1
  {
    var j :| 0 <= j < |gs| && Matches(l, f, gs[j]);
    MatchIsMember(l, f, gs[j]);
  }

  lemma {:induction false} MatchedHaveMembers(l: Layout, fs: seq<Entry<Json>>, gs: seq<Entry<Json>>)
    requires MatchedInto(l, fs, gs)
    ensures forall i | 0 <= i < |fs| :: HasMember(fs[i], gs)
    decreases fs, 0
  {
    forall i | 0 <= i < |fs| ensures HasMember(fs[i], gs) { MatchedHasMember(l, fs[i], gs); }
  }

  lemma {:induction false} MatchedIsMember(l: Layout, fs: seq<Entry<Json>>, g: Entry<Json>)
    requires HasMatch(l, g, fs)
    ensures IsMember(fs, g)
    decreases fs, 0
  {
    var i :| 0 <= i < |fs| && Matches(l, g, fs[i]);
    MatchIsMember(l, fs[i], g);
  }

  lemma {:induction false} MatchedAreMembers(l: Layout, fs: seq<Entry<Json>>, gs: seq<Entry<Json>>)
    requires MatchedInto(l, gs, fs)
    ensures forall j | 0 <= j < |gs| :: IsMember(fs, gs[j])
    decreases fs, 1
  {
    forall j | 0 <= j < |gs| ensures IsMember(fs, gs[j]) { MatchedIsMember(l, fs, gs[j]); }
  }

  /** Two trees have the same canonical string if and only if they are equal up to key order. */
  lemma CanonicalDecides(a: Json, b: Json)
    requires Valid(a) && Valid(b)
    ensures CanonicalStringify(a) == CanonicalStringify(b) <==> SameUpToKeyOrder(a, b)
  {
    NormalDecides(Rebuilt, a, b);
  }

  /** The same for the audit chain's serialiser. */
  lemma StableDecides(a: Json, b: Json)
    requires Valid(a) && Valid(b)
    ensures StableStringify(a) == StableStringify(b) <==> SameUpToKeyOrder(a, b)
  {
    StableIsPrintOfSorted(a);
    StableIsPrintOfSorted(b);
    NormalDecides(Listed, a, b);
  }

  lemma NormalDecides(l: Layout, a: Json, b: Json)
    requires Valid(a) && Valid(b)
    ensures Print(Normal(l, a)) == Print(Normal(l, b)) <==> SameUpToKeyOrder(a, b)
  {
    NormalIsValid(l, a);
    NormalIsValid(l, b);
    if Print(Normal(l, a)) == Print(Normal(l, b)) {
      PrintInjective(Normal(l, a), Normal(l, b));
      OneNormalIsSame(l, a, b);
    }
    if SameUpToKeyOrder(a, b) { SameHaveOneNormal(l, a, b); }
  }

  lemma SameIsReflexive(a: Json)
    ensures SameUpToKeyOrder(a, a)
  {
    OneNormalIsSame(Listed, a, a);
  }

  lemma SameIsEquivalence(a: Json, b: Json, c: Json)
    requires Valid(a) && Valid(b) && Valid(c) && SameUpToKeyOrder(a, b)
    ensures SameUpToKeyOrder(b, a)
    ensures SameUpToKeyOrder(b, c) ==> SameUpToKeyOrder(a, c)
  {
    SameHaveOneNormal(Listed, a, b);
    OneNormalIsSame(Listed, b, a);
    if SameUpToKeyOrder(b, c) {
      SameHaveOneNormal(Listed, b, c);
      OneNormalIsSame(Listed, a, c);
    }
  }

  /** Key sorting is idempotent at every depth. */
  lemma {:induction false} NormalIsIdempotent(l: Layout, v: Json)
    requires Valid(v)
    ensures Normal(l, Normal(l, v)) == Normal(l, v)
  {
    match v {
      case Arr(items) =>
        forall i | 0 <= i < |items| ensures Normal(l, NormalItems(l, items)[i]) == NormalItems(l, items)[i] {
          NormalIsIdempotent(l, items[i]);
        }
        assert NormalItems(l, NormalItems(l, items)) == NormalItems(l, items);
      case Obj(fields) =>
        var ns := NormalFields(l, fields);
        var out := Arrange(l, Sort(ByCodeUnits, ns));
        forall k | 0 <= k < |out| ensures Matches(l, out[k], out[k]) && Normal(l, out[k].value) == out[k].value {
          ArrangedHasEntry(l, ns, out[k]);
          var j :| 0 <= j < |ns| && ns[j] == out[k];
          NormalIsIdempotent(l, fields[j].value);
        }
        assert NormalFields(l, out) == out;
        ArrangedIsDistinct(l, ns);
        SortCorrect(ByCodeUnits, out);
        SortCorrect(ByCodeUnits, ns);
        forall e ensures e in Sort(ByCodeUnits, out) <==> e in Sort(ByCodeUnits, ns) {
          SortHasEntry(ByCodeUnits, out, e);
          ArrangedHasEntry(l, ns, e);
          SortHasEntry(ByCodeUnits, ns, e);
        }
        SortedUnique(ByCodeUnits, Sort(ByCodeUnits, out), Sort(ByCodeUnits, ns));
      case _ =>
    }
  }

  /** Key sorting changes key order only. */
  lemma NormalIsSame(l: Layout, v: Json)
    requires Valid(v)
    ensures SameUpToKeyOrder(Normal(l, v), v)
  {
    NormalIsIdempotent(l, v);
    OneNormalIsSame(l, Normal(l, v), v);
  }
}
