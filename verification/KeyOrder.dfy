/** The orders object keys go through: `sort()` compares code units; a rebuilt object enumerates array-index
    keys first, by value, and the other keys in insertion order; and a JSONB column keeps shorter keys first. */
module KeyOrder {
  import opened Texts
  import opened Json

  /** "4294967295", the first whole number that is not an array index. */
  const INDEX_LIMIT: Text := [52, 50, 57, 52, 57, 54, 55, 50, 57, 53]

  /** The key "__proto__". */
  const PROTO: Text := [95, 95, 112, 114, 111, 116, 111, 95, 95]

  predicate IsArrayIndex(k: Text) {
    && 0 < |k| <= 10
    && (forall i | 0 <= i < |k| :: IsDigit(k[i]))
    && (k[0] == 48 ==> |k| == 1)
    && (|k| == 10 ==> Less(k, INDEX_LIMIT))
  }

  datatype Order = ByCodeUnits | ByEnumeration | ByReadBack

  /** For whole numbers without leading zeros this is the numeric order. */
  predicate Shortlex(a: Text, b: Text) {
    |a| < |b| || (|a| == |b| && Less(a, b))
  }

  /** The order of keys inside a JSONB object: by the length of their UTF-8 form, then by its bytes. (Texts that
      differ have different bytes once they are stored; the last clause only makes the order total.) */
  predicate JsonbBefore(a: Text, b: Text) {
    var x, y := Utf8(a), Utf8(b);
    |x| < |y| || (|x| == |y| && (Less(x, y) || (x == y && Less(a, b))))
  }

  lemma JsonbBeforeTransitive(a: Text, b: Text, c: Text)
    requires JsonbBefore(a, b) && JsonbBefore(b, c)
    ensures JsonbBefore(a, c)
  {
    var x, y, z := Utf8(a), Utf8(b), Utf8(c);
    if Less(x, y) && Less(y, z) { LessTransitive(x, y, z); }
    if Less(a, b) && Less(b, c) { LessTransitive(a, b, c); }
  }

  lemma JsonbBeforeTotal(a: Text, b: Text)
    ensures JsonbBefore(a, b) || a == b || JsonbBefore(b, a)
  {
    LessTotal(Utf8(a), Utf8(b));
    LessTotal(a, b);
  }

  lemma JsonbBeforeIrreflexive(a: Text)
    ensures !JsonbBefore(a, a)
  {
    LessIrreflexive(Utf8(a));
    LessIrreflexive(a);
  }

  predicate Before(o: Order, a: Text, b: Text) {
    match o
    case ByCodeUnits => Less(a, b)
    case ByEnumeration =>
      if IsArrayIndex(a) then IsArrayIndex(b) ==> Shortlex(a, b)
      else !IsArrayIndex(b) && Less(a, b)
    case ByReadBack =>
      if IsArrayIndex(a) then IsArrayIndex(b) ==> Shortlex(a, b)
      else !IsArrayIndex(b) && JsonbBefore(a, b)
  }

  lemma BeforeIrreflexive(o: Order, a: Text)
    ensures !Before(o, a, a)
  {
    LessIrreflexive(a);
    JsonbBeforeIrreflexive(a);
  }

  lemma BeforeTransitive(o: Order, a: Text, b: Text, c: Text)
    requires Before(o, a, b) && Before(o, b, c)
    ensures Before(o, a, c)
  {
    if Less(a, b) && Less(b, c) { LessTransitive(a, b, c); }
    if o == ByReadBack && JsonbBefore(a, b) && JsonbBefore(b, c) { JsonbBeforeTransitive(a, b, c); }
  }

  lemma BeforeTotal(o: Order, a: Text, b: Text)
    ensures Before(o, a, b) || a == b || Before(o, b, a)
  {
    LessTotal(a, b);
    JsonbBeforeTotal(a, b);
  }

  predicate Sorted<V>(o: Order, es: seq<Entry<V>>) {
    forall i, j | 0 <= i < j < |es| :: Before(o, es[i].key, es[j].key)
  }

  function Insert<V>(o: Order, e: Entry<V>, es: seq<Entry<V>>): seq<Entry<V>> {
    if es != [] && Before(o, es[0].key, e.key) then [es[0]] + Insert(o, e, es[1..]) else [e] + es
  }

  function Sort<V>(o: Order, es: seq<Entry<V>>): seq<Entry<V>> {
    if es == [] then [] else Insert(o, es[0], Sort(o, es[1..]))
  }

  lemma {:induction false} InsertElements<V>(o: Order, e: Entry<V>, es: seq<Entry<V>>)
    ensures multiset(Insert(o, e, es)) == multiset{e} + multiset(es)
  {
    if es != [] && Before(o, es[0].key, e.key) {
      InsertElements(o, e, es[1..]);
      assert es == [es[0]] + es[1..];
    }
  }

  lemma ConsSorted<V>(o: Order, e: Entry<V>, es: seq<Entry<V>>)
    requires Sorted(o, es) && forall f | f in es :: Before(o, e.key, f.key)
    ensures Sorted(o, [e] + es)
  {
  }

  lemma InsertHasEntry<V>(o: Order, e: Entry<V>, es: seq<Entry<V>>, f: Entry<V>)
    requires f in Insert(o, e, es)
    ensures f == e || f in es
  {
    InsertElements(o, e, es);
    assert f in multiset(Insert(o, e, es));
  }

  lemma {:induction false} InsertSorted<V>(o: Order, e: Entry<V>, es: seq<Entry<V>>)
    requires Sorted(o, es)
    requires forall i | 0 <= i < |es| :: es[i].key != e.key
    ensures Sorted(o, Insert(o, e, es))
  {
    if es == [] {
    } else if Before(o, es[0].key, e.key) {
      InsertSorted(o, e, es[1..]);
      forall f | f in Insert(o, e, es[1..]) ensures Before(o, es[0].key, f.key) { InsertHasEntry(o, e, es[1..], f); }
      ConsSorted(o, es[0], Insert(o, e, es[1..]));
    } else {
      BeforeTotal(o, es[0].key, e.key);
      forall f | f in es ensures Before(o, e.key, f.key) {
        var j :| 0 <= j < |es| && es[j] == f;
        if j > 0 { BeforeTransitive(o, e.key, es[0].key, f.key); }
      }
      ConsSorted(o, e, es);
    }
  }

  /** Entries of the tail, in whatever order, do not have the key of the head. */
  lemma HeadKeyIsNew<V>(es: seq<Entry<V>>, more: seq<Entry<V>>)
    requires es != [] && DistinctKeys(es) && multiset(more) == multiset(es[1..])
    ensures forall i | 0 <= i < |more| :: more[i].key != es[0].key
  {
    forall i | 0 <= i < |more| ensures more[i].key != es[0].key {
      assert more[i] in multiset(more);
      assert more[i] in es[1..];
    }
  }

  lemma {:induction false} SortCorrect<V>(o: Order, es: seq<Entry<V>>)
    ensures multiset(Sort(o, es)) == multiset(es)
    ensures DistinctKeys(es) ==> Sorted(o, Sort(o, es))
  {
    if es != [] {
      var more := Sort(o, es[1..]);
      SortCorrect(o, es[1..]);
      InsertElements(o, es[0], more);
      assert es == [es[0]] + es[1..];
      if DistinctKeys(es) {
        HeadKeyIsNew(es, more);
        InsertSorted(o, es[0], more);
      }
    }
  }

  lemma SortHasEntry<V>(o: Order, es: seq<Entry<V>>, e: Entry<V>)
    ensures e in Sort(o, es) <==> e in es
  {
    SortCorrect(o, es);
    assert e in Sort(o, es) <==> e in multiset(Sort(o, es));
  }

  lemma SortedIsDistinct<V>(o: Order, es: seq<Entry<V>>)
    requires Sorted(o, es)
    ensures DistinctKeys(es)
  {
    forall i, j | 0 <= i < j < |es| ensures es[i].key != es[j].key {
      BeforeIrreflexive(o, es[i].key);
    }
  }

  lemma HeadIsLeast<V>(o: Order, s: seq<Entry<V>>, e: Entry<V>)
    requires Sorted(o, s) && e in s
    ensures e == s[0] || Before(o, s[0].key, e.key)
  {
  }

  lemma HeadsAgree<V>(o: Order, s: seq<Entry<V>>, t: seq<Entry<V>>)
    requires Sorted(o, s) && Sorted(o, t) && s != [] && t != [] && t[0] in s && s[0] in t
    ensures s[0] == t[0]
  {
    var a, b := s[0].key, t[0].key;
    HeadIsLeast(o, s, t[0]);
    HeadIsLeast(o, t, s[0]);
    BeforeIrreflexive(o, a);
    if Before(o, a, b) && Before(o, b, a) { BeforeTransitive(o, a, b, a); }
  }

  /** A strictly sorted list is determined by its entries, so any correct sort gives this one. */
  lemma {:induction false} SortedUnique<V>(o: Order, s: seq<Entry<V>>, t: seq<Entry<V>>)
    requires Sorted(o, s) && Sorted(o, t)
    requires forall e :: e in s <==> e in t
    ensures s == t
  {
    if s == [] {
      assert forall i | 0 <= i < |t| :: t[i] in s;
    } else {
      assert s[0] in t;
      assert t[0] in s;
      HeadsAgree(o, s, t);
      SortedIsDistinct(o, s);
      SortedIsDistinct(o, t);
      forall e ensures e in s[1..] <==> e in t[1..] {
        if e in s[1..] { assert e in t && e != t[0]; }
        if e in t[1..] { assert e in s && e != s[0]; }
      }
      SortedUnique(o, s[1..], t[1..]);
      assert s == [s[0]] + s[1..] && t == [t[0]] + t[1..];
    }
  }

  // ----- Building an object -----

  /** A new property: an array index goes to its place among the indexes, any other key to the end. */
  function Define<V>(out: seq<Entry<V>>, e: Entry<V>): seq<Entry<V>> {
    if IsArrayIndex(e.key) then Insert(ByEnumeration, e, out) else out + [e]
  }

  /** The object made by defining the entries one after the other; their keys are distinct. */
  function FromEntries<V>(es: seq<Entry<V>>): seq<Entry<V>> {
    if es == [] then [] else Define(FromEntries(es[..|es| - 1]), es[|es| - 1])
  }

  lemma {:induction false} FromEntriesElements<V>(es: seq<Entry<V>>)
    ensures multiset(FromEntries(es)) == multiset(es)
  {
    if es != [] {
      var n := |es| - 1;
      FromEntriesElements(es[..n]);
      InsertElements(ByEnumeration, es[n], FromEntries(es[..n]));
      assert es == es[..n] + [es[n]];
    }
  }

  lemma FromEntriesHasEntry<V>(es: seq<Entry<V>>, e: Entry<V>)
    ensures e in FromEntries(es) <==> e in es
  {
    FromEntriesElements(es);
    assert e in FromEntries(es) <==> e in multiset(FromEntries(es));
  }

  lemma {:induction false} FromEntriesEnumerates<V>(es: seq<Entry<V>>)
    requires Sorted(ByCodeUnits, es)
    ensures Sorted(ByEnumeration, FromEntries(es))
  {
    if es != [] {
      var n := |es| - 1;
      var out := FromEntries(es[..n]);
      FromEntriesEnumerates(es[..n]);
      SortedIsDistinct(ByCodeUnits, es);
      forall i | 0 <= i < |out| ensures out[i].key != es[n].key && Less(out[i].key, es[n].key) {
        FromEntriesHasEntry(es[..n], out[i]);
      }
      if IsArrayIndex(es[n].key) { InsertSorted(ByEnumeration, es[n], out); }
    }
  }

  /** On these keys the two orders never disagree. */
  predicate OrdersAgree<V>(es: seq<Entry<V>>) {
    forall i, j | 0 <= i < |es| && 0 <= j < |es| ::
      Less(es[i].key, es[j].key) ==> Before(ByEnumeration, es[i].key, es[j].key)
  }

  /** Rebuilding a sorted object leaves its entries in place exactly when the orders agree on its keys. */
  lemma RebuildKeepsOrder<V>(es: seq<Entry<V>>)
    requires Sorted(ByCodeUnits, es)
    ensures FromEntries(es) == es <==> OrdersAgree(es)
  {
    FromEntriesEnumerates(es);
    if OrdersAgree(es) {
      forall e ensures e in FromEntries(es) <==> e in es { FromEntriesHasEntry(es, e); }
      SortedUnique(ByEnumeration, FromEntries(es), es);
    }
    if FromEntries(es) == es {
      forall i, j | 0 <= i < |es| && 0 <= j < |es| && Less(es[i].key, es[j].key)
        ensures Before(ByEnumeration, es[i].key, es[j].key)
      {
        if j <= i {
          if j < i { LessTransitive(es[i].key, es[j].key, es[i].key); }
          LessIrreflexive(es[i].key);
        }
      }
    }
  }
}
