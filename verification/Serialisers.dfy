/** Where the three serialisers agree, and exactly where they do not. */
module Serialisers {
  import opened Texts
  import opened Json
  import opened JsonText
  import opened KeyOrder
  import opened Canonical

  // ----- stableStringify against canonicalStringify -----

  /** In every object, sorting the keys puts them where a rebuilt object enumerates them anyway. */
  predicate OrdersAgreeEverywhere(v: Json) {
    match v
    case Arr(items) => forall i | 0 <= i < |items| :: OrdersAgreeEverywhere(items[i])
    case Obj(fields) => OrdersAgree(fields) && forall i | 0 <= i < |fields| :: OrdersAgreeEverywhere(fields[i].value)
    case _ => true
  }

  predicate NoIndexKeys(v: Json) {
    match v
    case Arr(items) => forall i | 0 <= i < |items| :: NoIndexKeys(items[i])
    case Obj(fields) => forall i | 0 <= i < |fields| :: !IsArrayIndex(fields[i].key) && NoIndexKeys(fields[i].value)
    case _ => true
  }

  lemma {:induction false} NoIndexKeysAgree(v: Json)
    requires NoIndexKeys(v)
    ensures OrdersAgreeEverywhere(v)
  {
    match v {
      case Arr(items) =>
        forall i | 0 <= i < |items| ensures OrdersAgreeEverywhere(items[i]) { NoIndexKeysAgree(items[i]); }
      case Obj(fields) =>
        forall i | 0 <= i < |fields| ensures OrdersAgreeEverywhere(fields[i].value) { NoIndexKeysAgree(fields[i].value); }
      case _ =>
    }
  }

  /** Agreement is about the set of keys. */
  lemma AgreementFollowsKeys(es: seq<Entry<Json>>, l: Layout)
    ensures OrdersAgree(es) <==> OrdersAgree(Sort(ByCodeUnits, NormalFields(l, es)))
  {
    var ns := NormalFields(l, es);
    var s := Sort(ByCodeUnits, ns);
    forall i, j | OrdersAgree(es) && 0 <= i < |s| && 0 <= j < |s| && Less(s[i].key, s[j].key)
      ensures Before(ByEnumeration, s[i].key, s[j].key)
    {
      SortHasEntry(ByCodeUnits, ns, s[i]);
      SortHasEntry(ByCodeUnits, ns, s[j]);
    }
    forall i, j | OrdersAgree(s) && 0 <= i < |es| && 0 <= j < |es| && Less(es[i].key, es[j].key)
      ensures Before(ByEnumeration, es[i].key, es[j].key)
    {
      SortHasEntry(ByCodeUnits, ns, ns[i]);
      SortHasEntry(ByCodeUnits, ns, ns[j]);
    }
  }

  lemma {:induction false} AgreeingLayouts(v: Json)
    requires Valid(v) && OrdersAgreeEverywhere(v)
    ensures Normal(Listed, v) == Normal(Rebuilt, v)
  {
    match v {
      case Arr(items) =>
        forall i | 0 <= i < |items| ensures Normal(Listed, items[i]) == Normal(Rebuilt, items[i]) { AgreeingLayouts(items[i]); }
        assert NormalItems(Listed, items) == NormalItems(Rebuilt, items);
      case Obj(fields) =>
        forall i | 0 <= i < |fields| ensures Normal(Listed, fields[i].value) == Normal(Rebuilt, fields[i].value) {
          AgreeingLayouts(fields[i].value);
        }
        assert NormalFields(Listed, fields) == NormalFields(Rebuilt, fields);
        SortCorrect(ByCodeUnits, NormalFields(Listed, fields));
        AgreementFollowsKeys(fields, Listed);
        RebuildKeepsOrder(Sort(ByCodeUnits, NormalFields(Listed, fields)));
      case _ =>
    }
  }

  lemma LayoutsMatchFieldwise(fields: seq<Entry<Json>>, i: nat)
    requires DistinctKeys(fields) && i < |fields|
    requires Normal(Listed, Obj(fields)) == Normal(Rebuilt, Obj(fields))
    ensures Normal(Listed, fields[i].value) == Normal(Rebuilt, fields[i].value)
  {
    var nl, nr := NormalFields(Listed, fields), NormalFields(Rebuilt, fields);
    ArrangedHasEntry(Listed, nl, nl[i]);
    ArrangedHasEntry(Rebuilt, nr, nl[i]);
    var j :| 0 <= j < |nr| && nr[j] == nl[i];
    assert i == j;
  }

  lemma {:induction false} EqualLayoutsAgree(v: Json)
    requires Valid(v) && Normal(Listed, v) == Normal(Rebuilt, v)
    ensures OrdersAgreeEverywhere(v)
  {
    match v {
      case Arr(items) =>
        forall i | 0 <= i < |items| ensures OrdersAgreeEverywhere(items[i]) {
          assert NormalItems(Listed, items)[i] == NormalItems(Rebuilt, items)[i];
          EqualLayoutsAgree(items[i]);
        }
      case Obj(fields) =>
        forall i | 0 <= i < |fields|
          ensures OrdersAgreeEverywhere(fields[i].value) && Normal(Listed, fields[i].value) == Normal(Rebuilt, fields[i].value)
        {
          LayoutsMatchFieldwise(fields, i);
          EqualLayoutsAgree(fields[i].value);
        }
        assert NormalFields(Listed, fields) == NormalFields(Rebuilt, fields);
        SortCorrect(ByCodeUnits, NormalFields(Listed, fields));
        RebuildKeepsOrder(Sort(ByCodeUnits, NormalFields(Listed, fields)));
        AgreementFollowsKeys(fields, Listed);
      case _ =>
    }
  }

  /** The audit serialiser and the certification serialiser print the same string exactly when, in every
      object, code-unit order and enumeration order agree; trees without integer-like keys always qualify. */
  lemma StableAgreesWithCanonical(v: Json)
    requires Valid(v)
    ensures StableStringify(v) == CanonicalStringify(v) <==> OrdersAgreeEverywhere(v)
    ensures NoIndexKeys(v) ==> StableStringify(v) == CanonicalStringify(v)
  {
    StableIsPrintOfSorted(v);
    if OrdersAgreeEverywhere(v) { AgreeingLayouts(v); }
    if StableStringify(v) == CanonicalStringify(v) {
      NormalIsValid(Listed, v);
      NormalIsValid(Rebuilt, v);
      PrintInjective(Normal(Listed, v), Normal(Rebuilt, v));
      EqualLayoutsAgree(v);
    }
    if NoIndexKeys(v) { NoIndexKeysAgree(v); }
  }

  /** {"9": null, "10": null}: sorted as text "10" comes first, enumerated as numbers "9" does. */
  lemma IndexKeysSplitTheSerialisers()
    ensures var v := Obj([Entry([57], Null), Entry([49, 48], Null)]);
            Valid(v) && StableStringify(v) != CanonicalStringify(v)
  {
    var fields: seq<Entry<Json>> := [Entry([57], Null), Entry([49, 48], Null)];
    assert Less(fields[1].key, fields[0].key);
    assert !Before(ByEnumeration, fields[1].key, fields[0].key);
    StableAgreesWithCanonical(Obj(fields));
  }

  // ----- canonicalizeJson: assignment to a plain object -----

  /** Assigning to the key "__proto__" sets the prototype and makes no property. */
  function DropProto(v: Json): Json
    decreases v, 1
  {
    match v
    case Arr(items) => Arr(DropProtoItems(items))
    case Obj(fields) => Obj(DropProtoFields(fields))
    case _ => v
  }

  function DropProtoItems(items: seq<Json>): (r: seq<Json>)
    ensures |r| == |items|
    ensures forall i | 0 <= i < |items| :: r[i] == DropProto(items[i])
    decreases items, 0
  {
    if items == [] then [] else [DropProto(items[0])] + DropProtoItems(items[1..])
  }

  function DropProtoFields(fields: seq<Entry<Json>>): seq<Entry<Json>>
    decreases fields, 0
  {
    if fields == [] then []
    else if fields[0].key == PROTO then DropProtoFields(fields[1..])
    else [Entry(fields[0].key, DropProto(fields[0].value))] + DropProtoFields(fields[1..])
  }

  function CanonicalizeJson(v: Json): Text {
    Print(Normal(Rebuilt, DropProto(v)))
  }

  lemma {:induction false} DropProtoHasEntry(fields: seq<Entry<Json>>, e: Entry<Json>)
    ensures e in DropProtoFields(fields) <==>
            e.key != PROTO && exists i :: 0 <= i < |fields| && fields[i].key == e.key && e.value == DropProto(fields[i].value)
  {
    if fields != [] {
      DropProtoHasEntry(fields[1..], e);
      if e in DropProtoFields(fields[1..]) {
        var i :| 0 <= i < |fields[1..]| && fields[1..][i].key == e.key && e.value == DropProto(fields[1..][i].value);
        assert fields[i + 1] == fields[1..][i];
      }
      if e.key != PROTO && exists i :: 0 <= i < |fields| && fields[i].key == e.key && e.value == DropProto(fields[i].value) {
        var i :| 0 <= i < |fields| && fields[i].key == e.key && e.value == DropProto(fields[i].value);
        if i > 0 { assert fields[1..][i - 1] == fields[i]; }
      }
    }
  }

  lemma {:induction false} DropProtoKeepsOrder(fields: seq<Entry<Json>>)
    ensures Sorted(ByCodeUnits, fields) ==> Sorted(ByCodeUnits, DropProtoFields(fields))
    ensures DistinctKeys(fields) ==> DistinctKeys(DropProtoFields(fields))
  {
    if fields != [] {
      var more := DropProtoFields(fields[1..]);
      DropProtoKeepsOrder(fields[1..]);
      forall k | 0 <= k < |more|
        ensures Sorted(ByCodeUnits, fields) ==> Less(fields[0].key, more[k].key)
        ensures DistinctKeys(fields) ==> fields[0].key != more[k].key
      {
        DropProtoHasEntry(fields[1..], more[k]);
      }
    }
  }

  lemma {:induction false} DropProtoSnoc(es: seq<Entry<Json>>, e: Entry<Json>)
    ensures DropProtoFields(es + [e]) == DropProtoFields(es) + if e.key == PROTO then [] else [Entry(e.key, DropProto(e.value))]
  {
    if es == [] {
      assert es + [e] == [e];
    } else {
      assert (es + [e])[1..] == es[1..] + [e];
      DropProtoSnoc(es[1..], e);
    }
  }

  lemma {:induction false} NormalFieldsSnoc(l: Layout, es: seq<Entry<Json>>, e: Entry<Json>)
    ensures NormalFields(l, es + [e]) == NormalFields(l, es) + [Entry(e.key, Normal(l, e.value))]
  {
  }

  lemma SortKeepsDropped(fields: seq<Entry<Json>>, e: Entry<Json>)
    ensures e in DropProtoFields(Sort(ByCodeUnits, fields)) <==> e in DropProtoFields(fields)
  {
    var s := Sort(ByCodeUnits, fields);
    DropProtoHasEntry(s, e);
    DropProtoHasEntry(fields, e);
    if e in DropProtoFields(s) {
      var i :| 0 <= i < |s| && s[i].key == e.key && e.value == DropProto(s[i].value);
      SortHasEntry(ByCodeUnits, fields, s[i]);
      var j :| 0 <= j < |fields| && fields[j] == s[i];
    }
    if e in DropProtoFields(fields) {
      var i :| 0 <= i < |fields| && fields[i].key == e.key && e.value == DropProto(fields[i].value);
      SortHasEntry(ByCodeUnits, fields, fields[i]);
      var j :| 0 <= j < |s| && s[j] == fields[i];
    }
  }

  lemma NormalKeepsEntry(fs: seq<Entry<Json>>, gs: seq<Entry<Json>>, e: Entry<Json>)
    requires forall f | f in fs :: f in gs
    ensures e in NormalFields(Rebuilt, fs) ==> e in NormalFields(Rebuilt, gs)
  {
    if e in NormalFields(Rebuilt, fs) {
      var i :| 0 <= i < |fs| && NormalFields(Rebuilt, fs)[i] == e;
      assert fs[i] in gs;
      var j :| 0 <= j < |gs| && gs[j] == fs[i];
      assert NormalFields(Rebuilt, gs)[j] == e;
    }
  }

  /** Dropping and normalising after the sort is the same as before it. */
  lemma SortThenDrop(fields: seq<Entry<Json>>)
    requires DistinctKeys(fields)
    ensures NormalFields(Rebuilt, DropProtoFields(Sort(ByCodeUnits, fields)))
         == Sort(ByCodeUnits, NormalFields(Rebuilt, DropProtoFields(fields)))
  {
    var s := Sort(ByCodeUnits, fields);
    var ds, df := DropProtoFields(s), DropProtoFields(fields);
    SortCorrect(ByCodeUnits, fields);
    DropProtoKeepsOrder(s);
    DropProtoKeepsOrder(fields);
    SortCorrect(ByCodeUnits, NormalFields(Rebuilt, df));
    forall d ensures d in ds <==> d in df { SortKeepsDropped(fields, d); }
    var left, right := NormalFields(Rebuilt, ds), Sort(ByCodeUnits, NormalFields(Rebuilt, df));
    forall e ensures e in left <==> e in right {
      SortHasEntry(ByCodeUnits, NormalFields(Rebuilt, df), e);
      NormalKeepsEntry(ds, df, e);
      NormalKeepsEntry(df, ds, e);
    }
    SortedUnique(ByCodeUnits, left, right);
  }

  /** The object under construction once these entries have been assigned. */
  function Assigned(es: seq<Entry<Json>>): seq<Entry<Json>> {
    FromEntries(NormalFields(Rebuilt, DropProtoFields(es)))
  }

  /** What one assignment `out[k] = sortKeys(obj[k])` does to the object under construction. */
  lemma AssignStep(es: seq<Entry<Json>>, e: Entry<Json>)
    ensures Assigned(es + [e]) == if e.key == PROTO then Assigned(es) else Define(Assigned(es), Entry(e.key, Normal(Rebuilt, DropProto(e.value))))
  {
    DropProtoSnoc(es, e);
    if e.key != PROTO {
      var kept := NormalFields(Rebuilt, DropProtoFields(es));
      NormalFieldsSnoc(Rebuilt, DropProtoFields(es), Entry(e.key, DropProto(e.value)));
      var last := Entry(e.key, Normal(Rebuilt, DropProto(e.value)));
      assert (kept + [last])[..|kept|] == kept;
    } else {
      assert DropProtoFields(es) + [] == DropProtoFields(es);
    }
  }

  lemma AssignNext(sorted: seq<Entry<Json>>, i: nat)
    requires i < |sorted|
    ensures Assigned(sorted[..i + 1]) == var e := sorted[i];
            if e.key == PROTO then Assigned(sorted[..i]) else Define(Assigned(sorted[..i]), Entry(e.key, Normal(Rebuilt, DropProto(e.value))))
  {
    assert sorted[..i + 1] == sorted[..i] + [sorted[i]];
    AssignStep(sorted[..i], sorted[i]);
  }

  lemma AssignedAll(fields: seq<Entry<Json>>)
    requires Valid(Obj(fields))
    ensures var sorted := Sort(ByCodeUnits, fields);
            Obj(Assigned(sorted[..|sorted|])) == Normal(Rebuilt, DropProto(Obj(fields)))
  {
    var sorted := Sort(ByCodeUnits, fields);
    assert sorted[..|sorted|] == sorted;
    SortThenDrop(fields);
  }

  /** `sortKeys`: fills a plain object key by key, in sorted order. */
  method SortKeys(v: Json) returns (r: Json)
    requires Valid(v)
    ensures r == Normal(Rebuilt, DropProto(v))
    decreases v, 1
  {
    match v {
      case Arr(items) =>
        var mapped := SortKeysOfItems(items);
        r := Arr(mapped);
      case Obj(fields) =>
        var out := SortKeysOfObject(fields);
        r := Obj(out);
      case _ => r := v;
    }
  }

  method SortKeysOfItems(items: seq<Json>) returns (mapped: seq<Json>)
    requires forall i | 0 <= i < |items| :: Valid(items[i])
    ensures mapped == NormalItems(Rebuilt, DropProtoItems(items))
    decreases items, 0
  {
    mapped := [];
    for i := 0 to |items|
      invariant |mapped| == i && forall j | 0 <= j < i :: mapped[j] == Normal(Rebuilt, DropProto(items[j]))
    {
      var item := SortKeys(items[i]);
      mapped := mapped + [item];
    }
  }

  method SortKeysOfObject(fields: seq<Entry<Json>>) returns (out: seq<Entry<Json>>)
    requires Valid(Obj(fields))
    ensures Obj(out) == Normal(Rebuilt, DropProto(Obj(fields)))
    decreases fields, 0
  {
    var sorted := Sort(ByCodeUnits, fields);
    out := [];
    for i := 0 to |sorted|
      invariant out == Assigned(sorted[..i])
    {
      SortHasEntry(ByCodeUnits, fields, sorted[i]);
      var value := SortKeys(sorted[i].value);
      if sorted[i].key != PROTO {
        out := Define(out, Entry(sorted[i].key, value));
      }
      AssignNext(sorted, i);
    }
    AssignedAll(fields);
  }

  lemma {:induction false} DropProtoIsValid(v: Json)
    requires Valid(v)
    ensures Valid(DropProto(v))
  {
    match v {
      case Arr(items) =>
        forall i | 0 <= i < |items| ensures Valid(DropProto(items[i])) { DropProtoIsValid(items[i]); }
      case Obj(fields) =>
        var out := DropProtoFields(fields);
        DropProtoKeepsOrder(fields);
        forall k | 0 <= k < |out| ensures Valid(out[k].value) {
          DropProtoHasEntry(fields, out[k]);
          var i :| 0 <= i < |fields| && fields[i].key == out[k].key && out[k].value == DropProto(fields[i].value);
          DropProtoIsValid(fields[i].value);
        }
      case _ =>
    }
  }

  predicate NoProtoKey(v: Json) {
    match v
    case Arr(items) => forall i | 0 <= i < |items| :: NoProtoKey(items[i])
    case Obj(fields) => forall i | 0 <= i < |fields| :: fields[i].key != PROTO && NoProtoKey(fields[i].value)
    case _ => true
  }

  lemma {:induction false} NothingToDrop(v: Json)
    requires NoProtoKey(v)
    ensures DropProto(v) == v
    decreases v, 1
  {
    match v {
      case Arr(items) =>
        forall i | 0 <= i < |items| ensures DropProto(items[i]) == items[i] { NothingToDrop(items[i]); }
        assert DropProtoItems(items) == items;
      case Obj(fields) => NothingToDropInFields(fields);
      case _ =>
    }
  }

  lemma {:induction false} NothingToDropInFields(fields: seq<Entry<Json>>)
    requires forall i | 0 <= i < |fields| :: fields[i].key != PROTO && NoProtoKey(fields[i].value)
    ensures DropProtoFields(fields) == fields
    decreases fields, 0
  {
    if fields != [] {
      NothingToDrop(fields[0].value);
      NothingToDropInFields(fields[1..]);
    }
  }

  lemma {:induction false} SameAfterDropHasNoProto(v: Json)
    requires Valid(v) && SameUpToKeyOrder(DropProto(v), v)
    ensures NoProtoKey(v)
  {
    match v {
      case Arr(items) =>
        forall i | 0 <= i < |items| ensures NoProtoKey(items[i]) { SameAfterDropHasNoProto(items[i]); }
      case Obj(fields) =>
        forall i | 0 <= i < |fields| ensures fields[i].key != PROTO && SameUpToKeyOrder(DropProto(fields[i].value), fields[i].value) {
          SurvivesDrop(fields, i);
        }
        forall i | 0 <= i < |fields| ensures NoProtoKey(fields[i].value) { SameAfterDropHasNoProto(fields[i].value); }
      case _ =>
    }
  }

  lemma SurvivesDrop(fields: seq<Entry<Json>>, i: nat)
    requires DistinctKeys(fields) && i < |fields| && SameFields(DropProtoFields(fields), fields)
    ensures fields[i].key != PROTO && SameUpToKeyOrder(DropProto(fields[i].value), fields[i].value)
  {
    var out := DropProtoFields(fields);
    assert IsMember(out, fields[i]);
    var k :| 0 <= k < |out| && SameMember(out[k], fields[i]);
    DropProtoHasEntry(fields, out[k]);
    var j :| 0 <= j < |fields| && fields[j].key == out[k].key && out[k].value == DropProto(fields[j].value);
    assert i == j;
  }

  /** The custody serialiser agrees with the certification serialiser exactly on trees without a
      "__proto__" key, and decides equality up to key order of what remains when those are dropped. */
  lemma CanonicalizeAgreesWithCanonical(v: Json)
    requires Valid(v)
    ensures CanonicalizeJson(v) == CanonicalStringify(v) <==> NoProtoKey(v)
  {
    if NoProtoKey(v) { NothingToDrop(v); }
    if CanonicalizeJson(v) == CanonicalStringify(v) {
      DropProtoIsValid(v);
      NormalDecides(Rebuilt, DropProto(v), v);
      SameAfterDropHasNoProto(v);
    }
  }

  lemma CanonicalizeDecides(a: Json, b: Json)
    requires Valid(a) && Valid(b)
    ensures CanonicalizeJson(a) == CanonicalizeJson(b) <==> SameUpToKeyOrder(DropProto(a), DropProto(b))
    ensures NoProtoKey(a) && NoProtoKey(b) ==>
              (CanonicalizeJson(a) == CanonicalizeJson(b) <==> SameUpToKeyOrder(a, b))
  {
    DropProtoIsValid(a);
    DropProtoIsValid(b);
    NormalDecides(Rebuilt, DropProto(a), DropProto(b));
    if NoProtoKey(a) && NoProtoKey(b) {
      NothingToDrop(a);
      NothingToDrop(b);
    }
  }

  /** On trees without array-index keys and "__proto__" keys all three serialisers print the same text. */
  lemma AllThreeAgree(v: Json)
    requires Valid(v) && NoIndexKeys(v) && NoProtoKey(v)
    ensures StableStringify(v) == CanonicalStringify(v) == CanonicalizeJson(v)
  {
    NoIndexKeysAgree(v);
    StableAgreesWithCanonical(v);
    CanonicalizeAgreesWithCanonical(v);
  }
}
