/** What the key-sorting forms are: of all trees equal up to key order, the one whose keys stand in the form's order,
    in every object, at every depth. */
module OrderedForms {
  import opened Json
  import opened KeyOrder
  import opened Canonical
  import opened Numerals

  /** The order of keys in each layout: as sorted, as a rebuilt object enumerates them, as a column returns them. */
  function OrderOf(l: Layout): Order {
    match l
    case Listed => ByCodeUnits
    case Rebuilt => ByEnumeration
    case Stored => ByReadBack
  }

  /** In every object, at every depth, each key stands before the next ones. */
  predicate OrderedEverywhere(l: Layout, v: Json) {
    match v
    case Arr(items) => forall i | 0 <= i < |items| :: OrderedEverywhere(l, items[i])
    case Obj(fields) => Sorted(OrderOf(l), fields) && forall i | 0 <= i < |fields| :: OrderedEverywhere(l, fields[i].value)
    case _ => true
  }

  lemma ArrangedIsSorted(l: Layout, es: seq<Entry<Json>>)
    requires DistinctKeys(es)
    ensures Sorted(OrderOf(l), Arrange(l, Sort(ByCodeUnits, es)))
  {
    SortCorrect(ByCodeUnits, es);
    SortedIsDistinct(ByCodeUnits, Sort(ByCodeUnits, es));
    FromEntriesEnumerates(Sort(ByCodeUnits, es));
    SortCorrect(ByReadBack, Sort(ByCodeUnits, es));
  }

  lemma OrderedObjectStays(l: Layout, fields: seq<Entry<Json>>)
    requires DistinctKeys(fields) && Sorted(OrderOf(l), fields)
    requires forall i | 0 <= i < |fields| :: Normal(l, fields[i].value) == fields[i].value
    ensures Normal(l, Obj(fields)) == Obj(fields)
  {
    var ns := NormalFields(l, fields);
    assert ns == fields;
    var out := Arrange(l, Sort(ByCodeUnits, ns));
    forall e ensures e in out <==> e in fields { ArrangedHasEntry(l, ns, e); }
    ArrangedIsSorted(l, ns);
    SortedUnique(OrderOf(l), out, fields);
  }

  lemma UnchangedObjectIsSorted(l: Layout, fields: seq<Entry<Json>>)
    requires DistinctKeys(fields) && Normal(l, Obj(fields)) == Obj(fields)
    ensures Sorted(OrderOf(l), fields)
  {
    ArrangedIsSorted(l, NormalFields(l, fields));
  }

  lemma UnchangedObjectHasUnchangedValues(l: Layout, fields: seq<Entry<Json>>, i: nat)
    requires DistinctKeys(fields) && Normal(l, Obj(fields)) == Obj(fields) && i < |fields|
    ensures Normal(l, fields[i].value) == fields[i].value
  {
    var ns := NormalFields(l, fields);
    ArrangedHasEntry(l, ns, fields[i]);
    assert fields[i] in fields;
    var j :| 0 <= j < |ns| && ns[j] == fields[i];
    assert fields[j].key == fields[i].key;
  }

  lemma ItemsStay(l: Layout, items: seq<Json>)
    ensures Normal(l, Arr(items)) == Arr(items) <==> forall i | 0 <= i < |items| :: Normal(l, items[i]) == items[i]
  {
    var ns := NormalItems(l, items);
    if forall i | 0 <= i < |items| :: Normal(l, items[i]) == items[i] { assert ns == items; }
    if ns == items { assert forall i | 0 <= i < |items| :: ns[i] == items[i]; }
  }

  lemma FieldsStay(l: Layout, fields: seq<Entry<Json>>)
    requires DistinctKeys(fields)
    ensures Normal(l, Obj(fields)) == Obj(fields) <==>
            Sorted(OrderOf(l), fields) && forall i | 0 <= i < |fields| :: Normal(l, fields[i].value) == fields[i].value
  {
    if Sorted(OrderOf(l), fields) && forall i | 0 <= i < |fields| :: Normal(l, fields[i].value) == fields[i].value {
      OrderedObjectStays(l, fields);
    }
    if Normal(l, Obj(fields)) == Obj(fields) {
      UnchangedObjectIsSorted(l, fields);
      forall i | 0 <= i < |fields| ensures Normal(l, fields[i].value) == fields[i].value {
        UnchangedObjectHasUnchangedValues(l, fields, i);
      }
    }
  }

  /** A value is its own form if and only if its keys are in the form's order at every depth. */
  lemma {:induction false} StaysExactlyWhenOrdered(l: Layout, v: Json)
    requires Valid(v)
    ensures Normal(l, v) == v <==> OrderedEverywhere(l, v)
  {
    match v {
      case Arr(items) =>
        forall i | 0 <= i < |items| ensures Normal(l, items[i]) == items[i] <==> OrderedEverywhere(l, items[i]) {
          StaysExactlyWhenOrdered(l, items[i]);
        }
        ItemsStay(l, items);
      case Obj(fields) =>
        forall i | 0 <= i < |fields| ensures Normal(l, fields[i].value) == fields[i].value <==> OrderedEverywhere(l, fields[i].value) {
          StaysExactlyWhenOrdered(l, fields[i].value);
        }
        FieldsStay(l, fields);
      case _ =>
    }
  }

  /** The form of a value is the one tree that is equal to it up to key order and in the form's order throughout. */
  lemma NormalIsTheOrderedForm(l: Layout, v: Json, w: Json)
    requires Valid(v) && Valid(w)
    ensures w == Normal(l, v) <==> SameUpToKeyOrder(w, v) && OrderedEverywhere(l, w)
  {
    StaysExactlyWhenOrdered(l, w);
    if w == Normal(l, v) {
      NormalIsSame(l, v);
      NormalIsIdempotent(l, v);
    }
    if SameUpToKeyOrder(w, v) { SameHaveOneNormal(l, w, v); }
  }

  /** And what that order is, key by key. */
  lemma KeysStandInOrder(l: Layout, fields: seq<Entry<Json>>)
    requires Valid(Obj(fields))
    ensures OrderedEverywhere(l, Obj(fields)) <==>
            && (forall i, j | 0 <= i < j < |fields| :: StandsBefore(OrderOf(l), fields[i].key, fields[j].key))
            && (forall i | 0 <= i < |fields| :: OrderedEverywhere(l, fields[i].value))
  {
    forall i, j | 0 <= i < j < |fields|
      ensures Before(OrderOf(l), fields[i].key, fields[j].key) <==> StandsBefore(OrderOf(l), fields[i].key, fields[j].key)
    {
      OrdersMean(OrderOf(l), fields[i].key, fields[j].key);
    }
  }
}
