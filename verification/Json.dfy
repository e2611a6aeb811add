/** Plain JSON trees, the values the serialisers of the repository are handed. */
module Json {
  import opened Texts

  datatype Entry<V> = Entry(key: Text, value: V)

  /** An object keeps its entries in enumeration order. A number is the text that
      Number::toString prints for it, which is distinct for distinct numbers. */
  datatype Json =
    | Null
    | Bool(b: bool)
    | Num(token: Text)
    | Str(s: Text)
    | Arr(items: seq<Json>)
    | Obj(fields: seq<Entry<Json>>)

  predicate IsDigit(c: CodeUnit) { 48 <= c <= 57 }

  /** Digits, `-`, `+`, `.` and the exponent's `e`. */
  predicate IsNumberUnit(c: CodeUnit) {
    IsDigit(c) || c == 45 || c == 43 || c == 46 || c == 101
  }

  predicate IsNumberToken(t: Text) {
    |t| > 0 && (IsDigit(t[0]) || t[0] == 45) && forall i | 0 <= i < |t| :: IsNumberUnit(t[i])
  }

  predicate DistinctKeys<V>(es: seq<Entry<V>>) {
    forall i, j | 0 <= i < j < |es| :: es[i].key != es[j].key
  }

  /** A value JavaScript can hold: number tokens are number tokens and keys do not repeat. */
  predicate Valid(v: Json) {
    match v
    case Num(token) => IsNumberToken(token)
    case Arr(items) => forall i | 0 <= i < |items| :: Valid(items[i])
    case Obj(fields) => DistinctKeys(fields) && forall i | 0 <= i < |fields| :: Valid(fields[i].value)
    case _ => true
  }

  /** Equality up to the order of object keys, at every depth: the same keys, and equal values under each. */
  ghost predicate SameUpToKeyOrder(a: Json, b: Json)
    decreases a, 2
  {
    if a.Arr? && b.Arr? then
      |a.items| == |b.items| && forall i | 0 <= i < |a.items| :: SameUpToKeyOrder(a.items[i], b.items[i])
    else if a.Obj? && b.Obj? then SameFields(a.fields, b.fields)
    else a == b
  }

  ghost predicate SameFields(fs: seq<Entry<Json>>, gs: seq<Entry<Json>>)
    decreases fs, 2
  {
    && (forall i | 0 <= i < |fs| :: HasMember(fs[i], gs))
    && (forall j | 0 <= j < |gs| :: IsMember(fs, gs[j]))
  }

  ghost predicate HasMember(f: Entry<Json>, gs: seq<Entry<Json>>)
    decreases f, 1
  {
    exists j :: 0 <= j < |gs| && SameMember(f, gs[j])
  }

  ghost predicate IsMember(fs: seq<Entry<Json>>, g: Entry<Json>)
    decreases fs, 1
  {
    exists i :: 0 <= i < |fs| && SameMember(fs[i], g)
  }

  ghost predicate SameMember(f: Entry<Json>, g: Entry<Json>)
    decreases f, 0
  {
    f.key == g.key && SameUpToKeyOrder(f.value, g.value)
  }
}
