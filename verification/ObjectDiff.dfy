/** `diffJsonObject`: the top-level difference of two JSON objects, its replay and its reversal. */
module ObjectDiff {
  import opened Wrappers
  import opened Texts
  import opened Json
  import opened JsonText
  import opened KeyOrder

  /** The properties of a JSON object, in enumeration order. */
  type Fields = seq<Entry<Json>>

  predicate ValidFields(fs: Fields) { Valid(Obj(fs)) }

  /** `o[k]`, absent for undefined. */
  function Get(fs: Fields, k: Text): (v: Option<Json>)
    ensures v.Some? ==> exists i :: 0 <= i < |fs| && fs[i] == Entry(k, v.value)
    ensures v.None? ==> forall i | 0 <= i < |fs| :: fs[i].key != k
  {
    if fs == [] then None
    else if fs[0].key == k then Some(fs[0].value)
    else Get(fs[1..], k)
  }

  function Keys(fs: Fields): set<Text> {
    set i | 0 <= i < |fs| :: fs[i].key
  }

  /** The object as a map: what remains of it up to the order of its own keys. */
  function AsMap(fs: Fields): map<Text, Json> {
    map k | k in Keys(fs) && Get(fs, k).Some? :: Get(fs, k).value
  }

  function AtKey(m: map<Text, Json>, k: Text): Option<Json> {
    if k in m then Some(m[k]) else None
  }

  lemma AsMapIsGet(fs: Fields, k: Text)
    ensures AtKey(AsMap(fs), k) == Get(fs, k)
  {
  }

  datatype Change<T> = Change(before: T, after: T)

  /** Keys that changed, with the value before and after; absent means the key was not there. */
  type ObjectChanges = map<Text, Change<Option<Json>>>

  /** `JSON.stringify(v)`; undefined has no text. */
  function TextOf(v: Option<Json>): Option<Text> {
    if v.Some? then Some(Print(v.value)) else None
  }

  predicate Differs(a: Fields, b: Fields, k: Text) {
    TextOf(Get(a, k)) != TextOf(Get(b, k))
  }

  function DiffOver(ks: set<Text>, a: Fields, b: Fields): ObjectChanges {
    map k | k in ks && k != PROTO && Differs(a, b, k) :: Change(Get(a, k), Get(b, k))
  }

  /** Assigning the entry for "__proto__" to a plain object leaves no property behind. */
  function Diff(a: Fields, b: Fields): ObjectChanges {
    DiffOver(Keys(a) + Keys(b), a, b)
  }

  lemma DiffOverOneMore(ks: set<Text>, a: Fields, b: Fields, k: Text)
    ensures DiffOver(ks + {k}, a, b) ==
            if k != PROTO && Differs(a, b, k) then DiffOver(ks, a, b)[k := Change(Get(a, k), Get(b, k))] else DiffOver(ks, a, b)
  {
  }

  method DiffJsonObject(a: Fields, b: Fields) returns (out: ObjectChanges)
    ensures out == Diff(a, b)
  {
    out := map[];
    var all := a + b;
    for i := 0 to |all|
      invariant out == DiffOver(Keys(all[..i]), a, b)
    {
      var k := all[i].key;
      var fv, tv := Get(a, k), Get(b, k);
      KeysSnoc(all, i);
      DiffOverOneMore(Keys(all[..i]), a, b, k);
      if TextOf(fv) != TextOf(tv) && k != PROTO {
        out := out[k := Change(fv, tv)];
      }
    }
    assert all[..|all|] == all;
    KeysConcat(a, b);
  }

  lemma KeysSnoc(fs: Fields, i: nat)
    requires i < |fs|
    ensures Keys(fs[..i + 1]) == Keys(fs[..i]) + {fs[i].key}
  {
  }

  lemma KeysConcat(a: Fields, b: Fields)
    ensures Keys(a + b) == Keys(a) + Keys(b)
  {
    forall k | k in Keys(a) ensures k in Keys(a + b) {
      var j :| 0 <= j < |a| && a[j].key == k;
      assert (a + b)[j].key == k;
    }
    forall k | k in Keys(b) ensures k in Keys(a + b) {
      var j :| 0 <= j < |b| && b[j].key == k;
      assert (a + b)[|a| + j].key == k;
    }
  }

  /** Replays recorded changes: sets every changed key to its later value, deletes those that went away. */
  function Replay(m: map<Text, Json>, d: ObjectChanges): map<Text, Json> {
    map k | k in m.Keys + d.Keys && (if k in d then d[k].after.Some? else true) ::
      if k in d then d[k].after.value else m[k]
  }

  function Undo(m: map<Text, Json>, d: ObjectChanges): map<Text, Json> {
    Replay(m, Reversed(d))
  }

  function Reversed(d: ObjectChanges): ObjectChanges {
    map k | k in d :: Change(d[k].after, d[k].before)
  }

  lemma TextDecides(a: Option<Json>, b: Option<Json>)
    requires a.Some? ==> Valid(a.value)
    requires b.Some? ==> Valid(b.value)
    ensures TextOf(a) == TextOf(b) <==> a == b
  {
    if a.Some? && b.Some? && TextOf(a) == TextOf(b) { PrintInjective(a.value, b.value); }
  }

  lemma GetIsValid(fs: Fields, k: Text)
    requires ValidFields(fs)
    ensures Get(fs, k).Some? ==> Valid(Get(fs, k).value)
  {
  }

  lemma DifferIff(a: Fields, b: Fields, k: Text)
    requires ValidFields(a) && ValidFields(b)
    ensures Differs(a, b, k) <==> Get(a, k) != Get(b, k)
  {
    GetIsValid(a, k);
    GetIsValid(b, k);
    TextDecides(Get(a, k), Get(b, k));
  }

  lemma KeyIsPresent(fs: Fields, k: Text)
    ensures k in Keys(fs) <==> Get(fs, k).Some?
  {
  }

  lemma DiffAtKey(a: Fields, b: Fields, k: Text)
    requires ValidFields(a) && ValidFields(b)
    ensures k in Diff(a, b) <==> k != PROTO && Get(a, k) != Get(b, k)
    ensures k in Diff(a, b) ==> Diff(a, b)[k] == Change(Get(a, k), Get(b, k))
  {
    DifferIff(a, b, k);
    KeyIsPresent(a, k);
    KeyIsPresent(b, k);
  }

  lemma ReplaySetsKey(m: map<Text, Json>, d: ObjectChanges, k: Text)
    ensures AtKey(Replay(m, d), k) == if k in d then d[k].after else AtKey(m, k)
    ensures AtKey(Undo(m, d), k) == if k in d then d[k].before else AtKey(m, k)
  {
  }

  /** Key by key: after replaying, every key but "__proto__" has its later value. */
  lemma ReplayAtKey(a: Fields, b: Fields, k: Text)
    requires ValidFields(a) && ValidFields(b)
    ensures AtKey(Replay(AsMap(a), Diff(a, b)), k) == if k == PROTO then Get(a, k) else Get(b, k)
    ensures AtKey(Undo(AsMap(b), Diff(a, b)), k) == if k == PROTO then Get(b, k) else Get(a, k)
  {
    DiffAtKey(a, b, k);
    AsMapIsGet(a, k);
    AsMapIsGet(b, k);
    ReplaySetsKey(AsMap(a), Diff(a, b), k);
    ReplaySetsKey(AsMap(b), Diff(a, b), k);
  }

  lemma MapsEqual(m: map<Text, Json>, n: map<Text, Json>)
    requires forall k :: AtKey(m, k) == AtKey(n, k)
    ensures m == n
  {
    assert forall k | k in m :: AtKey(m, k) == AtKey(n, k);
    assert forall k | k in n :: AtKey(m, k) == AtKey(n, k);
  }

  /** Replaying a diff gives the later object, and undoing it the earlier one, if and only if the
      two objects agree on the key "__proto__". */
  lemma DiffReplays(a: Fields, b: Fields)
    requires ValidFields(a) && ValidFields(b)
    ensures Replay(AsMap(a), Diff(a, b)) == AsMap(b) <==> Get(a, PROTO) == Get(b, PROTO)
    ensures Undo(AsMap(b), Diff(a, b)) == AsMap(a) <==> Get(a, PROTO) == Get(b, PROTO)
  {
    forall k ensures AtKey(Replay(AsMap(a), Diff(a, b)), k) == if k == PROTO then Get(a, k) else AtKey(AsMap(b), k)
             ensures AtKey(Undo(AsMap(b), Diff(a, b)), k) == if k == PROTO then Get(b, k) else AtKey(AsMap(a), k) {
      ReplayAtKey(a, b, k);
      AsMapIsGet(a, k);
      AsMapIsGet(b, k);
    }
    AsMapIsGet(a, PROTO);
    AsMapIsGet(b, PROTO);
    if Get(a, PROTO) == Get(b, PROTO) {
      MapsEqual(Replay(AsMap(a), Diff(a, b)), AsMap(b));
      MapsEqual(Undo(AsMap(b), Diff(a, b)), AsMap(a));
    }
  }
}
