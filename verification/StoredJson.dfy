/** What a JSONB column makes of an object and of a recorded diff, and what such diffs rebuild. */
module StoredJson {
  import opened Wrappers
  import opened Texts
  import opened Json
  import opened KeyOrder
  import opened Canonical
  import opened OrderedForms
  import opened ObjectDiff

  /** The object as it is read back from its column. */
  function ReadBack(fs: Fields): Fields { Normal(Stored, Obj(fs)).fields }

  function ReadBackValue(v: Option<Json>): Option<Json> {
    if v.Some? then Some(Normal(Stored, v.value)) else None
  }

  /** The object is in the order its column would give it. */
  predicate InStoredOrder(fs: Fields) { ReadBack(fs) == fs }

  lemma ReadBackIsValid(fs: Fields)
    requires ValidFields(fs)
    ensures ValidFields(ReadBack(fs))
  {
    NormalIsValid(Stored, Obj(fs));
  }

  /** Reading back twice is reading back once, and changes key order only. */
  lemma ReadBackIsStable(fs: Fields)
    requires ValidFields(fs)
    ensures InStoredOrder(ReadBack(fs))
    ensures SameUpToKeyOrder(Obj(ReadBack(fs)), Obj(fs))
  {
    NormalIsIdempotent(Stored, Obj(fs));
    NormalIsSame(Stored, Obj(fs));
  }

  lemma GetIsMember(fs: Fields, k: Text, v: Json)
    requires DistinctKeys(fs)
    ensures Get(fs, k) == Some(v) <==> Entry(k, v) in fs
  {
    if Entry(k, v) in fs {
      var i :| 0 <= i < |fs| && fs[i] == Entry(k, v);
      if Get(fs, k).Some? {
        var j :| 0 <= j < |fs| && fs[j] == Entry(k, Get(fs, k).value);
        assert i == j;
      }
    }
  }

  lemma NormalFieldIsMember(fs: Fields, k: Text, w: Json)
    ensures Entry(k, w) in NormalFields(Stored, fs) <==> exists v :: Entry(k, v) in fs && w == Normal(Stored, v)
  {
    var ns := NormalFields(Stored, fs);
    if Entry(k, w) in ns {
      var i :| 0 <= i < |ns| && ns[i] == Entry(k, w);
      assert fs[i] == Entry(k, fs[i].value) && fs[i] in fs;
    }
    if exists v :: Entry(k, v) in fs && w == Normal(Stored, v) {
      var v :| Entry(k, v) in fs && w == Normal(Stored, v);
      var i :| 0 <= i < |fs| && fs[i] == Entry(k, v);
      assert ns[i] == Entry(k, w);
    }
  }

  lemma GetReadBackSome(fs: Fields, k: Text, w: Json)
    requires ValidFields(fs)
    ensures Get(ReadBack(fs), k) == Some(w) <==> ReadBackValue(Get(fs, k)) == Some(w)
  {
    ReadBackIsValid(fs);
    GetIsMember(ReadBack(fs), k, w);
    ArrangedHasEntry(Stored, NormalFields(Stored, fs), Entry(k, w));
    NormalFieldIsMember(fs, k, w);
    if Get(fs, k).Some? { GetIsMember(fs, k, Get(fs, k).value); }
    forall v | Entry(k, v) in fs ensures Get(fs, k) == Some(v) { GetIsMember(fs, k, v); }
  }

  /** Key by key, reading back changes each value to its stored form and loses nothing. */
  lemma GetReadBack(fs: Fields, k: Text)
    requires ValidFields(fs)
    ensures Get(ReadBack(fs), k) == ReadBackValue(Get(fs, k))
  {
    if Get(ReadBack(fs), k).Some? { GetReadBackSome(fs, k, Get(ReadBack(fs), k).value); }
    if ReadBackValue(Get(fs, k)).Some? { GetReadBackSome(fs, k, ReadBackValue(Get(fs, k)).value); }
  }

  // ----- Recorded diffs are stored too -----

  function StoredChanges(d: ObjectChanges): ObjectChanges {
    map k | k in d :: Change(ReadBackValue(d[k].before), ReadBackValue(d[k].after))
  }

  lemma StoredReplayAtKey(a: Fields, b: Fields, k: Text)
    requires ValidFields(a) && ValidFields(b) && InStoredOrder(a)
    ensures var d := StoredChanges(Diff(a, b));
            && AtKey(Replay(AsMap(a), d), k) == (if k == PROTO then Get(a, k) else Get(ReadBack(b), k))
            && AtKey(Undo(AsMap(ReadBack(b)), d), k) == (if k == PROTO then Get(ReadBack(b), k) else Get(a, k))
  {
    var d := StoredChanges(Diff(a, b));
    DiffAtKey(a, b, k);
    GetReadBack(a, k);
    GetReadBack(b, k);
    AsMapIsGet(a, k);
    AsMapIsGet(ReadBack(b), k);
    ReplaySetsKey(AsMap(a), d, k);
    ReplaySetsKey(AsMap(ReadBack(b)), d, k);
  }

  /** The stored diff takes the earlier stored object to the later one, and back, if and only if the two agree on
      the key "__proto__". */
  lemma StoredDiffReplays(a: Fields, b: Fields)
    requires ValidFields(a) && ValidFields(b) && InStoredOrder(a)
    ensures var d := StoredChanges(Diff(a, b));
            && (Replay(AsMap(a), d) == AsMap(ReadBack(b)) <==> Get(a, PROTO) == Get(ReadBack(b), PROTO))
            && (Undo(AsMap(ReadBack(b)), d) == AsMap(a) <==> Get(a, PROTO) == Get(ReadBack(b), PROTO))
  {
    var d := StoredChanges(Diff(a, b));
    forall k ensures AtKey(Replay(AsMap(a), d), k) == if k == PROTO then Get(a, k) else AtKey(AsMap(ReadBack(b)), k)
             ensures AtKey(Undo(AsMap(ReadBack(b)), d), k) == if k == PROTO then Get(ReadBack(b), k) else AtKey(AsMap(a), k) {
      StoredReplayAtKey(a, b, k);
      AsMapIsGet(a, k);
      AsMapIsGet(ReadBack(b), k);
    }
    AsMapIsGet(a, PROTO);
    AsMapIsGet(ReadBack(b), PROTO);
    if Get(a, PROTO) == Get(ReadBack(b), PROTO) {
      MapsEqual(Replay(AsMap(a), d), AsMap(ReadBack(b)));
      MapsEqual(Undo(AsMap(ReadBack(b)), d), AsMap(a));
    }
  }

  // ----- When the order stays -----

  /** An object is read back as it was sent if and only if its keys are in the column's order at every depth. */
  lemma InStoredOrderIff(fs: Fields)
    requires ValidFields(fs)
    ensures InStoredOrder(fs) <==> OrderedEverywhere(Stored, Obj(fs))
  {
    StaysExactlyWhenOrdered(Stored, Obj(fs));
  }

  // ----- An object that comes back in another order -----

  const BB: Text := [98, 98]
  const A: Text := [97]

  /** {"bb": null, "a": null} */
  const UNORDERED: Fields := [Entry(BB, Null), Entry(A, Null)]

  lemma ShorterKeyFirst()
    ensures !Before(ByReadBack, BB, A)
  {
    assert Utf8(A) == [97] by { assert A[1..] == []; }
    assert Utf8(BB) == [98, 98] by { assert BB[1..][1..] == [] && Utf8(BB[1..]) == [98]; }
    assert !IsArrayIndex(A) && !IsArrayIndex(BB);
  }

  /** The column gives "a" before "bb". */
  lemma UnorderedIsReordered()
    ensures ValidFields(UNORDERED) && !InStoredOrder(UNORDERED)
  {
    assert UNORDERED[0].key == BB && UNORDERED[1].key == A;
    assert ValidFields(UNORDERED);
    ShorterKeyFirst();
    assert !Sorted(ByReadBack, UNORDERED);
    InStoredOrderIff(UNORDERED);
  }
}
