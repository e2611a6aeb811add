/** The merged timeline of a deal: four capped sources, sorted newest first and read page by page. */
module Timeline {
  import opened Texts

  // ----- Sort keys -----

  datatype Source = STATE | AUDIT | DOCUMENT | PACKAGE

  const ALL_SOURCES := {STATE, AUDIT, DOCUMENT, PACKAGE}

  /** What an item is sorted and identified by. The rest of its row rides along. */
  datatype Key = Key(at: int, source: Source, id: Text)

  /** The order of the names "audit", "document", "package", "state". */
  function Rank(s: Source): nat {
    match s
    case AUDIT => 0
    case DOCUMENT => 1
    case PACKAGE => 2
    case STATE => 3
  }

  /** `sortKey(a)` is greater than `sortKey(b)`. */
  predicate Newer(a: Key, b: Key) {
    || a.at > b.at
    || (a.at == b.at && Rank(a.source) > Rank(b.source))
    || (a.at == b.at && a.source == b.source && Less(b.id, a.id))
  }

  /** The names of the sources. */
  function NameOf(s: Source): Text {
    match s
    case STATE => Units("state")
    case AUDIT => Units("audit")
    case DOCUMENT => Units("document")
    case PACKAGE => Units("package")
  }

  /** `a` stands before `b`: it is later; or as late, and its source's name comes later; or so does its id. */
  predicate GoesBefore(a: Key, b: Key) {
    && a.at >= b.at
    && (a.at == b.at ==> Less(NameOf(b.source), NameOf(a.source)) || (a.source == b.source && Less(b.id, a.id)))
  }

  lemma NamesInOrder(a: Source, b: Source)
    ensures Less(NameOf(a), NameOf(b)) <==> Rank(a) < Rank(b)
    ensures a != b ==> NameOf(a)[0] != NameOf(b)[0]
  {
    assert NameOf(AUDIT)[0] == 97 && NameOf(DOCUMENT)[0] == 100 && NameOf(PACKAGE)[0] == 112 && NameOf(STATE)[0] == 115;
    if a == b { LessIrreflexive(NameOf(a)); }
  }

  lemma NewerMeans(a: Key, b: Key)
    ensures Newer(a, b) <==> GoesBefore(a, b)
  {
    NamesInOrder(b.source, a.source);
  }

  lemma NewerIrreflexive(a: Key)
    ensures !Newer(a, a)
  {
    LessIrreflexive(a.id);
  }

  lemma NewerTransitive(a: Key, b: Key, c: Key)
    requires Newer(a, b) && Newer(b, c)
    ensures Newer(a, c)
  {
    if a.at == b.at == c.at && a.source == b.source == c.source { LessTransitive(c.id, b.id, a.id); }
  }

  lemma NewerTotal(a: Key, b: Key)
    ensures Newer(a, b) || a == b || Newer(b, a)
  {
    LessTotal(a.id, b.id);
  }

  // ----- Sorting -----

  predicate Descending(xs: seq<Key>) {
    forall i, j | 0 <= i < j < |xs| :: Newer(xs[i], xs[j])
  }

  predicate Distinct(xs: seq<Key>) {
    forall i, j | 0 <= i < j < |xs| :: xs[i] != xs[j]
  }

  function Elems(xs: seq<Key>): set<Key> { set i | 0 <= i < |xs| :: xs[i] }

  function Insert(k: Key, xs: seq<Key>): seq<Key> {
    if xs == [] || Newer(k, xs[0]) then [k] + xs else [xs[0]] + Insert(k, xs[1..])
  }

  /** `items.sort(cmpDesc)`. */
  function Sort(xs: seq<Key>): seq<Key> {
    if xs == [] then [] else Insert(xs[0], Sort(xs[1..]))
  }

  lemma ElemsCons(x: Key, xs: seq<Key>)
    ensures Elems([x] + xs) == {x} + Elems(xs)
  {
    var more := [x] + xs;
    assert more[0] == x;
    assert forall i | 0 <= i < |xs| :: more[i + 1] == xs[i];
    forall k | k in Elems(xs) ensures k in Elems(more) {
      var i :| 0 <= i < |xs| && xs[i] == k;
      assert more[i + 1] == k;
    }
    assert more[0] in Elems(more);
  }

  lemma {:induction false} InsertElems(k: Key, xs: seq<Key>)
    ensures Elems(Insert(k, xs)) == {k} + Elems(xs)
  {
    ElemsCons(k, xs);
    if xs != [] && !Newer(k, xs[0]) {
      assert [xs[0]] + xs[1..] == xs;
      InsertElems(k, xs[1..]);
      ElemsCons(xs[0], Insert(k, xs[1..]));
      ElemsCons(xs[0], xs[1..]);
    }
  }

  lemma {:induction false} SortElems(xs: seq<Key>)
    ensures Elems(Sort(xs)) == Elems(xs)
  {
    if xs != [] {
      assert [xs[0]] + xs[1..] == xs;
      SortElems(xs[1..]);
      InsertElems(xs[0], Sort(xs[1..]));
      ElemsCons(xs[0], xs[1..]);
    }
  }

  lemma DescendingCons(x: Key, xs: seq<Key>)
    requires Descending(xs) && forall k | k in Elems(xs) :: Newer(x, k)
    ensures Descending([x] + xs)
  {
  }

  lemma TailDescends(xs: seq<Key>)
    requires Descending(xs) && xs != []
    ensures Descending(xs[1..]) && forall k | k in Elems(xs[1..]) :: Newer(xs[0], k)
  {
    forall i, j | 0 <= i < j < |xs| - 1 ensures Newer(xs[1..][i], xs[1..][j]) {
      assert xs[1..][i] == xs[i + 1] && xs[1..][j] == xs[j + 1];
    }
    forall k | k in Elems(xs[1..]) ensures Newer(xs[0], k) {
      var i :| 0 <= i < |xs| - 1 && xs[1..][i] == k;
      assert xs[i + 1] == k;
    }
  }

  lemma {:induction false} InsertDescending(k: Key, xs: seq<Key>)
    requires Descending(xs) && k !in Elems(xs)
    ensures Descending(Insert(k, xs))
  {
    if xs == [] {
    } else if Newer(k, xs[0]) {
      forall x | x in Elems(xs) ensures Newer(k, x) {
        var i :| 0 <= i < |xs| && xs[i] == x;
        if i > 0 { NewerTransitive(k, xs[0], x); }
      }
      DescendingCons(k, xs);
    } else {
      assert [xs[0]] + xs[1..] == xs;
      ElemsCons(xs[0], xs[1..]);
      NewerTotal(k, xs[0]);
      assert xs[0] in Elems(xs);
      TailDescends(xs);
      InsertDescending(k, xs[1..]);
      InsertElems(k, xs[1..]);
      DescendingCons(xs[0], Insert(k, xs[1..]));
    }
  }

  lemma {:induction false} SortDescends(xs: seq<Key>)
    requires Distinct(xs)
    ensures Descending(Sort(xs))
  {
    if xs != [] {
      SortDescends(xs[1..]);
      SortElems(xs[1..]);
      InsertDescending(xs[0], Sort(xs[1..]));
    }
  }

  lemma {:induction false} SortLength(xs: seq<Key>)
    ensures |Sort(xs)| == |xs|
  {
    if xs != [] {
      SortLength(xs[1..]);
      InsertLength(xs[0], Sort(xs[1..]));
    }
  }

  lemma {:induction false} InsertLength(k: Key, xs: seq<Key>)
    ensures |Insert(k, xs)| == |xs| + 1
  {
    if xs != [] && !Newer(k, xs[0]) { InsertLength(k, xs[1..]); }
  }

  lemma DescendingIsDistinct(xs: seq<Key>)
    requires Descending(xs)
    ensures Distinct(xs)
  {
    forall i, j | 0 <= i < j < |xs| ensures xs[i] != xs[j] { NewerIrreflexive(xs[i]); }
  }

  lemma {:induction false} ElemsCount(xs: seq<Key>)
    requires Distinct(xs)
    ensures |Elems(xs)| == |xs|
  {
    if xs != [] {
      assert [xs[0]] + xs[1..] == xs;
      ElemsCons(xs[0], xs[1..]);
      ElemsCount(xs[1..]);
    }
  }

  /** The sorted list of a set is unique, position by position: `ys` lists some elements of `xs`, among them
      the first `m`; then it starts with those `m`. */
  lemma {:induction false} SamePrefix(xs: seq<Key>, ys: seq<Key>, m: nat)
    requires Descending(xs) && Descending(ys) && Elems(ys) <= Elems(xs)
    requires m <= |xs| && Elems(xs[..m]) <= Elems(ys)
    ensures m <= |ys| && ys[..m] == xs[..m]
  {
    if m > 0 {
      forall k | k in Elems(xs[..m - 1]) ensures k in Elems(ys) {
        var i :| 0 <= i < m - 1 && xs[..m - 1][i] == k;
        assert xs[..m][i] == k;
      }
      SamePrefix(xs, ys, m - 1);
      assert xs[..m][m - 1] == xs[m - 1] && xs[..m][m - 1] in Elems(ys);
      var i :| 0 <= i < |ys| && ys[i] == xs[m - 1];
      NextIsSame(xs, ys, m - 1, i);
      assert xs[..m] == xs[..m - 1] + [xs[m - 1]] && ys[..m] == ys[..m - 1] + [ys[m - 1]];
    }
  }

  lemma NextIsSame(xs: seq<Key>, ys: seq<Key>, j: nat, i: nat)
    requires Descending(xs) && Descending(ys) && Elems(ys) <= Elems(xs)
    requires j < |xs| && j <= |ys| && ys[..j] == xs[..j] && i < |ys| && ys[i] == xs[j]
    ensures i == j
  {
    DescendingIsDistinct(xs);
    DescendingIsDistinct(ys);
    forall l | 0 <= l < j ensures xs[l] == ys[l] { assert ys[..j][l] == xs[..j][l]; }
    if i > j {
      assert ys[j] in Elems(ys);
      var l :| 0 <= l < |xs| && xs[l] == ys[j];
      if l > j {
        NewerTransitive(ys[j], xs[j], xs[l]);
        NewerIrreflexive(ys[j]);
      }
    }
  }

  lemma SameElemsSameList(xs: seq<Key>, ys: seq<Key>)
    requires Descending(xs) && Descending(ys) && Elems(xs) == Elems(ys)
    ensures xs == ys
  {
    assert xs[..|xs|] == xs && ys[..|ys|] == ys;
    SamePrefix(xs, ys, |xs|);
    SamePrefix(ys, xs, |ys|);
  }

  // ----- Sources -----

  /** The rows of a deal in the four tables. */
  datatype Tables = Tables(state: seq<Key>, audit: seq<Key>, document: seq<Key>, package: seq<Key>)

  function Rows(t: Tables, s: Source): seq<Key> {
    match s
    case STATE => t.state
    case AUDIT => t.audit
    case DOCUMENT => t.document
    case PACKAGE => t.package
  }

  /** Ids are unique in each table. */
  predicate TableOk(t: Tables, s: Source) {
    Distinct(Rows(t, s)) && forall i | 0 <= i < |Rows(t, s)| :: Rows(t, s)[i].source == s
  }

  predicate TablesOk(t: Tables) {
    TableOk(t, STATE) && TableOk(t, AUDIT) && TableOk(t, DOCUMENT) && TableOk(t, PACKAGE)
  }

  /** `orderBy createdAt desc, id desc` with `take: n`. */
  function Top(rows: seq<Key>, n: nat): seq<Key> {
    if n < |Sort(rows)| then Sort(rows)[..n] else Sort(rows)
  }

  function Capped(t: Tables, n: nat): Tables {
    Tables(Top(t.state, n), Top(t.audit, n), Top(t.document, n), Top(t.package, n))
  }

  function Selected(t: Tables, types: set<Source>, s: Source): seq<Key> {
    if s in types then Rows(t, s) else []
  }

  /** The items as they are pushed, source by source. */
  function Pool(t: Tables, types: set<Source>): seq<Key> {
    Selected(t, types, STATE) + Selected(t, types, AUDIT) + Selected(t, types, DOCUMENT) + Selected(t, types, PACKAGE)
  }

  lemma InConcat(k: Key, a: seq<Key>, b: seq<Key>)
    ensures k in Elems(a + b) <==> k in Elems(a) || k in Elems(b)
  {
    if k in Elems(a + b) {
      var i :| 0 <= i < |a + b| && (a + b)[i] == k;
      if i < |a| { assert a[i] == k; } else { assert b[i - |a|] == k; }
    }
    if k in Elems(a) {
      var i :| 0 <= i < |a| && a[i] == k;
      assert (a + b)[i] == k;
    }
    if k in Elems(b) {
      var i :| 0 <= i < |b| && b[i] == k;
      assert (a + b)[|a| + i] == k;
    }
  }

  lemma SelectedSource(t: Tables, types: set<Source>, s: Source, k: Key)
    requires TableOk(t, s) && k in Elems(Selected(t, types, s))
    ensures k.source == s
  {
  }

  /** A key is in the pool when it is in the table its source names, and that source is selected. */
  lemma InPool(t: Tables, types: set<Source>, k: Key)
    requires TablesOk(t)
    ensures k in Elems(Pool(t, types)) <==> k.source in types && k in Elems(Rows(t, k.source))
  {
    var s, a, d, p := Selected(t, types, STATE), Selected(t, types, AUDIT), Selected(t, types, DOCUMENT), Selected(t, types, PACKAGE);
    InConcat(k, s + a + d, p);
    InConcat(k, s + a, d);
    InConcat(k, s, a);
    if k in Elems(s) { SelectedSource(t, types, STATE, k); }
    if k in Elems(a) { SelectedSource(t, types, AUDIT, k); }
    if k in Elems(d) { SelectedSource(t, types, DOCUMENT, k); }
    if k in Elems(p) { SelectedSource(t, types, PACKAGE, k); }
  }

  lemma PoolIsDistinct(t: Tables, types: set<Source>)
    requires TablesOk(t)
    ensures Distinct(Pool(t, types))
  {
  }

  lemma TopIsOk(rows: seq<Key>, n: nat, k: Key)
    requires Distinct(rows)
    ensures Distinct(Top(rows, n)) && Descending(Top(rows, n))
    ensures k in Elems(Top(rows, n)) ==> k in Elems(rows)
    ensures |Top(rows, n)| == if |rows| < n then |rows| else n
  {
    SortDescends(rows);
    SortElems(rows);
    SortLength(rows);
    DescendingIsDistinct(Top(rows, n));
    if k in Elems(Top(rows, n)) {
      var i :| 0 <= i < |Top(rows, n)| && Top(rows, n)[i] == k;
      assert Sort(rows)[i] == k;
    }
  }

  lemma CappedTableOk(t: Tables, n: nat, s: Source)
    requires TableOk(t, s)
    ensures TableOk(Capped(t, n), s)
  {
    var top := Top(Rows(t, s), n);
    assert Rows(Capped(t, n), s) == top;
    forall i | 0 <= i < |top| ensures top[i].source == s {
      TopIsOk(Rows(t, s), n, top[i]);
      assert top[i] in Elems(top);
      var j :| 0 <= j < |Rows(t, s)| && Rows(t, s)[j] == top[i];
    }
    if top == [] { assert Distinct(top); } else { TopIsOk(Rows(t, s), n, top[0]); }
  }

  lemma CappedIsOk(t: Tables, n: nat)
    requires TablesOk(t)
    ensures TablesOk(Capped(t, n))
  {
    CappedTableOk(t, n, STATE);
    CappedTableOk(t, n, AUDIT);
    CappedTableOk(t, n, DOCUMENT);
    CappedTableOk(t, n, PACKAGE);
  }

  // ----- The caps -----

  /** `Math.min(200, Math.max(limit * 4, limit))`. */
  function PerSource(limit: nat): nat {
    var wanted := if limit * 4 > limit then limit * 4 else limit;
    if wanted < 200 then wanted else 200
  }

  /** The whole timeline, and the part of it the capped sources hold. */
  function Whole(t: Tables, types: set<Source>): seq<Key> { Sort(Pool(t, types)) }

  function Merged(t: Tables, types: set<Source>, n: nat): seq<Key> { Whole(Capped(t, n), types) }

  lemma WholeDescends(t: Tables, types: set<Source>)
    requires TablesOk(t)
    ensures Descending(Whole(t, types)) && Elems(Whole(t, types)) == Elems(Pool(t, types))
  {
    PoolIsDistinct(t, types);
    SortDescends(Pool(t, types));
    SortElems(Pool(t, types));
  }

  lemma MergedIsPart(t: Tables, types: set<Source>, n: nat)
    requires TablesOk(t)
    ensures Descending(Merged(t, types, n)) && Elems(Merged(t, types, n)) <= Elems(Whole(t, types))
  {
    CappedIsOk(t, n);
    WholeDescends(t, types);
    WholeDescends(Capped(t, n), types);
    forall k | k in Elems(Merged(t, types, n)) ensures k in Elems(Whole(t, types)) {
      InPool(t, types, k);
      InPool(Capped(t, n), types, k);
      TopIsOk(Rows(t, k.source), n, k);
    }
  }

  /** Item `j` of the whole timeline is among the first `j + 1` rows of its own source. */
  lemma RankInSource(t: Tables, types: set<Source>, j: nat, i: nat)
    requires TablesOk(t) && j < |Whole(t, types)|
    requires var k := Whole(t, types)[j]; i < |Sort(Rows(t, k.source))| && Sort(Rows(t, k.source))[i] == k
    ensures i <= j
  {
    var whole := Whole(t, types);
    var k := whole[j];
    var own := Sort(Rows(t, k.source));
    WholeDescends(t, types);
    TopIsOk(Rows(t, k.source), i, k);
    SortElems(Rows(t, k.source));
    SortDescends(Rows(t, k.source));
    assert k in Elems(whole);
    InPool(t, types, k);
    forall x | x in Elems(own[..i]) ensures x in Elems(whole[..j]) {
      var a :| 0 <= a < i && own[..i][a] == x;
      assert own[a] == x && own[a] in Elems(own);
      EarlierInWhole(t, types, j, x);
    }
    DescendingIsDistinct(own[..i]);
    DescendingIsDistinct(whole[..j]);
    ElemsCount(own[..i]);
    ElemsCount(whole[..j]);
    SubsetIsSmaller(Elems(own[..i]), Elems(whole[..j]));
  }

  lemma EarlierInWhole(t: Tables, types: set<Source>, j: nat, x: Key)
    requires TablesOk(t) && j < |Whole(t, types)|
    requires var k := Whole(t, types)[j]; k.source in types && x in Elems(Rows(t, k.source)) && Newer(x, k)
    ensures x in Elems(Whole(t, types)[..j])
  {
    var whole := Whole(t, types);
    var rows := Rows(t, whole[j].source);
    var r :| 0 <= r < |rows| && rows[r] == x;
    WholeDescends(t, types);
    InPool(t, types, x);
    var b :| 0 <= b < |whole| && whole[b] == x;
    if b >= j {
      if b > j { NewerTransitive(x, whole[j], x); }
      NewerIrreflexive(x);
    }
    assert whole[..j][b] == x;
  }

  lemma SubsetIsSmaller(a: set<Key>, b: set<Key>)
    requires a <= b
    ensures |a| <= |b|
  {
    assert b == a + (b - a);
  }

  /** Keeping only the newest `n` rows of each source leaves the first `n` items of the timeline unchanged,
      whatever the amount of data. */
  lemma CapsAreExact(t: Tables, types: set<Source>, n: nat)
    requires TablesOk(t)
    ensures var m := if n < |Whole(t, types)| then n else |Whole(t, types)|;
            m <= |Merged(t, types, n)| && Merged(t, types, n)[..m] == Whole(t, types)[..m]
  {
    var whole := Whole(t, types);
    var m := if n < |whole| then n else |whole|;
    MergedIsPart(t, types, n);
    WholeDescends(t, types);
    forall k | k in Elems(whole[..m]) ensures k in Elems(Merged(t, types, n)) {
      var j :| 0 <= j < m && whole[..m][j] == k;
      KeptByCap(t, types, n, j);
    }
    SamePrefix(whole, Merged(t, types, n), m);
  }

  lemma KeptByCap(t: Tables, types: set<Source>, n: nat, j: nat)
    requires TablesOk(t) && j < |Whole(t, types)| && j < n
    ensures Whole(t, types)[j] in Elems(Merged(t, types, n))
  {
    var k := Whole(t, types)[j];
    assert k in Elems(Whole(t, types));
    WholeDescends(t, types);
    InPool(t, types, k);
    SortElems(Rows(t, k.source));
    var own := Sort(Rows(t, k.source));
    var i :| 0 <= i < |own| && own[i] == k;
    RankInSource(t, types, j, i);
    assert Top(Rows(t, k.source), n)[i] == k;
    CappedIsOk(t, n);
    InPool(Capped(t, n), types, k);
    WholeDescends(Capped(t, n), types);
  }

  /** No selected source has more than `n` rows. */
  predicate FitsCaps(t: Tables, types: set<Source>, n: nat) {
    forall s | s in types :: |Rows(t, s)| <= n
  }

  lemma CappedRowsWhenFit(t: Tables, types: set<Source>, n: nat, k: Key)
    requires TablesOk(t) && FitsCaps(t, types, n) && k.source in types
    ensures k in Elems(Rows(Capped(t, n), k.source)) <==> k in Elems(Rows(t, k.source))
  {
    SortLength(Rows(t, k.source));
    SortElems(Rows(t, k.source));
  }

  lemma CutRowIsMissing(t: Tables, types: set<Source>, n: nat, s: Source)
    requires TablesOk(t) && s in types && |Rows(t, s)| > n
    ensures exists k :: k in Elems(Whole(t, types)) && k !in Elems(Merged(t, types, n))
  {
    var own := Sort(Rows(t, s));
    SortLength(Rows(t, s));
    SortElems(Rows(t, s));
    SortDescends(Rows(t, s));
    DescendingIsDistinct(own);
    var k := own[n];
    assert k in Elems(own);
    var r :| 0 <= r < |Rows(t, s)| && Rows(t, s)[r] == k;
    CappedIsOk(t, n);
    WholeDescends(t, types);
    WholeDescends(Capped(t, n), types);
    InPool(t, types, k);
    InPool(Capped(t, n), types, k);
    forall i | 0 <= i < n ensures Top(Rows(t, s), n)[i] != k { assert Top(Rows(t, s), n)[i] == own[i]; }
  }

  /** The capped timeline is the whole one if and only if no selected source has more rows than its cap. */
  lemma CappedIsWholeIff(t: Tables, types: set<Source>, n: nat)
    requires TablesOk(t)
    ensures Merged(t, types, n) == Whole(t, types) <==> FitsCaps(t, types, n)
  {
    if FitsCaps(t, types, n) {
      CappedIsOk(t, n);
      WholeDescends(t, types);
      WholeDescends(Capped(t, n), types);
      forall k ensures k in Elems(Whole(t, types)) <==> k in Elems(Merged(t, types, n)) {
        InPool(t, types, k);
        InPool(Capped(t, n), types, k);
        if k.source in types { CappedRowsWhenFit(t, types, n, k); }
      }
      SameElemsSameList(Whole(t, types), Merged(t, types, n));
    } else {
      var s :| s in types && |Rows(t, s)| > n;
      CutRowIsMissing(t, types, n, s);
    }
  }
}
