/** Reading the merged timeline page by page, each page cut by the cursor of the one before. */
module TimelinePages {
  import opened Wrappers
  import opened Texts
  import opened Timeline

  datatype Page = Page(items: seq<Key>, next: Option<Key>)

  /** Items strictly older than the cursor. */
  function OlderThan(xs: seq<Key>, cursor: Key): seq<Key> {
    if xs == [] then []
    else if Newer(cursor, xs[0]) then [xs[0]] + OlderThan(xs[1..], cursor)
    else OlderThan(xs[1..], cursor)
  }

  function Remaining(xs: seq<Key>, cursor: Option<Key>): seq<Key> {
    if cursor.None? then xs else OlderThan(xs, cursor.value)
  }

  /** `slice(0, limit)` of what remains; a cursor only if the page is full. */
  function Cut(rest: seq<Key>, limit: nat): Page {
    var items := if |rest| < limit then rest else rest[..limit];
    Page(items, if |items| == limit && items != [] then Some(items[|items| - 1]) else None)
  }

  /** A fixed timeline's page behind a cursor. */
  function PageAfter(xs: seq<Key>, cursor: Option<Key>, limit: nat): Page { Cut(Remaining(xs, cursor), limit) }

  lemma {:induction false} AllOlder(xs: seq<Key>, cursor: Key)
    requires forall i | 0 <= i < |xs| :: Newer(cursor, xs[i])
    ensures OlderThan(xs, cursor) == xs
  {
    if xs != [] {
      assert [xs[0]] + xs[1..] == xs;
      AllOlder(xs[1..], cursor);
    }
  }

  /** What remains behind any cursor is a tail of the timeline. */
  lemma {:induction false} RemainingIsTail(xs: seq<Key>, cursor: Key)
    requires Descending(xs)
    ensures |OlderThan(xs, cursor)| <= |xs|
    ensures OlderThan(xs, cursor) == xs[|xs| - |OlderThan(xs, cursor)|..]
    ensures forall i | 0 <= i < |xs| :: Newer(cursor, xs[i]) <==> i >= |xs| - |OlderThan(xs, cursor)|
  {
    if xs != [] {
      if Newer(cursor, xs[0]) {
        forall i | 0 <= i < |xs| ensures Newer(cursor, xs[i]) {
          if i > 0 { NewerTransitive(cursor, xs[0], xs[i]); }
        }
        AllOlder(xs, cursor);
      } else {
        RemainingIsTail(xs[1..], cursor);
        var n := |OlderThan(xs[1..], cursor)|;
        assert xs[1..][|xs| - 1 - n..] == xs[|xs| - n..];
        forall i | 0 <= i < |xs| ensures Newer(cursor, xs[i]) <==> i >= |xs| - n {
          if i > 0 { assert xs[i] == xs[1..][i - 1]; }
        }
      }
    }
  }

  lemma BehindItem(xs: seq<Key>, j: nat)
    requires Descending(xs) && j < |xs|
    ensures OlderThan(xs, xs[j]) == xs[j + 1..]
  {
    var n := |OlderThan(xs, xs[j])|;
    RemainingIsTail(xs, xs[j]);
    NewerIrreflexive(xs[j]);
    if j + 1 < |xs| { assert Newer(xs[j], xs[j + 1]); }
  }

  /** After a full page, exactly that page is gone from what remained. */
  lemma NextPageFollows(xs: seq<Key>, cursor: Option<Key>, limit: nat)
    requires Descending(xs) && limit > 0 && PageAfter(xs, cursor, limit).next.Some?
    ensures |Remaining(xs, cursor)| >= limit
    ensures Remaining(xs, PageAfter(xs, cursor, limit).next) == Remaining(xs, cursor)[limit..]
  {
    var rest := Remaining(xs, cursor);
    if cursor.Some? { RemainingIsTail(xs, cursor.value); }
    var at := |xs| - |rest| + limit - 1;
    assert rest == xs[|xs| - |rest|..];
    assert rest[limit - 1] == xs[at];
    BehindItem(xs, at);
  }

  /** All pages read by following `nextCursor` until there is none. */
  function Walk(xs: seq<Key>, cursor: Option<Key>, limit: nat): seq<seq<Key>>
    requires Descending(xs) && limit > 0
    decreases |Remaining(xs, cursor)|
  {
    var page := PageAfter(xs, cursor, limit);
    if page.next.None? then [page.items]
    else
      NextPageFollows(xs, cursor, limit);
      [page.items] + Walk(xs, page.next, limit)
  }

  function Joined(pages: seq<seq<Key>>): seq<Key> {
    if pages == [] then [] else pages[0] + Joined(pages[1..])
  }

  lemma JoinedCons(items: seq<Key>, more: seq<seq<Key>>)
    ensures Joined([items] + more) == items + Joined(more)
  {
  }

  lemma FirstAndRest(rest: seq<Key>, limit: nat)
    requires limit <= |rest|
    ensures rest == rest[..limit] + rest[limit..]
  {
  }

  lemma {:induction false} WalkJoins(xs: seq<Key>, cursor: Option<Key>, limit: nat)
    requires Descending(xs) && limit > 0
    ensures Joined(Walk(xs, cursor, limit)) == Remaining(xs, cursor)
    decreases |Remaining(xs, cursor)|
  {
    var page, rest := PageAfter(xs, cursor, limit), Remaining(xs, cursor);
    if page.next.Some? {
      NextPageFollows(xs, cursor, limit);
      WalkJoins(xs, page.next, limit);
      JoinedCons(page.items, Walk(xs, page.next, limit));
      FirstAndRest(rest, limit);
    } else {
      JoinedCons(page.items, []);
      assert [page.items] + [] == [page.items];
    }
  }

  lemma {:induction false} WalkCounts(xs: seq<Key>, cursor: Option<Key>, limit: nat)
    requires Descending(xs) && limit > 0
    ensures (|Walk(xs, cursor, limit)| - 1) * limit <= |Remaining(xs, cursor)| < |Walk(xs, cursor, limit)| * limit
    decreases |Remaining(xs, cursor)|
  {
    var page := PageAfter(xs, cursor, limit);
    if page.next.Some? {
      NextPageFollows(xs, cursor, limit);
      WalkCounts(xs, page.next, limit);
      OneMorePage(|Remaining(xs, cursor)|, |Walk(xs, page.next, limit)|, limit);
    }
  }

  /** From any cursor, the pages concatenate to exactly what remained, after one request per full page and
      a last one. */
  lemma WalkReadsTheRest(xs: seq<Key>, cursor: Option<Key>, limit: nat)
    requires Descending(xs) && limit > 0
    ensures Joined(Walk(xs, cursor, limit)) == Remaining(xs, cursor)
    ensures (|Walk(xs, cursor, limit)| - 1) * limit <= |Remaining(xs, cursor)| < |Walk(xs, cursor, limit)| * limit
  {
    WalkJoins(xs, cursor, limit);
    WalkCounts(xs, cursor, limit);
  }

  lemma OneMorePage(n: int, pages: nat, limit: nat)
    requires (pages - 1) * limit <= n - limit < pages * limit
    ensures pages * limit <= n < (pages + 1) * limit
  {
  }

  /** `getTransactionTimeline` on fixed tables. */
  function FetchPage(t: Tables, types: set<Source>, limit: nat, cursor: Option<Key>): Page {
    PageAfter(Merged(t, types, PerSource(limit)), cursor, limit)
  }

  /** Following the cursor from the first page terminates, and the pages concatenate to the sorted timeline of
      the capped sources: no item lost, repeated or out of order, whatever the total. That is the deal's
      whole timeline if and only if no selected source has more rows than its cap. */
  lemma WalkReadsTheTimeline(t: Tables, types: set<Source>, limit: nat)
    requires TablesOk(t) && limit > 0
    ensures var merged := Merged(t, types, PerSource(limit));
            && Descending(merged)
            && Joined(Walk(merged, None, limit)) == merged
            && (|Walk(merged, None, limit)| - 1) * limit <= |merged| < |Walk(merged, None, limit)| * limit
            && (Joined(Walk(merged, None, limit)) == Whole(t, types) <==> FitsCaps(t, types, PerSource(limit)))
  {
    var merged := Merged(t, types, PerSource(limit));
    MergedIsPart(t, types, PerSource(limit));
    WalkReadsTheRest(merged, None, limit);
    CappedIsWholeIff(t, types, PerSource(limit));
  }

  lemma ShorterPrefix(xs: seq<Key>, ys: seq<Key>, big: nat, m: nat)
    requires m <= big <= |xs| && big <= |ys| && xs[..big] == ys[..big]
    ensures xs[..m] == ys[..m]
  {
    assert xs[..m] == xs[..big][..m] && ys[..m] == ys[..big][..m];
  }

  lemma MergedIsNoLonger(t: Tables, types: set<Source>, n: nat)
    requires TablesOk(t)
    ensures |Merged(t, types, n)| <= |Whole(t, types)|
  {
    MergedIsPart(t, types, n);
    WholeDescends(t, types);
    DescendingIsDistinct(Merged(t, types, n));
    DescendingIsDistinct(Whole(t, types));
    ElemsCount(Merged(t, types, n));
    ElemsCount(Whole(t, types));
    SubsetIsSmaller(Elems(Merged(t, types, n)), Elems(Whole(t, types)));
  }

  lemma SameCut(xs: seq<Key>, ys: seq<Key>, limit: nat)
    requires |ys| <= |xs|
    requires var m := if limit < |xs| then limit else |xs|; m <= |ys| && xs[..m] == ys[..m]
    ensures Cut(ys, limit) == Cut(xs, limit)
  {
    if |xs| <= limit { assert xs[..|xs|] == xs && ys[..|ys|] == ys; }
  }

  /** For the limits the route accepts the first page is exact, whatever the amount of data. */
  lemma FirstPageIsExact(t: Tables, types: set<Source>, limit: nat)
    requires TablesOk(t) && 1 <= limit <= 200
    ensures limit <= PerSource(limit)
    ensures FetchPage(t, types, limit, None) == Cut(Whole(t, types), limit)
  {
    var n := PerSource(limit);
    var whole, merged := Whole(t, types), Merged(t, types, n);
    CapsAreExact(t, types, n);
    MergedIsNoLonger(t, types, n);
    ShorterPrefix(whole, merged, if n < |whole| then n else |whole|, if limit < |whole| then limit else |whole|);
    SameCut(whole, merged, limit);
  }

  /** For the limits of up to 50 the first four pages are exact too, and a fifth need not be: of one source the walk
      shows its first rows, four times the limit at most, and 200 at most whatever the limit. */
  lemma FourPagesAreExact(t: Tables, types: set<Source>, limit: nat)
    requires TablesOk(t) && 1 <= limit <= 50
    ensures var m := if 4 * limit < |Whole(t, types)| then 4 * limit else |Whole(t, types)|;
            m <= |Merged(t, types, PerSource(limit))| && Merged(t, types, PerSource(limit))[..m] == Whole(t, types)[..m]
  {
    CapsAreExact(t, types, PerSource(limit));
  }

  lemma OneSourceIsCut(t: Tables, s: Source, limit: nat)
    requires TablesOk(t) && limit >= 1
    ensures |Merged(t, {s}, PerSource(limit))| ==
            if |Rows(t, s)| < 200 && |Rows(t, s)| < 4 * limit then |Rows(t, s)| else if 4 * limit < 200 then 4 * limit else 200
  {
    var n := PerSource(limit);
    var pool := Pool(Capped(t, n), {s});
    assert pool == Top(Rows(t, s), n);
    SortLength(pool);
    SortLength(Rows(t, s));
  }

  // ----- What a reader sees -----

  /** The items run backwards, all of them behind the cursor, and are rows of the selected sources. */
  predicate RunsBackwards(t: Tables, types: set<Source>, items: seq<Key>, cursor: Option<Key>) {
    && (forall i, j | 0 <= i < j < |items| :: GoesBefore(items[i], items[j]))
    && (forall i | 0 <= i < |items| :: cursor.Some? ==> GoesBefore(cursor.value, items[i]))
    && (forall i | 0 <= i < |items| :: items[i].source in types && items[i] in Rows(t, items[i].source))
  }

  lemma TailRunsBackwards(t: Tables, types: set<Source>, n: nat, from: nat, to: nat, cursor: Option<Key>)
    requires TablesOk(t) && from <= to <= |Merged(t, types, n)|
    requires cursor.Some? ==> forall i | from <= i < |Merged(t, types, n)| :: Newer(cursor.value, Merged(t, types, n)[i])
    ensures RunsBackwards(t, types, Merged(t, types, n)[from..to], cursor)
  {
    var xs := Merged(t, types, n);
    var items := xs[from..to];
    MergedIsPart(t, types, n);
    WholeDescends(t, types);
    forall i, j | 0 <= i < j < |items| ensures GoesBefore(items[i], items[j]) { NewerMeans(xs[from + i], xs[from + j]); }
    forall i | 0 <= i < |items|
      ensures cursor.Some? ==> GoesBefore(cursor.value, items[i])
      ensures items[i].source in types && items[i] in Rows(t, items[i].source)
    {
      if cursor.Some? { NewerMeans(cursor.value, xs[from + i]); }
      assert xs[from + i] in Elems(xs);
      InPool(t, types, items[i]);
    }
  }

  /** Where the page behind a cursor starts and ends. */
  function PageStart(xs: seq<Key>, cursor: Option<Key>): int { |xs| - |Remaining(xs, cursor)| }

  function PageEnd(xs: seq<Key>, cursor: Option<Key>, limit: nat): int {
    if |Remaining(xs, cursor)| < limit then |xs| else PageStart(xs, cursor) + limit
  }

  lemma PageIsSlice(xs: seq<Key>, cursor: Option<Key>, limit: nat)
    requires Descending(xs)
    ensures var from, to := PageStart(xs, cursor), PageEnd(xs, cursor, limit);
            && 0 <= from <= to <= |xs| && PageAfter(xs, cursor, limit).items == xs[from..to]
            && (cursor.Some? ==> forall i | from <= i < |xs| :: Newer(cursor.value, xs[i]))
  {
    if cursor.Some? { RemainingIsTail(xs, cursor.value); }
    var rest, from := Remaining(xs, cursor), PageStart(xs, cursor);
    assert rest == xs[from..];
    if |rest| >= limit { assert xs[from..][..limit] == xs[from..from + limit]; }
  }

  /** Every page runs from later to earlier: no item is later than one before it, ties go by the name of the source and
      by id, and nothing on the page is later than the cursor. */
  lemma PageRunsBackwards(t: Tables, types: set<Source>, limit: nat, cursor: Option<Key>)
    requires TablesOk(t)
    ensures RunsBackwards(t, types, FetchPage(t, types, limit, cursor).items, cursor)
  {
    var n := PerSource(limit);
    var xs := Merged(t, types, n);
    MergedIsPart(t, types, n);
    PageIsSlice(xs, cursor, limit);
    TailRunsBackwards(t, types, n, PageStart(xs, cursor), PageEnd(xs, cursor, limit), cursor);
  }

  /** So does a whole walk. */
  lemma WalkRunsBackwards(t: Tables, types: set<Source>, limit: nat)
    requires TablesOk(t) && limit > 0 && Descending(Merged(t, types, PerSource(limit)))
    ensures RunsBackwards(t, types, Joined(Walk(Merged(t, types, PerSource(limit)), None, limit)), None)
  {
    var xs := Merged(t, types, PerSource(limit));
    WalkReadsTheRest(xs, None, limit);
    TailRunsBackwards(t, types, PerSource(limit), 0, |xs|, None);
    assert xs[0..|xs|] == xs;
  }

  /** The caps cut the earliest rows: one that is cut is no later than any that is kept. */
  lemma CapsCutTheEarliest(t: Tables, s: Source, n: nat, kept: Key, lost: Key)
    requires TablesOk(t) && kept in Elems(Top(Rows(t, s), n)) && lost in Elems(Rows(t, s)) && lost !in Elems(Top(Rows(t, s), n))
    ensures GoesBefore(kept, lost)
  {
    var own, top := Sort(Rows(t, s)), Top(Rows(t, s), n);
    SortElems(Rows(t, s));
    SortDescends(Rows(t, s));
    assert forall m | 0 <= m < |top| :: top[m] == own[m] && top[m] in Elems(top);
    var i :| 0 <= i < |top| && top[i] == kept;
    var j :| 0 <= j < |own| && own[j] == lost;
    NewerMeans(kept, lost);
  }

  // ----- The service -----

  /** `parseTypes`, from the trimmed lower-case parts; absent when the parameter is blank. */
  method ParseTypes(parts: Option<seq<Text>>) returns (allowed: set<Source>)
    ensures allowed != {}
    ensures (forall s :: s in allowed <==> parts.Some? && NameOf(s) in parts.value) || allowed == ALL_SOURCES
    ensures parts.Some? && (exists s :: NameOf(s) in parts.value) ==> forall s :: s in allowed <==> NameOf(s) in parts.value
  {
    if parts.None? { return ALL_SOURCES; }
    allowed := {};
    for i := 0 to |parts.value|
      invariant forall s :: s in allowed <==> NameOf(s) in parts.value[..i]
    {
      var p := parts.value[i];
      assert parts.value[..i + 1] == parts.value[..i] + [p];
      if p == NameOf(STATE) { allowed := allowed + {STATE}; }
      if p == NameOf(AUDIT) { allowed := allowed + {AUDIT}; }
      if p == NameOf(DOCUMENT) { allowed := allowed + {DOCUMENT}; }
      if p == NameOf(PACKAGE) { allowed := allowed + {PACKAGE}; }
    }
    assert parts.value[..|parts.value|] == parts.value;
    if allowed == {} { return ALL_SOURCES; }
  }

  /** The newest rows of one source, if it is selected. */
  method PushSource(items: seq<Key>, t: Tables, types: set<Source>, s: Source, perSource: nat) returns (pushed: seq<Key>)
    ensures pushed == items + Selected(Capped(t, perSource), types, s)
  {
    pushed := items;
    if s in types {
      var rows := Top(Rows(t, s), perSource);
      for i := 0 to |rows|
        invariant pushed == items + rows[..i]
      {
        pushed := pushed + [rows[i]];
      }
    }
  }

  method PushSources(t: Tables, types: set<Source>, perSource: nat) returns (items: seq<Key>)
    ensures items == Pool(Capped(t, perSource), types)
  {
    items := PushSource([], t, types, STATE, perSource);
    items := PushSource(items, t, types, AUDIT, perSource);
    items := PushSource(items, t, types, DOCUMENT, perSource);
    items := PushSource(items, t, types, PACKAGE, perSource);
  }

  /** `t` is absent when the organization has no such deal. */
  method GetTransactionTimeline(t: Option<Tables>, types: set<Source>, limit: nat, cursor: Option<Key>) returns (page: Option<Page>)
    ensures page == if t.None? then None else Some(FetchPage(t.value, types, limit, cursor))
    ensures t.Some? && TablesOk(t.value) ==> RunsBackwards(t.value, types, page.value.items, cursor)
  {
    if t.None? { return None; }
    if TablesOk(t.value) { PageRunsBackwards(t.value, types, limit, cursor); }
    var items := PushSources(t.value, types, PerSource(limit));
    items := Sort(items);
    var filtered := items;
    if cursor.Some? { filtered := OlderThan(items, cursor.value); }
    return Some(Cut(filtered, limit));
  }
}
