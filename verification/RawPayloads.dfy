/** Audit payloads that are not plain JSON: the hash is taken of what `stableStringify` makes of undefined and of
    Dates, the row keeps what `JSON.stringify` makes of them. */
module RawPayloads {
  import opened Wrappers
  import opened Texts
  import opened Json
  import opened JsonText
  import opened KeyOrder
  import opened ObjectDiff
  import opened Canonical
  import opened AuditChain
  import opened AuditLog

  /** A plain tree, undefined, a Date with its ISO text, or an array or object of such. */
  datatype Raw = Value(v: Json) | Undefined | Date(iso: Text) | List(items: seq<Raw>) | Record(fields: seq<Entry<Raw>>)

  predicate ValidRaw(r: Raw) {
    match r
    case Value(v) => Valid(v)
    case List(items) => forall i | 0 <= i < |items| :: ValidRaw(items[i])
    case Record(fields) => DistinctKeys(fields) && forall i | 0 <= i < |fields| :: ValidRaw(fields[i].value)
    case _ => true
  }

  /** No undefined and no Date, at any depth. */
  predicate IsPlain(r: Raw) {
    match r
    case Value(_) => true
    case List(items) => forall i | 0 <= i < |items| :: IsPlain(items[i])
    case Record(fields) => forall i | 0 <= i < |fields| :: IsPlain(fields[i].value)
    case _ => false
  }

  // ----- What is hashed -----

  /** "undefined" */
  const UNDEFINED_TEXT: Text := [117, 110, 100, 101, 102, 105, 110, 101, 100]

  /** `stableStringify`: a Date has no keys of its own, and undefined has no text, which a member prints as a word
      and an array leaves out. */
  function HashedText(r: Raw): Text
    decreases r, 1
  {
    match r
    case Value(v) => StableStringify(v)
    case Undefined => UNDEFINED_TEXT
    case Date(_) => [123, 125]
    case List(items) => [91] + Join(ItemTexts(items)) + [93]
    case Record(fields) => [123] + JoinMembers(Sort(ByCodeUnits, MemberTexts(fields))) + [125]
  }

  function ItemTexts(items: seq<Raw>): (ts: seq<Text>)
    ensures |ts| == |items|
    ensures forall i | 0 <= i < |items| :: ts[i] == if items[i].Undefined? then [] else HashedText(items[i])
    decreases items, 0
  {
    if items == [] then [] else [if items[0].Undefined? then [] else HashedText(items[0])] + ItemTexts(items[1..])
  }

  function MemberTexts(fields: seq<Entry<Raw>>): (ts: seq<Entry<Text>>)
    ensures |ts| == |fields|
    ensures forall i | 0 <= i < |fields| :: ts[i] == Entry(fields[i].key, HashedText(fields[i].value))
    decreases fields, 0
  {
    if fields == [] then [] else [Entry(fields[0].key, HashedText(fields[0].value))] + MemberTexts(fields[1..])
  }

  function Join(ts: seq<Text>): Text {
    if ts == [] then [] else if |ts| == 1 then ts[0] else ts[0] + [44] + Join(ts[1..])
  }

  // ----- What is kept -----

  /** What `JSON.stringify` writes: a Date as its text, no member that is undefined, null for an undefined item. */
  function Kept(r: Raw): Json
    decreases r, 1
  {
    match r
    case Value(v) => v
    case Undefined => Null
    case Date(iso) => Str(iso)
    case List(items) => Arr(KeptItems(items))
    case Record(fields) => Obj(KeptFields(fields))
  }

  function KeptItems(items: seq<Raw>): (r: seq<Json>)
    ensures |r| == |items|
    ensures forall i | 0 <= i < |items| :: r[i] == Kept(items[i])
    decreases items, 0
  {
    if items == [] then [] else [Kept(items[0])] + KeptItems(items[1..])
  }

  function KeptFields(fields: seq<Entry<Raw>>): (r: seq<Entry<Json>>)
    ensures (forall i | 0 <= i < |fields| :: !fields[i].value.Undefined?) ==>
              |r| == |fields| && forall i | 0 <= i < |fields| :: r[i] == Entry(fields[i].key, Kept(fields[i].value))
    decreases fields, 0
  {
    if fields == [] then []
    else
      var more := KeptFields(fields[1..]);
      if fields[0].value.Undefined? then more else [Entry(fields[0].key, Kept(fields[0].value))] + more
  }

  predicate HasKey(fields: seq<Entry<Raw>>, k: Text) {
    exists i :: 0 <= i < |fields| && fields[i].key == k
  }

  lemma {:induction false} KeptHasKeys(fields: seq<Entry<Raw>>, e: Entry<Json>)
    requires e in KeptFields(fields)
    ensures HasKey(fields, e.key)
  {
    if e in KeptFields(fields[1..]) {
      KeptHasKeys(fields[1..], e);
      var i :| 0 <= i < |fields[1..]| && fields[1..][i].key == e.key;
      assert fields[i + 1].key == e.key;
    } else {
      assert fields[0].key == e.key;
    }
  }

  lemma {:induction false} KeptIsValid(r: Raw)
    requires ValidRaw(r)
    ensures Valid(Kept(r))
    decreases r, 1
  {
    match r {
      case List(items) =>
        forall i | 0 <= i < |items| ensures Valid(KeptItems(items)[i]) { KeptIsValid(items[i]); }
      case Record(fields) => KeptFieldsAreValid(fields);
      case _ =>
    }
  }

  lemma {:induction false} KeptFieldsAreValid(fields: seq<Entry<Raw>>)
    requires DistinctKeys(fields) && forall i | 0 <= i < |fields| :: ValidRaw(fields[i].value)
    ensures Valid(Obj(KeptFields(fields)))
    decreases fields, 0
  {
    if fields != [] {
      KeptIsValid(fields[0].value);
      KeptFieldsAreValid(fields[1..]);
      var more := KeptFields(fields[1..]);
      forall j | 0 <= j < |more| ensures more[j].key != fields[0].key {
        KeptHasKeys(fields[1..], more[j]);
        var i :| 0 <= i < |fields[1..]| && fields[1..][i].key == more[j].key;
        assert fields[i + 1].key == more[j].key;
      }
    }
  }

  // ----- What a reader of the hashed text sees -----

  /** The plain tree with the same text, if there is one: a Date looks like an empty object, and so does a lone
      undefined item like no item. */
  function Seen(r: Raw): Option<Json>
    decreases r, 1
  {
    match r
    case Value(v) => Some(v)
    case Undefined => None
    case Date(_) => Some(Obj([]))
    case List(items) =>
      if items == [Undefined] then Some(Arr([]))
      else
        var js := SeenItems(items);
        if js.Some? then Some(Arr(js.value)) else None
    case Record(fields) =>
      var js := SeenFields(fields);
      if js.Some? then Some(Obj(js.value)) else None
  }

  function SeenItems(items: seq<Raw>): (r: Option<seq<Json>>)
    ensures r.Some? ==> |r.value| == |items| && forall i | 0 <= i < |items| :: Seen(items[i]) == Some(r.value[i])
    ensures r.None? ==> exists i :: 0 <= i < |items| && Seen(items[i]).None?
    decreases items, 0
  {
    if items == [] then Some([])
    else
      var first, more := Seen(items[0]), SeenItems(items[1..]);
      assert more.None? ==> exists i :: 0 <= i < |items| && Seen(items[i]).None? by {
        if more.None? {
          var i :| 0 <= i < |items[1..]| && Seen(items[1..][i]).None?;
          assert Seen(items[i + 1]).None?;
        }
      }
      if first.Some? && more.Some? then Some([first.value] + more.value) else None
  }

  function SeenFields(fields: seq<Entry<Raw>>): (r: Option<seq<Entry<Json>>>)
    ensures r.Some? ==> |r.value| == |fields| && forall i | 0 <= i < |fields| ::
              r.value[i].key == fields[i].key && Seen(fields[i].value) == Some(r.value[i].value)
    ensures r.None? ==> exists i :: 0 <= i < |fields| && Seen(fields[i].value).None?
    decreases fields, 0
  {
    if fields == [] then Some([])
    else
      var first, more := Seen(fields[0].value), SeenFields(fields[1..]);
      assert more.None? ==> exists i :: 0 <= i < |fields| && Seen(fields[i].value).None? by {
        if more.None? {
          var i :| 0 <= i < |fields[1..]| && Seen(fields[1..][i].value).None?;
          assert Seen(fields[i + 1].value).None?;
        }
      }
      if first.Some? && more.Some? then Some([Entry(fields[0].key, first.value)] + more.value) else None
  }

  lemma {:induction false} SeenIsHashed(r: Raw)
    requires ValidRaw(r) && Seen(r).Some?
    ensures Valid(Seen(r).value) && HashedText(r) == StableStringify(Seen(r).value)
    decreases r, 1
  {
    match r {
      case List(items) =>
        if items == [Undefined] {
          assert ItemTexts(items)[0] == [];
        } else {
          var js := SeenItems(items).value;
          forall i | 0 <= i < |items| ensures Valid(js[i]) && ItemTexts(items)[i] == StableStringify(js[i]) {
            SeenIsHashed(items[i]);
          }
          JoinIsJoinItems(ItemTexts(items), js);
        }
      case Record(fields) =>
        var js := SeenFields(fields).value;
        forall i | 0 <= i < |fields|
          ensures Valid(js[i].value) && MemberTexts(fields)[i] == Entry(js[i].key, StableStringify(js[i].value))
        {
          SeenIsHashed(fields[i].value);
        }
        MembersAreStable(MemberTexts(fields), js);
      case _ =>
    }
  }

  lemma {:induction false} JoinIsJoinItems(ts: seq<Text>, js: seq<Json>)
    requires |ts| == |js| && forall i | 0 <= i < |js| :: ts[i] == StableStringify(js[i])
    ensures Join(ts) == JoinItems(js)
  {
    if |js| > 1 { JoinIsJoinItems(ts[1..], js[1..]); }
  }

  lemma {:induction false} MembersAreStable(ts: seq<Entry<Text>>, js: seq<Entry<Json>>)
    requires |ts| == |js| && forall i | 0 <= i < |js| :: ts[i] == Entry(js[i].key, StableStringify(js[i].value))
    ensures ts == StableMembers(js)
  {
    if js != [] {
      MembersAreStable(ts[1..], js[1..]);
      assert ts == [ts[0]] + ts[1..];
    }
  }

  // ----- A plain payload is seen as it is kept, any other is not -----

  lemma {:induction false} PlainIsSeenAsKept(r: Raw)
    requires IsPlain(r)
    ensures Seen(r) == Some(Kept(r))
  {
    match r {
      case List(items) =>
        forall i | 0 <= i < |items| ensures Seen(items[i]) == Some(Kept(items[i])) { PlainIsSeenAsKept(items[i]); }
        assert items == [Undefined] ==> !IsPlain(items[0]);
        assert SeenItems(items).value == KeptItems(items);
      case Record(fields) =>
        forall i | 0 <= i < |fields| ensures Seen(fields[i].value) == Some(Kept(fields[i].value)) && !fields[i].value.Undefined? {
          PlainIsSeenAsKept(fields[i].value);
        }
        assert SeenFields(fields).value == KeptFields(fields);
      case _ =>
    }
  }

  lemma {:induction false} OthersAreNot(r: Raw)
    requires ValidRaw(r) && Seen(r).Some? && !IsPlain(r)
    ensures !SameUpToKeyOrder(Seen(r).value, Kept(r))
    decreases r, 1
  {
    match r {
      case List(items) => if items != [Undefined] { ItemsAreNot(items); }
      case Record(fields) => FieldsAreNot(fields);
      case Date(_) =>
    }
  }

  lemma {:induction false} ItemsAreNot(items: seq<Raw>)
    requires SeenItems(items).Some? && forall i | 0 <= i < |items| :: ValidRaw(items[i])
    requires exists i :: 0 <= i < |items| && !IsPlain(items[i])
    ensures !SameUpToKeyOrder(Arr(SeenItems(items).value), Arr(KeptItems(items)))
    decreases items, 0
  {
    var i :| 0 <= i < |items| && !IsPlain(items[i]);
    OthersAreNot(items[i]);
    NoOtherItem(SeenItems(items).value, KeptItems(items), i);
  }

  lemma {:induction false} FieldsAreNot(fields: seq<Entry<Raw>>)
    requires SeenFields(fields).Some? && DistinctKeys(fields) && forall i | 0 <= i < |fields| :: ValidRaw(fields[i].value)
    requires exists i :: 0 <= i < |fields| && !IsPlain(fields[i].value)
    ensures !SameUpToKeyOrder(Obj(SeenFields(fields).value), Obj(KeptFields(fields)))
    decreases fields, 0
  {
    var i :| 0 <= i < |fields| && !IsPlain(fields[i].value);
    OthersAreNot(fields[i].value);
    SeenAreKept(fields);
    NoOtherMember(SeenFields(fields).value, KeptFields(fields), i);
    NotSameWithout(SeenFields(fields).value, KeptFields(fields), i);
  }

  lemma NoOtherItem(js: seq<Json>, ks: seq<Json>, i: nat)
    requires |js| == |ks| && i < |js| && !SameUpToKeyOrder(js[i], ks[i])
    ensures !SameUpToKeyOrder(Arr(js), Arr(ks))
  {
  }

  /** Of an object that a reader sees, every member is kept. */
  lemma SeenAreKept(fields: seq<Entry<Raw>>)
    requires SeenFields(fields).Some?
    ensures var js, ks := SeenFields(fields).value, KeptFields(fields);
            && |js| == |ks| == |fields|
            && forall k | 0 <= k < |fields| :: js[k].key == ks[k].key == fields[k].key && ks[k].value == Kept(fields[k].value)
  {
    forall k | 0 <= k < |fields| ensures !fields[k].value.Undefined? { SeenIsDefined(fields, k); }
  }

  lemma SeenIsDefined(fields: seq<Entry<Raw>>, k: nat)
    requires SeenFields(fields).Some? && k < |fields|
    ensures !fields[k].value.Undefined?
  {
    assert Seen(fields[k].value) == Some(SeenFields(fields).value[k].value);
  }

  lemma NoOtherMember(js: seq<Entry<Json>>, ks: seq<Entry<Json>>, i: nat)
    requires |js| == |ks| && i < |js| && DistinctKeys(ks) && forall k | 0 <= k < |js| :: js[k].key == ks[k].key
    requires !SameUpToKeyOrder(js[i].value, ks[i].value)
    ensures !HasMember(js[i], ks)
  {
  }

  lemma NotSameWithout(js: seq<Entry<Json>>, ks: seq<Entry<Json>>, i: nat)
    requires i < |js| && !HasMember(js[i], ks)
    ensures !SameUpToKeyOrder(Obj(js), Obj(ks))
  {
  }

  // ----- A text that stops a reader -----

  /** What may follow a value inside a printed tree, or at its end. */
  predicate Closes(rest: Text) { rest == [] || rest[0] == 44 || rest[0] == 93 || rest[0] == 125 }

  ghost predicate ReadsAs(t: Text, v: Json) {
    forall rest | Closes(rest) :: Read(t + rest) == Ok(v, rest)
  }

  ghost predicate Readable(t: Text) { exists v :: ReadsAs(t, v) }

  ghost predicate Unreadable(t: Text) {
    forall rest | Closes(rest) :: Read(t + rest).Fail?
  }

  lemma StableIsReadable(v: Json)
    requires Valid(v)
    ensures Readable(StableStringify(v)) && StableStringify(v) != [] && StableStringify(v)[0] != 93
  {
    var n := Normal(Listed, v);
    StableIsPrintOfSorted(v);
    NormalIsValid(Listed, v);
    PrintStarts(n);
    forall rest | Closes(rest) ensures Read(StableStringify(v) + rest) == Ok(n, rest) { ReadPrint(n, rest); }
    assert ReadsAs(StableStringify(v), n);
  }

  lemma NothingIsUnreadable()
    ensures Unreadable([])
  {
    forall rest | Closes(rest) ensures Read([] + rest).Fail? { assert [] + rest == rest; }
  }

  lemma UndefinedIsUnreadable()
    ensures Unreadable(UNDEFINED_TEXT)
  {
    forall rest | Closes(rest) ensures Read(UNDEFINED_TEXT + rest).Fail? {
      assert (UNDEFINED_TEXT + rest)[0] == 117;
    }
  }

  ghost predicate SomeUnreadable(ts: seq<Text>) {
    (forall t | t in ts :: Readable(t) || Unreadable(t)) && exists t | t in ts :: Unreadable(t)
  }

  lemma HeadItemStops(t: Text, tail: Text)
    requires Unreadable(t) && Closes(tail)
    ensures ReadItems(t + tail).Fail?
  {
  }

  lemma HeadItemPasses(t: Text, more: Text)
    requires Readable(t) && ReadItems(more).Fail?
    ensures ReadItems(t + ([44] + more)).Fail?
  {
    var v :| ReadsAs(t, v);
    var tail := [44] + more;
    assert Closes(tail) && tail[1..] == more;
    assert Read(t + tail) == Ok(v, tail);
  }

  lemma FirstItemDecides(t: Text, more: Text)
    requires Unreadable(t) || (Readable(t) && ReadItems(more).Fail?)
    ensures ReadItems(t + ([44] + more)).Fail?
  {
    if Unreadable(t) { HeadItemStops(t, [44] + more); } else { HeadItemPasses(t, more); }
  }

  lemma OtherItemIsUnreadable(ts: seq<Text>)
    requires SomeUnreadable(ts) && !Unreadable(ts[0])
    ensures SomeUnreadable(ts[1..])
  {
    assert ts == [ts[0]] + ts[1..];
    var u :| u in ts && Unreadable(u);
    assert u in ts[1..];
  }

  lemma JoinedItems(ts: seq<Text>, tail: Text)
    requires ts != []
    ensures Join(ts) + tail == if |ts| == 1 then ts[0] + tail else ts[0] + ([44] + (Join(ts[1..]) + tail))
  {
    CommaRegroup(ts[0], Join(ts[1..]), tail);
  }

  lemma CommaRegroup(first: Text, more: Text, tail: Text)
    ensures first + [44] + more + tail == first + ([44] + (more + tail))
  {
  }

  /** Reading stops at the first text that is no value. */
  lemma {:induction false} ItemsStop(ts: seq<Text>, rest: Text)
    requires SomeUnreadable(ts)
    ensures ReadItems(Join(ts) + ([93] + rest)).Fail?
    decreases |ts|
  {
    JoinedItems(ts, [93] + rest);
    if |ts| == 1 {
      HeadItemStops(ts[0], [93] + rest);
    } else {
      if !Unreadable(ts[0]) {
        OtherItemIsUnreadable(ts);
        ItemsStop(ts[1..], rest);
      }
      FirstItemDecides(ts[0], Join(ts[1..]) + ([93] + rest));
    }
  }

  ghost predicate SomeMemberUnreadable(ms: seq<Entry<Text>>) {
    (forall m | m in ms :: Readable(m.value) || Unreadable(m.value)) && exists m | m in ms :: Unreadable(m.value)
  }

  lemma HeadMemberStops(m: Entry<Text>, tail: Text)
    requires Unreadable(m.value) && Closes(tail)
    ensures ReadFields(Quote(m.key) + [58] + (m.value + tail)).Fail?
  {
    ReadQuotedKey(m.key, m.value + tail);
  }

  lemma HeadMemberPasses(m: Entry<Text>, more: Text)
    requires Readable(m.value) && ReadFields(more).Fail?
    ensures ReadFields(Quote(m.key) + [58] + (m.value + ([44] + more))).Fail?
  {
    var v :| ReadsAs(m.value, v);
    var tail := [44] + more;
    ReadQuotedKey(m.key, m.value + tail);
    assert Closes(tail) && tail[1..] == more;
    assert Read(m.value + tail) == Ok(v, tail);
  }

  lemma FirstMemberDecides(m: Entry<Text>, more: Text)
    requires Unreadable(m.value) || (Readable(m.value) && ReadFields(more).Fail?)
    ensures ReadFields(Quote(m.key) + [58] + m.value + ([44] + more)).Fail?
  {
    MemberRegroup(Quote(m.key), m.value, [44] + more);
    if Unreadable(m.value) { HeadMemberStops(m, [44] + more); } else { HeadMemberPasses(m, more); }
  }

  lemma RestIsUnreadable(ms: seq<Entry<Text>>)
    requires SomeMemberUnreadable(ms) && !Unreadable(ms[0].value)
    ensures SomeMemberUnreadable(ms[1..])
  {
    assert ms == [ms[0]] + ms[1..];
    var u :| u in ms && Unreadable(u.value);
    assert u in ms[1..];
  }

  lemma JoinedMembers(ms: seq<Entry<Text>>, tail: Text)
    requires ms != []
    ensures var first := Quote(ms[0].key) + [58] + ms[0].value;
            JoinMembers(ms) + tail == if |ms| == 1 then first + tail else first + ([44] + (JoinMembers(ms[1..]) + tail))
  {
    CommaRegroup(Quote(ms[0].key) + [58] + ms[0].value, JoinMembers(ms[1..]), tail);
  }

  lemma {:induction false} MembersStop(ms: seq<Entry<Text>>, rest: Text)
    requires SomeMemberUnreadable(ms)
    ensures ReadFields(JoinMembers(ms) + ([125] + rest)).Fail?
    decreases |ms|
  {
    JoinedMembers(ms, [125] + rest);
    if |ms| == 1 {
      MemberRegroup(Quote(ms[0].key), ms[0].value, [125] + rest);
      HeadMemberStops(ms[0], [125] + rest);
    } else {
      if !Unreadable(ms[0].value) {
        RestIsUnreadable(ms);
        MembersStop(ms[1..], rest);
      }
      FirstMemberDecides(ms[0], JoinMembers(ms[1..]) + ([125] + rest));
    }
  }

  lemma MemberRegroup(k: Text, v: Text, tail: Text)
    ensures k + [58] + v + tail == k + [58] + (v + tail)
  {
  }

  lemma ArrayFails(inner: Text, rest: Text)
    requires inner != [] && inner[0] != 93 && ReadItems(inner + ([93] + rest)).Fail?
    ensures Read([91] + inner + [93] + rest).Fail?
  {
    Opened(91, inner, [93], rest);
    OpenArrayFails([91] + inner + [93] + rest);
  }

  lemma Opened(c: CodeUnit, inner: Text, close: Text, rest: Text)
    requires inner != []
    ensures var t := [c] + inner + close + rest; |t| > 1 && t[0] == c && t[1] == inner[0] && t[1..] == inner + (close + rest)
  {
  }

  lemma OpenArrayFails(t: Text)
    requires |t| > 1 && t[0] == 91 && t[1] != 93 && ReadItems(t[1..]).Fail?
    ensures Read(t).Fail?
  {
  }

  lemma OpenObjectFails(t: Text)
    requires |t| > 1 && t[0] == 123 && t[1] != 125 && ReadFields(t[1..]).Fail?
    ensures Read(t).Fail?
  {
  }

  lemma ObjectFails(inner: Text, rest: Text)
    requires inner != [] && inner[0] != 125 && ReadFields(inner + ([125] + rest)).Fail?
    ensures Read([123] + inner + [125] + rest).Fail?
  {
    Opened(123, inner, [125], rest);
    OpenObjectFails([123] + inner + [125] + rest);
  }

  lemma ArrayStops(ts: seq<Text>)
    requires SomeUnreadable(ts) && Join(ts) != [] && Join(ts)[0] != 93
    ensures Unreadable([91] + Join(ts) + [93])
  {
    forall rest | Closes(rest) ensures Read([91] + Join(ts) + [93] + rest).Fail? {
      ItemsStop(ts, rest);
      ArrayFails(Join(ts), rest);
    }
  }

  lemma ObjectStops(ms: seq<Entry<Text>>)
    requires SomeMemberUnreadable(ms)
    ensures Unreadable([123] + JoinMembers(ms) + [125])
  {
    assert JoinMembers(ms) != [] && JoinMembers(ms)[0] == 34;
    forall rest | Closes(rest) ensures Read([123] + JoinMembers(ms) + [125] + rest).Fail? {
      MembersStop(ms, rest);
      ObjectFails(JoinMembers(ms), rest);
    }
  }

  lemma JoinStarts(ts: seq<Text>)
    requires |ts| > 1 || (|ts| == 1 && ts[0] != [])
    requires forall t | t in ts :: t != [] ==> t[0] != 93
    ensures Join(ts) != [] && Join(ts)[0] != 93
  {
    assert ts[0] in ts;
  }

  /** A payload that no plain tree prints like prints a text that stops a reader. */
  lemma {:induction false} UnseenIsUnreadable(r: Raw)
    requires ValidRaw(r) && !r.Undefined?
    ensures HashedText(r) != [] && HashedText(r)[0] != 93
    ensures if Seen(r).Some? then Readable(HashedText(r)) else Unreadable(HashedText(r))
    decreases r, 1
  {
    if Seen(r).Some? {
      SeenIsHashed(r);
      StableIsReadable(Seen(r).value);
    } else if r.List? {
      ItemsAreUnreadable(r.items);
      ArrayStops(ItemTexts(r.items));
    } else {
      MembersAreUnreadable(r.fields);
      ObjectStops(Sort(ByCodeUnits, MemberTexts(r.fields)));
    }
  }

  lemma {:induction false} ItemsAreUnreadable(items: seq<Raw>)
    requires SeenItems(items).None? && items != [Undefined] && forall i | 0 <= i < |items| :: ValidRaw(items[i])
    ensures var ts := ItemTexts(items); SomeUnreadable(ts) && Join(ts) != [] && Join(ts)[0] != 93
    decreases items, 0
  {
    var ts := ItemTexts(items);
    NothingIsUnreadable();
    forall t | t in ts
      ensures (Readable(t) || Unreadable(t)) && (t != [] ==> t[0] != 93)
    {
      var i :| 0 <= i < |ts| && ts[i] == t;
      if !items[i].Undefined? { UnseenIsUnreadable(items[i]); }
    }
    var i :| 0 <= i < |items| && Seen(items[i]).None?;
    if !items[i].Undefined? { UnseenIsUnreadable(items[i]); }
    assert ts[i] in ts && Unreadable(ts[i]);
    if |ts| == 1 { UnseenIsUnreadable(items[0]); }
    JoinStarts(ts);
  }

  lemma {:induction false} MembersAreUnreadable(fields: seq<Entry<Raw>>)
    requires SeenFields(fields).None? && forall i | 0 <= i < |fields| :: ValidRaw(fields[i].value)
    ensures SomeMemberUnreadable(Sort(ByCodeUnits, MemberTexts(fields)))
    decreases fields, 0
  {
    var ms := MemberTexts(fields);
    var sorted := Sort(ByCodeUnits, ms);
    UndefinedIsUnreadable();
    forall m | m in sorted ensures Readable(m.value) || Unreadable(m.value) {
      SortHasEntry(ByCodeUnits, ms, m);
      var i :| 0 <= i < |ms| && ms[i] == m;
      if !fields[i].value.Undefined? { UnseenIsUnreadable(fields[i].value); }
    }
    var i :| 0 <= i < |fields| && Seen(fields[i].value).None?;
    if !fields[i].value.Undefined? { UnseenIsUnreadable(fields[i].value); }
    assert ms[i] in ms && Unreadable(ms[i].value);
    SortHasEntry(ByCodeUnits, ms, ms[i]);
  }

  /** The text that is hashed is the text of what is kept if and only if there is no undefined and no Date. */
  lemma HashCoversExactlyPlain(r: Raw)
    requires ValidRaw(r)
    ensures HashedText(r) == StableStringify(Kept(r)) <==> IsPlain(r)
  {
    KeptIsValid(r);
    if IsPlain(r) {
      PlainIsSeenAsKept(r);
      SeenIsHashed(r);
    } else if Seen(r).Some? {
      SeenIsHashed(r);
      OthersAreNot(r);
      StableDecides(Seen(r).value, Kept(r));
    } else {
      UnseenDiffers(r);
    }
  }

  lemma UnseenDiffers(r: Raw)
    requires ValidRaw(r) && Seen(r).None?
    ensures HashedText(r) != StableStringify(Kept(r))
  {
    KeptIsValid(r);
    StableIsReadable(Kept(r));
    if r.Undefined? { UndefinedIsUnreadable(); } else { UnseenIsUnreadable(r); }
    var v :| ReadsAs(StableStringify(Kept(r)), v);
    assert Read(StableStringify(Kept(r)) + []) == Ok(v, []);
    assert Read(HashedText(r) + []).Fail?;
  }

  // ----- Rows of such payloads -----

  /** The arguments of `recordAudit`, with three columns as the caller passes them. `rest` holds the others. */
  datatype RawInput = RawInput(rest: Input, payload: Option<Raw>, deltaBefore: Option<Raw>, deltaAfter: Option<Raw>)

  /** An argument that is undefined is an absent one. */
  predicate ValidArgument(o: Option<Raw>) { o.Some? ==> ValidRaw(o.value) && !o.value.Undefined? }

  predicate ValidRawInput(r: RawInput) {
    ValidArgument(r.payload) && ValidArgument(r.deltaBefore) && ValidArgument(r.deltaAfter)
  }

  predicate PlainArgument(o: Option<Raw>) { o.Some? ==> IsPlain(o.value) }

  predicate PlainInput(r: RawInput) {
    PlainArgument(r.payload) && PlainArgument(r.deltaBefore) && PlainArgument(r.deltaAfter)
  }

  function KeptArgument(o: Option<Raw>): Option<Json> { if o.Some? then Some(Kept(o.value)) else None }

  /** The same arguments with what is kept of the three. */
  function KeptInput(r: RawInput): Input {
    r.rest.(payload := KeptArgument(r.payload), deltaBefore := KeptArgument(r.deltaBefore), deltaAfter := KeptArgument(r.deltaAfter))
  }

  /** `value ?? fallback`. */
  function RawOr(o: Option<Raw>, fallback: Json): Raw {
    if o.Some? && o.value != Value(Null) then o.value else Value(fallback)
  }

  /** Places 11 to 13 hold the payload and the deltas, the others what every event has there. */
  function RawMember(r: RawInput, i: nat): Entry<Raw>
    requires i < 16
  {
    if i == 11 then Entry(KEYS[i], RawOr(r.payload, Obj([])))
    else if i == 12 then Entry(KEYS[i], RawOr(r.deltaBefore, Null))
    else if i == 13 then Entry(KEYS[i], RawOr(r.deltaAfter, Null))
    else Entry(KEYS[i], Value(BlobOfInput(KeptInput(r)).fields[i].value))
  }

  function RawBlob(r: RawInput): Raw {
    Record(seq(16, i requires 0 <= i < 16 => RawMember(r, i)))
  }

  lemma KeptMember(r: RawInput, i: nat)
    requires ValidRawInput(r) && i < 16
    ensures var m, b := RawMember(r, i), BlobOfInput(KeptInput(r)).fields[i];
            !m.value.Undefined? && m.key == b.key && Kept(m.value) == b.value
  {
  }

  lemma KeptWhole(fields: seq<Entry<Raw>>, bs: seq<Entry<Json>>)
    requires |fields| == |bs| && forall i | 0 <= i < |bs| ::
               !fields[i].value.Undefined? && fields[i].key == bs[i].key && Kept(fields[i].value) == bs[i].value
    ensures Kept(Record(fields)) == Obj(bs)
  {
    var ks := KeptFields(fields);
    assert forall i | 0 <= i < |bs| :: ks[i] == Entry(fields[i].key, Kept(fields[i].value));
    assert ks == bs;
  }

  lemma BlobIsKept(r: RawInput)
    requires ValidRawInput(r)
    ensures Kept(RawBlob(r)) == BlobOfInput(KeptInput(r))
  {
    var fields, bs := RawBlob(r).fields, BlobOfInput(KeptInput(r)).fields;
    forall i | 0 <= i < 16
      ensures !fields[i].value.Undefined? && fields[i].key == bs[i].key && Kept(fields[i].value) == bs[i].value
    {
      KeptMember(r, i);
    }
    KeptWhole(fields, bs);
  }

  lemma KeptInputIsValid(r: RawInput)
    requires ValidRawInput(r)
    ensures ValidInput(KeptInput(r)) && Valid(BlobOfInput(KeptInput(r)))
  {
    if r.payload.Some? { KeptIsValid(r.payload.value); }
    if r.deltaBefore.Some? { KeptIsValid(r.deltaBefore.value); }
    if r.deltaAfter.Some? { KeptIsValid(r.deltaAfter.value); }
    StoredEventIsHashedEvent(KeptInput(r));
    BlobOfColumnsIsValid(ColumnsOfInput(KeptInput(r)));
  }

  lemma RawBlobIsValid(r: RawInput)
    requires ValidRawInput(r)
    ensures ValidRaw(RawBlob(r))
  {
    KeptInputIsValid(r);
    var fields := RawBlob(r).fields;
    forall i | 0 <= i < 16 ensures ValidRaw(fields[i].value) && fields[i].key == KEYS[i] { MemberIsValid(r, i); }
    forall i, j | 0 <= i < j < 16 ensures fields[i].key != fields[j].key { KeysDiffer(i, j); }
  }

  lemma MemberIsValid(r: RawInput, i: nat)
    requires ValidRawInput(r) && i < 16 && Valid(BlobOfInput(KeptInput(r)))
    ensures ValidRaw(RawMember(r, i).value) && RawMember(r, i).key == KEYS[i]
  {
  }

  lemma BlobIsPlainIff(r: RawInput)
    ensures IsPlain(RawBlob(r)) <==> PlainInput(r)
  {
    var fields := RawBlob(r).fields;
    assert fields[11] == RawMember(r, 11) && fields[12] == RawMember(r, 12) && fields[13] == RawMember(r, 13);
    forall i | 0 <= i < 16 ensures fields[i] == RawMember(r, i) {}
    if PlainInput(r) {
      forall i | 0 <= i < 16 ensures IsPlain(fields[i].value) {}
    }
  }

  /** The text `recordAudit` hashes for these arguments. */
  function HashedRow(env: Env, r: RawInput, tip: Option<Digest>, now: int): Text {
    PreviousText(tip) + (HashedText(RawBlob(r)) + env.iso(now))
  }

  /** The text an auditor rebuilds from the row's columns. */
  function RebuiltRow(env: Env, r: RawInput, tip: Option<Digest>, now: int): Text {
    Preimage(PreviousText(tip), BlobOfColumns(ColumnsOfInput(KeptInput(r))), env.iso(now))
  }

  function RawRow(env: Env, r: RawInput, tip: Option<Digest>, now: int): Row {
    Row(ColumnsOfInput(KeptInput(r)), tip, env.sha256(HashedRow(env, r, tip, now)), now)
  }

  lemma SameMiddle(p: Text, x: Text, y: Text, t: Text)
    ensures p + (x + t) == p + (y + t) <==> x == y
  {
    if p + (x + t) == p + (y + t) {
      assert (p + (x + t))[|p|..] == x + t && (p + (y + t))[|p|..] == y + t;
      assert |x| == |y|;
      assert (x + t)[..|x|] == x && (y + t)[..|y|] == y;
    }
  }

  /** The auditor rebuilds the hashed text if and only if the payload and the deltas hold no undefined and no Date. */
  lemma RebuiltExactlyWhenPlain(env: Env, r: RawInput, tip: Option<Digest>, now: int)
    requires ValidRawInput(r)
    ensures HashedRow(env, r, tip, now) == RebuiltRow(env, r, tip, now) <==> PlainInput(r)
  {
    StoredEventIsHashedEvent(KeptInput(r));
    BlobIsKept(r);
    RawBlobIsValid(r);
    BlobIsPlainIff(r);
    HashCoversExactlyPlain(RawBlob(r));
    SameMiddle(PreviousText(tip), HashedText(RawBlob(r)), StableStringify(Kept(RawBlob(r))), env.iso(now));
  }

  /** A row re-verifies from its stored columns if its payload and deltas hold no undefined and no Date; if they hold
      one, it does so only where two different texts have one hash. */
  lemma RowVerifiesExactlyWhenPlain(env: Env, r: RawInput, tip: Option<Digest>, now: int)
    requires ValidRawInput(r)
    ensures var hashed, rebuilt := HashedRow(env, r, tip, now), RebuiltRow(env, r, tip, now);
            Verifies(env, RawRow(env, r, tip, now)) <==>
              PlainInput(r) || (hashed != rebuilt && env.sha256(hashed) == env.sha256(rebuilt))
  {
    RebuiltExactlyWhenPlain(env, r, tip, now);
  }

  /** On plain arguments the row is the one of `NewRow`. */
  lemma PlainRowIsNewRow(env: Env, r: RawInput, tip: Option<Digest>, now: int)
    requires ValidRawInput(r) && PlainInput(r)
    ensures RawRow(env, r, tip, now) == NewRow(env, KeptInput(r), tip, now)
  {
    RebuiltExactlyWhenPlain(env, r, tip, now);
    StoredEventIsHashedEvent(KeptInput(r));
  }

  // ----- The rows of buyer patches -----

  /** A part of `diffParts`: plain, a change of date, or the changes of the keys of an object. */
  datatype DiffPart =
    | Whole(v: Json)
    | Dates(before: Option<Text>, after: Option<Text>)
    | Keys(changes: seq<Entry<Change<Option<Json>>>>)

  function RawDate(d: Option<Text>): Raw { if d.Some? then Date(d.value) else Value(Null) }

  function RawSide(v: Option<Json>): Raw { if v.Some? then Value(v.value) else Undefined }

  function FromTo(before: Raw, after: Raw): Raw {
    Record([Entry(Units("from"), before), Entry(Units("to"), after)])
  }

  function RawPart(p: DiffPart): Raw {
    match p
    case Whole(v) => Value(v)
    case Dates(before, after) => FromTo(RawDate(before), RawDate(after))
    case Keys(changes) =>
      Record(seq(|changes|, i requires 0 <= i < |changes| =>
        Entry(changes[i].key, FromTo(RawSide(changes[i].value.before), RawSide(changes[i].value.after)))))
  }

  function Plainly(es: seq<Entry<Json>>): (r: seq<Entry<Raw>>)
    ensures |r| == |es| && forall i | 0 <= i < |es| :: r[i] == Entry(es[i].key, Value(es[i].value))
  {
    seq(|es|, i requires 0 <= i < |es| => Entry(es[i].key, Value(es[i].value)))
  }

  /** The payload of a buyer patch: plain members, the diff, and the patch with its date of birth, if it gives one. */
  function BuyerPatchPayload(plain: seq<Entry<Json>>, diff: seq<Entry<DiffPart>>, dob: Option<Text>, patch: seq<Entry<Json>>): Raw {
    var parts := Record(seq(|diff|, i requires 0 <= i < |diff| => Entry(diff[i].key, RawPart(diff[i].value))));
    var sent := Record((if dob.Some? then [Entry(Units("dob"), Date(dob.value))] else []) + Plainly(patch));
    Record(Plainly(plain) + [Entry(Units("diff"), parts), Entry(Units("patch"), sent)])
  }

  /** No date on either side; no key that was added or removed. */
  predicate PlainPart(p: DiffPart) {
    match p
    case Whole(_) => true
    case Dates(before, after) => before.None? && after.None?
    case Keys(changes) => forall i | 0 <= i < |changes| :: changes[i].value.before.Some? && changes[i].value.after.Some?
  }

  lemma FromToIsPlain(before: Raw, after: Raw)
    ensures IsPlain(FromTo(before, after)) <==> IsPlain(before) && IsPlain(after)
  {
    var fields := FromTo(before, after).fields;
    assert fields[0].value == before && fields[1].value == after;
  }

  lemma PartIsPlain(p: DiffPart)
    ensures IsPlain(RawPart(p)) <==> PlainPart(p)
  {
    match p {
      case Whole(_) =>
      case Dates(before, after) => FromToIsPlain(RawDate(before), RawDate(after));
      case Keys(changes) =>
        var fields := RawPart(p).fields;
        forall i | 0 <= i < |changes|
          ensures IsPlain(fields[i].value) <==> changes[i].value.before.Some? && changes[i].value.after.Some?
        {
          FromToIsPlain(RawSide(changes[i].value.before), RawSide(changes[i].value.after));
        }
    }
  }

  lemma PlainlyAnd(es: seq<Entry<Json>>, more: seq<Entry<Raw>>)
    ensures IsPlain(Record(more + Plainly(es))) <==> IsPlain(Record(more))
    ensures IsPlain(Record(Plainly(es) + more)) <==> IsPlain(Record(more))
  {
    var before, after := more + Plainly(es), Plainly(es) + more;
    forall i | 0 <= i < |more| ensures before[i] == more[i] && after[|es| + i] == more[i] {}
  }

  lemma PayloadIsPlain(plain: seq<Entry<Json>>, diff: seq<Entry<DiffPart>>, dob: Option<Text>, patch: seq<Entry<Json>>)
    ensures IsPlain(BuyerPatchPayload(plain, diff, dob, patch)) <==>
            dob.None? && forall i | 0 <= i < |diff| :: PlainPart(diff[i].value)
  {
    var parts := seq(|diff|, i requires 0 <= i < |diff| => Entry(diff[i].key, RawPart(diff[i].value)));
    var dated: seq<Entry<Raw>> := if dob.Some? then [Entry(Units("dob"), Date(dob.value))] else [];
    var last := [Entry(Units("diff"), Record(parts)), Entry(Units("patch"), Record(dated + Plainly(patch)))];
    forall i | 0 <= i < |diff| ensures IsPlain(parts[i].value) <==> PlainPart(diff[i].value) { PartIsPlain(diff[i].value); }
    PlainlyAnd(patch, dated);
    assert dob.Some? ==> !IsPlain(dated[0].value);
    PlainlyAnd(plain, last);
    assert last[0].value == Record(parts) && last[1].value == Record(dated + Plainly(patch));
  }

  /** The row of a buyer patch re-verifies from its columns if and only if it gives no date of birth and its diff
      names neither a date nor a key that was added or removed, or two different texts have one hash. */
  lemma PatchRowVerifiesExactly(env: Env, r: RawInput, tip: Option<Digest>, now: int,
                                plain: seq<Entry<Json>>, diff: seq<Entry<DiffPart>>, dob: Option<Text>, patch: seq<Entry<Json>>)
    requires ValidRawInput(r) && r.payload == Some(BuyerPatchPayload(plain, diff, dob, patch))
    requires r.deltaBefore.None? && r.deltaAfter.None?
    ensures var hashed, rebuilt := HashedRow(env, r, tip, now), RebuiltRow(env, r, tip, now);
            Verifies(env, RawRow(env, r, tip, now)) <==>
              || (dob.None? && forall i | 0 <= i < |diff| :: PlainPart(diff[i].value))
              || (hashed != rebuilt && env.sha256(hashed) == env.sha256(rebuilt))
  {
    PayloadIsPlain(plain, diff, dob, patch);
    RowVerifiesExactlyWhenPlain(env, r, tip, now);
  }
}
