/** `recordAudit`: one row appended under an advisory lock, linked to the newest row by its hash. */
module AuditLog {
  import opened Wrappers
  import opened Texts
  import opened Json
  import opened Canonical
  import opened AuditChain

  // ----- Rows -----

  datatype Input = Input(
    orgId: Option<Text>,
    organizationId: Option<Text>,
    transactionId: Option<Text>,
    actorUserId: Option<Text>,
    actorRole: Option<Text>,
    authMethod: Option<Text>,
    eventType: Option<Text>,
    action: Text,
    entityType: Option<Text>,
    entityId: Option<Text>,
    resource: Text,
    resourceId: Option<Text>,
    payload: Option<Json>,
    deltaBefore: Option<Json>,
    deltaAfter: Option<Json>,
    ip: Option<Text>,
    userAgent: Option<Text>)

  /** The columns the hash covers, as they are stored. */
  datatype Columns = Columns(
    organizationId: Option<Text>,
    transactionId: Option<Text>,
    actorUserId: Option<Text>,
    actorRole: Option<Text>,
    authMethod: Option<Text>,
    action: Text,
    eventType: Text,
    entityType: Text,
    entityId: Option<Text>,
    resource: Text,
    resourceId: Option<Text>,
    payloadJson: Json,
    deltaBefore: Option<Json>,
    deltaAfter: Option<Json>,
    ip: Option<Text>,
    userAgent: Option<Text>)

  datatype Row = Row(columns: Columns, previousChainHash: Option<Text>, chainHash: Digest, createdAt: int)

  /** The environment: the hash function and how an instant is printed. */
  datatype Env = Env(sha256: Text -> Digest, iso: int -> Timestamp)

  function TextOrNull(t: Option<Text>): Json {
    if t.Some? then Str(t.value) else Null
  }

  /** `value ?? fallback` for a JSON value: null counts as absent. */
  function JsonOr(v: Option<Json>, fallback: Json): Json {
    if v.Some? && v.value != Null then v.value else fallback
  }

  /** `optionalJsonField`: null is stored as an absent column. */
  function OptionalJsonField(v: Option<Json>): Option<Json> {
    if v == Some(Null) then None else v
  }

  const KEYS: seq<Text> := [
    Units("organizationId"), Units("transactionId"), Units("actorUserId"), Units("actorRole"),
    Units("authMethod"), Units("action"), Units("eventType"), Units("entityType"),
    Units("entityId"), Units("resource"), Units("resourceId"), Units("payloadJson"),
    Units("deltaBefore"), Units("deltaAfter"), Units("ip"), Units("userAgent")]

  /** The event object that is hashed, from sixteen values in the order of `KEYS`. */
  function Blob(values: seq<Json>): Json
    requires |values| == 16
  {
    Obj(seq(16, i requires 0 <= i < 16 => Entry(KEYS[i], values[i])))
  }

  /** The event as `recordAudit` builds it from its arguments. */
  function BlobOfInput(input: Input): Json {
    Blob([
      TextOrNull(OrOption(input.organizationId, input.orgId)),
      TextOrNull(input.transactionId),
      TextOrNull(input.actorUserId),
      TextOrNull(input.actorRole),
      TextOrNull(input.authMethod),
      Str(input.action),
      Str(OrElse(input.eventType, input.action)),
      Str(OrElse(input.entityType, input.resource)),
      TextOrNull(OrOption(input.entityId, input.resourceId)),
      Str(input.resource),
      TextOrNull(input.resourceId),
      JsonOr(input.payload, Obj([])),
      JsonOr(input.deltaBefore, Null),
      JsonOr(input.deltaAfter, Null),
      TextOrNull(input.ip),
      TextOrNull(input.userAgent)])
  }

  /** The row's columns as `recordAudit` writes them. */
  function ColumnsOfInput(input: Input): Columns {
    Columns(
      OrOption(input.organizationId, input.orgId), input.transactionId, input.actorUserId, input.actorRole,
      input.authMethod, input.action, OrElse(input.eventType, input.action),
      OrElse(input.entityType, input.resource), OrOption(input.entityId, input.resourceId), input.resource,
      input.resourceId, JsonOr(input.payload, Obj([])), OptionalJsonField(input.deltaBefore),
      OptionalJsonField(input.deltaAfter), input.ip, input.userAgent)
  }

  function ValuesOfColumns(c: Columns): (values: seq<Json>)
    ensures |values| == 16
  {
    [ TextOrNull(c.organizationId), TextOrNull(c.transactionId), TextOrNull(c.actorUserId), TextOrNull(c.actorRole),
      TextOrNull(c.authMethod), Str(c.action), Str(c.eventType), Str(c.entityType), TextOrNull(c.entityId),
      Str(c.resource), TextOrNull(c.resourceId), c.payloadJson, OrElse(c.deltaBefore, Null),
      OrElse(c.deltaAfter, Null), TextOrNull(c.ip), TextOrNull(c.userAgent)]
  }

  /** The event rebuilt from a stored row, as an auditor would. */
  function BlobOfColumns(c: Columns): Json {
    Blob(ValuesOfColumns(c))
  }

  predicate ValidColumns(c: Columns) {
    && Valid(c.payloadJson)
    && (c.deltaBefore.Some? ==> Valid(c.deltaBefore.value))
    && (c.deltaAfter.Some? ==> Valid(c.deltaAfter.value))
  }

  predicate ValidInput(input: Input) {
    && (input.payload.Some? ==> Valid(input.payload.value))
    && (input.deltaBefore.Some? ==> Valid(input.deltaBefore.value))
    && (input.deltaAfter.Some? ==> Valid(input.deltaAfter.value))
  }

  /** What storage may do to a row: reorder keys inside its JSON columns, nothing else. */
  ghost predicate SameColumns(a: Columns, b: Columns) {
    && b == a.(payloadJson := b.payloadJson, deltaBefore := b.deltaBefore, deltaAfter := b.deltaAfter)
    && SameUpToKeyOrder(a.payloadJson, b.payloadJson)
    && SameOptional(a.deltaBefore, b.deltaBefore)
    && SameOptional(a.deltaAfter, b.deltaAfter)
  }

  ghost predicate SameOptional(a: Option<Json>, b: Option<Json>) {
    a == b || (a.Some? && b.Some? && SameUpToKeyOrder(a.value, b.value))
  }

  lemma KeysDiffer(i: nat, j: nat)
    requires i < j < 16
    ensures KEYS[i] != KEYS[j]
  {
    assert |KEYS[i]| != |KEYS[j]| || KEYS[i][0] != KEYS[j][0];
  }

  lemma BlobIsValid(values: seq<Json>)
    requires |values| == 16 && forall i | 0 <= i < 16 :: Valid(values[i])
    ensures Valid(Blob(values)) && Blob(values).Obj?
  {
    var fields := Blob(values).fields;
    forall i, j | 0 <= i < j < |fields| ensures fields[i].key != fields[j].key { KeysDiffer(i, j); }
  }

  lemma ValuesAreValid(c: Columns, i: nat)
    requires ValidColumns(c) && i < 16
    ensures Valid(ValuesOfColumns(c)[i])
  {
  }

  lemma BlobOfColumnsIsValid(c: Columns)
    requires ValidColumns(c)
    ensures Valid(BlobOfColumns(c)) && BlobOfColumns(c).Obj?
  {
    forall i | 0 <= i < 16 ensures Valid(ValuesOfColumns(c)[i]) { ValuesAreValid(c, i); }
    BlobIsValid(ValuesOfColumns(c));
  }

  /** The event that was hashed and the event rebuilt from the columns are the same. */
  lemma StoredEventIsHashedEvent(input: Input)
    ensures BlobOfColumns(ColumnsOfInput(input)) == BlobOfInput(input)
    ensures ValidInput(input) ==> ValidColumns(ColumnsOfInput(input))
  {
  }

  /** Member `i` of the event has this name and value. */
  predicate Says(input: Input, i: nat, name: Text, v: Json)
    requires i < 16
  {
    BlobOfInput(input).fields[i] == Entry(name, v)
  }

  function TextIf(t: Option<Text>): Json { if t.Some? then Str(t.value) else Null }

  /** The hashed event, name by name: who acted, and what on; */
  lemma EventSaysWho(input: Input)
    ensures Says(input, 0, Units("organizationId"), TextIf(if input.organizationId.Some? then input.organizationId else input.orgId))
    ensures Says(input, 1, Units("transactionId"), TextIf(input.transactionId))
    ensures Says(input, 2, Units("actorUserId"), TextIf(input.actorUserId))
    ensures Says(input, 3, Units("actorRole"), TextIf(input.actorRole))
    ensures Says(input, 4, Units("authMethod"), TextIf(input.authMethod))
    ensures Says(input, 5, Units("action"), Str(input.action))
  {
  }

  /** the kinds and the entity, each with the argument or what stands in for it; */
  lemma EventSaysWhat(input: Input)
    ensures Says(input, 6, Units("eventType"), Str(if input.eventType.Some? then input.eventType.value else input.action))
    ensures Says(input, 7, Units("entityType"), Str(if input.entityType.Some? then input.entityType.value else input.resource))
    ensures Says(input, 8, Units("entityId"), TextIf(if input.entityId.Some? then input.entityId else input.resourceId))
    ensures Says(input, 9, Units("resource"), Str(input.resource))
    ensures Says(input, 10, Units("resourceId"), TextIf(input.resourceId))
  {
  }

  /** the payload, the deltas and where the request came from. */
  lemma EventSaysHow(input: Input)
    ensures Says(input, 11, Units("payloadJson"), if input.payload == None || input.payload == Some(Null) then Obj([]) else input.payload.value)
    ensures Says(input, 12, Units("deltaBefore"), if input.deltaBefore.Some? then input.deltaBefore.value else Null)
    ensures Says(input, 13, Units("deltaAfter"), if input.deltaAfter.Some? then input.deltaAfter.value else Null)
    ensures Says(input, 14, Units("ip"), TextIf(input.ip))
    ensures Says(input, 15, Units("userAgent"), TextIf(input.userAgent))
  {
  }

  lemma SameValuesSameBlob(vs: seq<Json>, ws: seq<Json>)
    requires |vs| == |ws| == 16 && forall i | 0 <= i < 16 :: SameUpToKeyOrder(vs[i], ws[i])
    ensures SameUpToKeyOrder(Blob(vs), Blob(ws))
  {
    var fs, gs := Blob(vs).fields, Blob(ws).fields;
    forall i | 0 <= i < 16 ensures HasMember(fs[i], gs) && IsMember(fs, gs[i]) {
      assert SameMember(fs[i], gs[i]);
    }
  }

  lemma SameColumnsSameBlob(a: Columns, b: Columns)
    requires ValidColumns(a) && ValidColumns(b) && SameColumns(a, b)
    ensures SameUpToKeyOrder(BlobOfColumns(a), BlobOfColumns(b))
  {
    var vs, ws := ValuesOfColumns(a), ValuesOfColumns(b);
    forall i | 0 <= i < 16 ensures SameUpToKeyOrder(vs[i], ws[i]) {
      SameIsReflexive(vs[i]);
    }
    SameValuesSameBlob(vs, ws);
  }

  // ----- The chain over rows -----

  function PreviousText(previous: Option<Text>): Text {
    OrElse(previous, [])
  }

  function NewRow(env: Env, input: Input, tip: Option<Digest>, now: int): Row {
    Row(ColumnsOfInput(input), tip, ChainHash(env.sha256, PreviousText(tip), BlobOfInput(input), env.iso(now)), now)
  }

  /** The row's hash recomputed from its stored columns. */
  predicate Verifies(env: Env, r: Row) {
    r.chainHash == ChainHash(env.sha256, PreviousText(r.previousChainHash), BlobOfColumns(r.columns), env.iso(r.createdAt))
  }

  /** The result of `findFirst` ordered by `createdAt` descending. */
  ghost predicate IsNewest(rows: seq<Row>, last: Option<Row>) {
    if rows == [] then last.None?
    else last.Some? && last.value in rows && forall r | r in rows :: r.createdAt <= last.value.createdAt
  }

  function TipOf(last: Option<Row>): Option<Digest> {
    if last.Some? then Some(last.value.chainHash) else None
  }

  function LastRow(rows: seq<Row>): Option<Row> {
    if rows == [] then None else Some(rows[|rows| - 1])
  }

  /** One unforked chain in time order, every row of which verifies from its stored columns. */
  predicate GoodLog(env: Env, rows: seq<Row>) {
    InTimeOrder(rows) && Linked(rows) && AllVerify(env, rows)
  }

  /** Each row names the hash of the row before it; the first row names none. */
  predicate Linked(rows: seq<Row>) {
    forall i | 0 <= i < |rows| :: rows[i].previousChainHash == TipOf(LastRow(rows[..i]))
  }

  predicate AllVerify(env: Env, rows: seq<Row>) {
    forall i | 0 <= i < |rows| :: ValidColumns(rows[i].columns) && Verifies(env, rows[i])
  }

  predicate InTimeOrder(rows: seq<Row>) {
    forall i, j | 0 <= i < j < |rows| :: rows[i].createdAt < rows[j].createdAt
  }

  lemma NewestIsLast(rows: seq<Row>, last: Option<Row>)
    requires InTimeOrder(rows)
    ensures IsNewest(rows, last) <==> last == LastRow(rows)
  {
  }

  lemma AppendKeepsLinked(rows: seq<Row>, row: Row)
    requires Linked(rows) && row.previousChainHash == TipOf(LastRow(rows))
    ensures Linked(rows + [row])
  {
  }

  lemma AppendKeepsGood(env: Env, rows: seq<Row>, row: Row)
    requires GoodLog(env, rows)
    requires forall r | r in rows :: r.createdAt < row.createdAt
    requires row.previousChainHash == TipOf(LastRow(rows)) && ValidColumns(row.columns) && Verifies(env, row)
    ensures GoodLog(env, rows + [row])
  {
    AppendKeepsLinked(rows, row);
  }

  lemma NewRowVerifies(env: Env, input: Input, tip: Option<Digest>, now: int)
    requires ValidInput(input)
    ensures var row := NewRow(env, input, tip, now); ValidColumns(row.columns) && Verifies(env, row)
  {
  }

  /** The table as one process sees it while it holds the lock. */
  class AuditTable {
    var rows: seq<Row>

    constructor ()
      ensures rows == []
    {
      rows := [];
    }

    /** `orderBy: { createdAt: "desc" }`, first row. */
    method FindNewest() returns (last: Option<Row>)
      ensures IsNewest(rows, last)
    {
      last := None;
      for i := 0 to |rows|
        invariant IsNewest(rows[..i], last)
      {
        assert rows[..i + 1] == rows[..i] + [rows[i]];
        if last.None? || last.value.createdAt < rows[i].createdAt { last := Some(rows[i]); }
      }
      assert rows[..|rows|] == rows;
    }

    /** The new row links to a newest row; on a good log with a clock that moved on, that is the last one. */
    method RecordAudit(env: Env, input: Input, now: int)
      modifies this
      ensures exists last :: IsNewest(old(rows), last) && rows == old(rows) + [NewRow(env, input, TipOf(last), now)]
      ensures old(GoodLog(env, rows)) && ValidInput(input) && (forall r | r in old(rows) :: r.createdAt < now) ==>
                GoodLog(env, rows) && rows == old(rows) + [NewRow(env, input, TipOf(LastRow(old(rows))), now)]
    {
      var last := FindNewest();
      var previous: Option<Digest> := if last.Some? then Some(last.value.chainHash) else None;
      var chainHash := ChainHash(env.sha256, PreviousText(previous), BlobOfInput(input), env.iso(now));
      var row := Row(ColumnsOfInput(input), previous, chainHash, now);
      ghost var was := rows;
      rows := rows + [row];
      if GoodLog(env, was) && ValidInput(input) && forall r | r in was :: r.createdAt < now {
        NewestIsLast(was, last);
        NewRowVerifies(env, input, previous, now);
        AppendKeepsGood(env, was, row);
      }
    }
  }

  /** The log as a chain of events. */
  function Events(env: Env, rows: seq<Row>): (c: seq<Event>)
    ensures |c| == |rows|
  {
    seq(|rows|, i requires 0 <= i < |rows| => Event(BlobOfColumns(rows[i].columns), env.iso(rows[i].createdAt)))
  }

  lemma {:induction false} LastHashIsTip(env: Env, rows: seq<Row>)
    requires GoodLog(env, rows)
    ensures PreviousText(TipOf(LastRow(rows))) == Tip(env.sha256, Events(env, rows))
    ensures ValidChain(Events(env, rows))
  {
    forall i | 0 <= i < |rows| ensures ValidEvent(Events(env, rows)[i]) { BlobOfColumnsIsValid(rows[i].columns); }
    if rows != [] {
      var n := |rows| - 1;
      GoodPrefix(env, rows, n);
      LastHashIsTip(env, rows[..n]);
      TipStep(env, rows);
    }
  }

  lemma TipStep(env: Env, rows: seq<Row>)
    requires rows != []
    ensures Tip(env.sha256, Events(env, rows)) ==
            var n := |rows| - 1;
            ChainHash(env.sha256, Tip(env.sha256, Events(env, rows[..n])), BlobOfColumns(rows[n].columns), env.iso(rows[n].createdAt))
  {
    var n := |rows| - 1;
    assert Events(env, rows)[..n] == Events(env, rows[..n]);
  }

  lemma GoodPrefix(env: Env, rows: seq<Row>, n: nat)
    requires GoodLog(env, rows) && n <= |rows|
    ensures GoodLog(env, rows[..n])
  {
    forall i | 0 <= i < n ensures rows[..n][i].previousChainHash == TipOf(LastRow(rows[..n][..i])) {
      assert rows[..n][..i] == rows[..i];
    }
  }

  /** Two logs that end in the same hash hold the same events, or exhibit a hash collision. */
  lemma LogTamperEvidence(env: Env, rows: seq<Row>, other: seq<Row>)
    requires GoodLog(env, rows) && GoodLog(env, other)
    requires TipOf(LastRow(rows)) == TipOf(LastRow(other))
    ensures SameChain(Events(env, rows), Events(env, other))
         || Collide(env.sha256, Events(env, rows), Events(env, other))
  {
    LastHashIsTip(env, rows);
    LastHashIsTip(env, other);
    TamperEvidence(env.sha256, Events(env, rows), Events(env, other));
  }
}
