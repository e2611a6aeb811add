/** The custody service, its retrying projection writer and the projection tables, updated in place. */
module CustodyService {
  import opened Wrappers
  import opened Texts
  import opened Custody

  // ----- The projection -----

  datatype ProjectionRow = ProjectionRow(version: nat, phase: Text, governingHash: Option<Text>, blockers: seq<Text>, lastEventId: Text)

  /** How one attempt to run the projection's transaction ends. */
  datatype Attempt = FAILS_BEFORE_COMMIT | FAILS_AFTER_COMMIT | SUCCEEDS

  function RowOf(agg: Aggregate, lastEventId: Text): ProjectionRow {
    ProjectionRow(agg.version, agg.phase, agg.governingHash, agg.blockers, lastEventId)
  }

  function AggregateOf(dealId: Text, row: ProjectionRow): Aggregate {
    Aggregate(dealId, row.version, row.phase, row.governingHash, row.blockers)
  }

  /** The id of the deal's last event. */
  function LastIdOf(dealId: Text, es: seq<Event>): Option<Text> {
    if es == [] then None
    else if es[|es| - 1].dealId == dealId then Some(es[|es| - 1].id)
    else LastIdOf(dealId, es[..|es| - 1])
  }

  /** The row of a deal is the fold of its events; a deal without events has none. */
  predicate RowOk(dealId: Text, es: seq<Event>, rows: map<Text, ProjectionRow>) {
    match LastIdOf(dealId, es)
    case None => dealId !in rows && Replay(dealId, es) == Initial(dealId)
    case Some(id) => dealId in rows && rows[dealId] == RowOf(Replay(dealId, es), id)
  }

  lemma RowOkSnoc(dealId: Text, es: seq<Event>, rows: map<Text, ProjectionRow>, e: Event)
    requires RowOk(dealId, es, rows)
    ensures RowOk(dealId, es + [e], rows[e.dealId := RowOf(Fold(Replay(e.dealId, es), e), e.id)])
  {
  }

  class ProjectionStore {
    var events: seq<Event>
    var rows: map<Text, ProjectionRow>

    ghost predicate Valid()
      reads this
    {
      DistinctIds(events) && forall d :: RowOk(d, events, rows)
    }

    constructor ()
      ensures Valid() && events == []
    {
      events, rows := [], map[];
    }

    /** One database transaction, rolled back when it fails before its commit. */
    method ApplyCustodyEvent(e: Event, attempt: Attempt) returns (ok: bool)
      requires Valid()
      modifies this
      ensures Valid()
      ensures events == if attempt == FAILS_BEFORE_COMMIT then old(events) else Applied(old(events), e)
      ensures attempt == FAILS_BEFORE_COMMIT || e.id in Ids(old(events)) ==> rows == old(rows)
      ensures ok == (attempt == SUCCEEDS)
    {
      ok := attempt == SUCCEEDS;
      if attempt == FAILS_BEFORE_COMMIT { return; }
      var dup := exists i | 0 <= i < |events| :: events[i].id == e.id;
      if dup { return; }
      assert RowOk(e.dealId, events, rows);
      var base := if e.dealId in rows then AggregateOf(e.dealId, rows[e.dealId]) else Initial(e.dealId);
      PhaseIsKnown(e.dealId, events);
      assert base == Replay(e.dealId, events);
      var next := Fold(base, e);
      AppliedKeepsDistinct(events, e);
      var events', rows' := events + [e], rows[e.dealId := RowOf(next, e.id)];
      forall d ensures RowOk(d, events', rows') { RowOkSnoc(d, events, rows, e); }
      events, rows := events', rows';
    }

    /** The loaded aggregate is the fold of the deal's applied events; the phase filter never changes it. */
    method LoadByDealId(dealId: Text) returns (agg: Option<Aggregate>)
      requires Valid()
      ensures agg == if IdsOf(dealId, events) == {} then None else Some(Replay(dealId, events))
      ensures agg.Some? ==> agg.value.version == |IdsOf(dealId, events)|
    {
      assert RowOk(dealId, events, rows);
      LastIdIffEvents(dealId, events);
      if dealId !in rows { return None; }
      var row := rows[dealId];
      PhaseIsKnown(dealId, events);
      VersionCountsEvents(dealId, events);
      var phase := if row.phase in PHASES then row.phase else INTAKE;
      return Some(Aggregate(dealId, row.version, phase, row.governingHash, row.blockers));
    }
  }

  lemma {:induction false} LastIdIffEvents(dealId: Text, es: seq<Event>)
    ensures LastIdOf(dealId, es).None? <==> IdsOf(dealId, es) == {}
  {
    if es != [] {
      var before, last := es[..|es| - 1], es[|es| - 1];
      assert before + [last] == es;
      LastIdIffEvents(dealId, before);
      IdsSnoc(before, last);
    }
  }

  // ----- Retrying -----

  /** The delay after failed attempt `i`, counted from 0. */
  function DelayAt(base: int, i: nat): int {
    if i == 0 then base
    else if DelayAt(base, i - 1) * 2 < 10000 then DelayAt(base, i - 1) * 2 else 10000
  }

  /** The first `n` delays. */
  function Delays(base: int, n: nat): seq<int> { if n == 0 then [] else Delays(base, n - 1) + [DelayAt(base, n - 1)] }

  function Doubled(base: int, i: nat): int { if i == 0 then base else 2 * Doubled(base, i - 1) }

  /** The first delay is the base; from then on the delays double up to ten seconds. */
  lemma {:induction false} DelaysDoubleUpToCap(base: int, i: nat)
    requires base >= 0
    ensures i > 0 ==> DelayAt(base, i) == (if Doubled(base, i) < 10000 then Doubled(base, i) else 10000)
    ensures Doubled(base, i) >= 0
  {
    if i > 0 { DelaysDoubleUpToCap(base, i - 1); }
  }

  /** How many attempts are made: up to the first success, or all of them. */
  function Tried(outcomes: nat -> Attempt, max: nat): (n: nat)
    ensures n <= max
    ensures forall i: nat | i + 1 < n :: outcomes(i) != SUCCEEDS
    ensures n < max ==> n > 0 && outcomes(n - 1) == SUCCEEDS
  {
    if max == 0 then 0
    else if Tried(outcomes, max - 1) > 0 && outcomes(Tried(outcomes, max - 1) - 1) == SUCCEEDS then Tried(outcomes, max - 1)
    else Tried(outcomes, max - 1) + 1
  }

  /** One of the attempts made succeeded. */
  predicate EndsWell(outcomes: nat -> Attempt, max: nat) {
    Tried(outcomes, max) > 0 && outcomes(Tried(outcomes, max) - 1) == SUCCEEDS
  }

  /** One of the first `n` attempts committed. */
  predicate Commits(outcomes: nat -> Attempt, n: nat) {
    n > 0 && (Commits(outcomes, n - 1) || outcomes(n - 1) != FAILS_BEFORE_COMMIT)
  }

  lemma ApplyingAgain(es: seq<Event>, e: Event)
    ensures Applied(Applied(es, e), e) == Applied(es, e)
  {
    IdsSnoc(es, e);
  }

  /** None of the first `n` attempts succeeded. */
  predicate NoneSucceeds(outcomes: nat -> Attempt, n: nat) {
    n > 0 ==> NoneSucceeds(outcomes, n - 1) && outcomes(n - 1) != SUCCEEDS
  }

  lemma {:induction false} AllTriesFailed(outcomes: nat -> Attempt, n: nat)
    requires NoneSucceeds(outcomes, n)
    ensures Tried(outcomes, n) == n && !EndsWell(outcomes, n)
  {
    if n > 0 { AllTriesFailed(outcomes, n - 1); }
  }

  lemma {:induction false} SuccessEndsTries(outcomes: nat -> Attempt, k: nat, max: nat)
    requires k < max && outcomes(k) == SUCCEEDS && NoneSucceeds(outcomes, k)
    ensures Tried(outcomes, max) == k + 1
    decreases max
  {
    AllTriesFailed(outcomes, k);
    if max > k + 1 { SuccessEndsTries(outcomes, k, max - 1); }
  }

  class RetryingWriter {
    const inner: ProjectionStore
    const maxAttempts: int
    const baseDelay: int

    constructor (inner: ProjectionStore, maxAttempts: Option<int>, baseDelay: Option<int>)
      ensures this.inner == inner
      ensures this.maxAttempts == OrElse(maxAttempts, 5) && this.baseDelay == OrElse(baseDelay, 200)
    {
      this.inner := inner;
      this.maxAttempts, this.baseDelay := OrElse(maxAttempts, 5), OrElse(baseDelay, 200);
    }

    function Max(): nat { if maxAttempts < 0 then 0 else maxAttempts }

    /** Attempts until one succeeds; `delays` are the waits between them. */
    method ApplyCustodyEvent(e: Event, outcomes: nat -> Attempt) returns (ok: bool, delays: seq<int>)
      requires inner.Valid()
      modifies inner
      ensures inner.Valid()
      ensures ok == EndsWell(outcomes, Max())
      ensures inner.events == if Commits(outcomes, Tried(outcomes, Max())) then Applied(old(inner.events), e) else old(inner.events)
      ensures delays == Delays(baseDelay, if Max() == 0 then 0 else Tried(outcomes, Max()) - 1)
    {
      var delay := baseDelay;
      delays := [];
      var attempt := 1;
      ghost var was := inner.events;
      while attempt <= maxAttempts
        invariant 1 <= attempt <= Max() + 1 && inner.Valid()
        invariant NoneSucceeds(outcomes, attempt - 1)
        invariant inner.events == if Commits(outcomes, attempt - 1) then Applied(was, e) else was
        invariant delays == Delays(baseDelay, if attempt <= Max() || Max() == 0 then attempt - 1 else attempt - 2)
        invariant attempt <= Max() ==> delay == DelayAt(baseDelay, attempt - 1)
      {
        ApplyingAgain(was, e);
        ok := inner.ApplyCustodyEvent(e, outcomes(attempt - 1));
        if ok {
          SuccessEndsTries(outcomes, attempt - 1, Max());
          return;
        }
        if attempt < maxAttempts {
          delays := delays + [delay];
          delay := if delay * 2 < 10000 then delay * 2 else 10000;
        }
        attempt := attempt + 1;
      }
      AllTriesFailed(outcomes, Max());
      ok := false;
    }
  }

  // ----- The service -----

  datatype Answer = Refused(error: CommandError) | LedgerFailed | Recorded(event: Event, projected: bool)

  class Service {
    var ledger: seq<Event>
    const projection: ProjectionStore
    const writer: RetryingWriter
    /** Every recording so far. */
    ghost var writes: seq<Write>

    ghost predicate Valid()
      reads this, projection
    {
      && writer.inner == projection && projection.Valid()
      && AllPossible(writes) && After(writes) == Store(ledger, projection.events)
    }

    constructor (maxAttempts: Option<int>, baseDelay: Option<int>)
      ensures Valid() && fresh(projection) && ledger == [] && writes == []
    {
      var store := new ProjectionStore();
      var retrying := new RetryingWriter(store, maxAttempts, baseDelay);
      projection, writer := store, retrying;
      ledger, writes := [], [];
    }

    /** Append to the ledger, then project with retries. The last two outputs say how the recording went. */
    method RecordSystemEvent(e: Event, appends: bool, outcomes: nat -> Attempt) returns (answer: Answer)
      requires Valid()
      modifies this, projection
      ensures Valid()
      ensures answer == if appends then Recorded(e, EndsWell(outcomes, writer.Max())) else LedgerFailed
      ensures writes == old(writes) + [Write(e, appends, appends && Commits(outcomes, Tried(outcomes, writer.Max())),
                                             appends && EndsWell(outcomes, writer.Max()))]
    {
      ghost var w := Write(e, appends, appends && Commits(outcomes, Tried(outcomes, writer.Max())),
                           appends && EndsWell(outcomes, writer.Max()));
      assert (writes + [w])[..|writes|] == writes;
      writes := writes + [w];
      if !appends { return LedgerFailed; }
      ledger := ledger + [e];
      var ok, _ := writer.ApplyCustodyEvent(e, outcomes);
      return Recorded(e, ok);
    }

    /** A command is interpreted, validated against the loaded aggregate, and recorded as one new event. */
    method HandleCommand(c: Command, interpreted: Option<(EventType, Payload)>, id: Text, appends: bool, outcomes: nat -> Attempt)
      returns (answer: Answer)
      requires Valid()
      modifies this, projection
      ensures Valid()
      ensures interpreted.None? ==> answer == Refused(CUSTODY_UNKNOWN_COMMAND)
      ensures interpreted.Some? ==>
                var refusal := Validate(Replay(c.dealId, old(projection.events)), c);
                if refusal.Some? then answer == Refused(refusal.value)
                else !answer.Refused? && (answer.Recorded? ==> answer.event == Event(id, c.dealId, interpreted.value.0, interpreted.value.1))
      ensures answer.Refused? ==> writes == old(writes)
      ensures !answer.Refused? ==> |writes| == |old(writes)| + 1 && writes[..|old(writes)|] == old(writes)
      ensures answer.Recorded? ==>
                var w := writes[|old(writes)|]; w.event == answer.event && w.appended && w.reported == answer.projected
    {
      var loaded := projection.LoadByDealId(c.dealId);
      assert RowOk(c.dealId, projection.events, projection.rows);
      LastIdIffEvents(c.dealId, projection.events);
      var aggregate := OrElse(loaded, Initial(c.dealId));
      if interpreted.None? { return Refused(CUSTODY_UNKNOWN_COMMAND); }
      var refusal := Validate(aggregate, c);
      if refusal.Some? { return Refused(refusal.value); }
      answer := RecordSystemEvent(Event(id, c.dealId, interpreted.value.0, interpreted.value.1), appends, outcomes);
    }

    /** Whatever failed on the way, a recording that reported success has been applied exactly once. */
    lemma SuccessMeansExactlyOnce(k: nat)
      requires Valid() && k < |writes| && writes[k].reported
      ensures Times(writes[k].event.id, projection.events) == 1
    {
      ReportedMeansExactlyOnce(writes, k);
    }
  }
}
