/** Custody events: the deal aggregate they fold to, the projection that applies each of them once, and the
    ledger they are replayed from. */
module Custody {
  import opened Wrappers
  import opened Texts

  // ----- Events and the aggregate -----

  datatype EventType =
    | DealCreated | StipulationUploaded | ContractEsigned | DealFunded | DealSubmitted | StipUploaded
    | LenderViewed | LenderDownloaded | ESignatureCompleted | AuditLogExported | DocumentCustodySealed
    | ComplianceCheckRecorded | FundingPackageGenerated | SecondaryMarketTransferRecorded

  /** The payload fields the fold reads; `checkKey` is the text of whatever value is there. */
  datatype Payload = Payload(documentHash: Option<Text>, status: Option<Text>, checkKey: Option<Text>)

  datatype Event = Event(id: Text, dealId: Text, kind: EventType, payload: Payload)

  const INTAKE := Units("intake")
  const UNDERWRITING := Units("underwriting")
  const FUNDING := Units("funding")
  const CLOSED := Units("closed")
  const SOLD := Units("sold")
  const ARCHIVED := Units("archived")
  const PHASES := {INTAKE, UNDERWRITING, FUNDING, CLOSED, SOLD, ARCHIVED}

  const BLOCKED := Units("BLOCKED")
  const UNKNOWN_CHECK := Units("unknown")

  datatype Aggregate = Aggregate(dealId: Text, version: nat, phase: Text, governingHash: Option<Text>, blockers: seq<Text>)

  function Initial(dealId: Text): Aggregate { Aggregate(dealId, 0, INTAKE, None, []) }

  /** `foldEvent`. */
  function Fold(agg: Aggregate, e: Event): Aggregate {
    var next := agg.(version := agg.version + 1);
    match e.kind
    case DealCreated => next.(phase := UNDERWRITING)
    case DealSubmitted => next.(phase := UNDERWRITING)
    case DealFunded => next.(phase := CLOSED)
    case FundingPackageGenerated => next.(phase := FUNDING)
    case SecondaryMarketTransferRecorded => next.(phase := SOLD)
    case DocumentCustodySealed => next.(governingHash := OrOption(e.payload.documentHash, agg.governingHash))
    case ComplianceCheckRecorded =>
      if e.payload.status == Some(BLOCKED) then next.(blockers := agg.blockers + [OrElse(e.payload.checkKey, UNKNOWN_CHECK)]) else next
    case _ => next
  }

  /** The events of one deal folded in order. */
  function Replay(dealId: Text, es: seq<Event>): Aggregate {
    if es == [] then Initial(dealId)
    else
      var before, last := Replay(dealId, es[..|es| - 1]), es[|es| - 1];
      if last.dealId == dealId then Fold(before, last) else before
  }

  // ----- What the fold means, field by field -----

  /** The phase an event of this kind puts the deal in. */
  function PhaseOf(kind: EventType): Option<Text> {
    if kind == DealCreated || kind == DealSubmitted then Some(UNDERWRITING)
    else if kind == DealFunded then Some(CLOSED)
    else if kind == FundingPackageGenerated then Some(FUNDING)
    else if kind == SecondaryMarketTransferRecorded then Some(SOLD)
    else None
  }

  /** The phase of the latest event that has one. */
  function LatestPhase(dealId: Text, es: seq<Event>): Text {
    if es == [] then INTAKE
    else
      var last := es[|es| - 1];
      if last.dealId == dealId && PhaseOf(last.kind).Some? then PhaseOf(last.kind).value else LatestPhase(dealId, es[..|es| - 1])
  }

  /** The hash of the latest sealed document that carries one. */
  function LatestHash(dealId: Text, es: seq<Event>): Option<Text> {
    if es == [] then None
    else
      var last := es[|es| - 1];
      if last.dealId == dealId && last.kind == DocumentCustodySealed && last.payload.documentHash.Some? then last.payload.documentHash
      else LatestHash(dealId, es[..|es| - 1])
  }

  predicate IsBlocked(dealId: Text, e: Event) {
    e.dealId == dealId && e.kind == ComplianceCheckRecorded && e.payload.status == Some(BLOCKED)
  }

  /** The keys of the blocked checks, in order. */
  function BlockedChecks(dealId: Text, es: seq<Event>): seq<Text> {
    if es == [] then []
    else
      var before, last := BlockedChecks(dealId, es[..|es| - 1]), es[|es| - 1];
      if IsBlocked(dealId, last) then before + [OrElse(last.payload.checkKey, UNKNOWN_CHECK)] else before
  }

  lemma FoldPhase(agg: Aggregate, e: Event)
    ensures Fold(agg, e).phase == OrElse(PhaseOf(e.kind), agg.phase)
  {
  }

  /** Each field of the aggregate read off the events on its own. */
  lemma {:induction false} ReplayMeans(dealId: Text, es: seq<Event>)
    ensures Replay(dealId, es).phase == LatestPhase(dealId, es)
    ensures Replay(dealId, es).governingHash == LatestHash(dealId, es)
    ensures Replay(dealId, es).blockers == BlockedChecks(dealId, es)
  {
    if es != [] {
      ReplayMeans(dealId, es[..|es| - 1]);
      FoldPhase(Replay(dealId, es[..|es| - 1]), es[|es| - 1]);
    }
  }

  // ----- Commands -----

  datatype Command = Command(dealId: Text, isAuditExport: bool, expectedVersion: Option<nat>)

  datatype CommandError = COMMAND_DEAL_MISMATCH | COMMAND_VERSION_CONFLICT | COMMAND_REJECTED | CUSTODY_UNKNOWN_COMMAND

  /** `AggregateValidator.validate`. */
  function Validate(agg: Aggregate, c: Command): Option<CommandError> {
    if c.dealId != agg.dealId then Some(COMMAND_DEAL_MISMATCH)
    else if c.expectedVersion.Some? && c.expectedVersion.value != agg.version then Some(COMMAND_VERSION_CONFLICT)
    else if c.isAuditExport && agg.version == 0 then Some(COMMAND_REJECTED)
    else None
  }

  // ----- Applying events once -----

  function Ids(es: seq<Event>): set<Text> { set i | 0 <= i < |es| :: es[i].id }

  predicate DistinctIds(es: seq<Event>) {
    forall i, j | 0 <= i < j < |es| :: es[i].id != es[j].id
  }

  /** An event whose id is there already, on whatever deal, changes nothing. */
  function Applied(es: seq<Event>, e: Event): seq<Event> {
    if e.id in Ids(es) then es else es + [e]
  }

  /** The ids of the applied events of one deal. */
  function IdsOf(dealId: Text, es: seq<Event>): set<Text> {
    set i | 0 <= i < |es| && es[i].dealId == dealId :: es[i].id
  }

  lemma IdsSnoc(es: seq<Event>, e: Event)
    ensures Ids(es + [e]) == Ids(es) + {e.id}
    ensures IdsOf(e.dealId, es + [e]) == IdsOf(e.dealId, es) + {e.id}
    ensures forall d | d != e.dealId :: IdsOf(d, es + [e]) == IdsOf(d, es)
  {
    var more := es + [e];
    assert more[|es|] == e;
    assert forall i | 0 <= i < |es| :: more[i] == es[i];
    forall x | x in Ids(es) ensures x in Ids(more) {
      var i :| 0 <= i < |es| && es[i].id == x;
      assert more[i].id == x;
    }
    assert e.id in Ids(more);
    forall d, x | x in IdsOf(d, es) ensures x in IdsOf(d, more) {
      var i :| 0 <= i < |es| && es[i].dealId == d && es[i].id == x;
      assert more[i].id == x;
    }
    assert e.id in IdsOf(e.dealId, more);
  }

  lemma AppliedKeepsDistinct(es: seq<Event>, e: Event)
    requires DistinctIds(es)
    ensures DistinctIds(Applied(es, e)) && e.id in Ids(Applied(es, e)) && Ids(es) <= Ids(Applied(es, e))
  {
    IdsSnoc(es, e);
    forall i | 0 <= i < |es| ensures es[i].id in Ids(es) {}
  }

  /** In events with distinct ids the last is new to the ones before it. */
  lemma LastIsNew(es: seq<Event>)
    requires DistinctIds(es) && es != []
    ensures es == es[..|es| - 1] + [es[|es| - 1]]
    ensures es[|es| - 1].id !in Ids(es[..|es| - 1]) && DistinctIds(es[..|es| - 1])
  {
  }

  /** The phase of a deal is always one the loader lets through. */
  lemma {:induction false} PhaseIsKnown(dealId: Text, es: seq<Event>)
    ensures Replay(dealId, es).phase in PHASES && Replay(dealId, es).dealId == dealId
  {
    if es != [] { PhaseIsKnown(dealId, es[..|es| - 1]); }
  }

  lemma VersionSnoc(dealId: Text, es: seq<Event>, e: Event)
    ensures Replay(dealId, es + [e]).version == Replay(dealId, es).version + if e.dealId == dealId then 1 else 0
  {
  }

  lemma IdsOfSnoc(dealId: Text, es: seq<Event>, e: Event)
    requires e.id !in Ids(es)
    ensures |IdsOf(dealId, es + [e])| == |IdsOf(dealId, es)| + if e.dealId == dealId then 1 else 0
  {
    IdsSnoc(es, e);
  }

  /** The version of a deal is the number of distinct events applied to it. */
  lemma {:induction false} VersionCountsEvents(dealId: Text, es: seq<Event>)
    requires DistinctIds(es)
    ensures Replay(dealId, es).version == |IdsOf(dealId, es)|
  {
    if es != [] {
      var before, last := es[..|es| - 1], es[|es| - 1];
      LastIsNew(es);
      VersionCountsEvents(dealId, before);
      IdsOfSnoc(dealId, before, last);
      VersionSnoc(dealId, before, last);
    }
  }

  /** A command is let through if and only if it names the deal, expects no version or the number of distinct events
      applied to it, and, if it exports the audit log, at least one event was applied. */
  lemma AcceptedExactly(c: Command, dealId: Text, es: seq<Event>)
    requires DistinctIds(es)
    ensures Validate(Replay(dealId, es), c).None? <==>
            && c.dealId == dealId
            && (c.expectedVersion.Some? ==> c.expectedVersion.value == |IdsOf(dealId, es)|)
            && (c.isAuditExport ==> IdsOf(dealId, es) != {})
    ensures Validate(Replay(dealId, es), c) ==
            if c.dealId != dealId then Some(COMMAND_DEAL_MISMATCH)
            else if c.expectedVersion.Some? && c.expectedVersion.value != |IdsOf(dealId, es)| then Some(COMMAND_VERSION_CONFLICT)
            else if c.isAuditExport && IdsOf(dealId, es) == {} then Some(COMMAND_REJECTED)
            else None
  {
    VersionCountsEvents(dealId, es);
    PhaseIsKnown(dealId, es);
  }

  // ----- Runs -----

  /** The ledger, and the events the projection has applied. */
  datatype Store = Store(ledger: seq<Event>, applied: seq<Event>)

  /** One recorded event: was it appended, did an attempt to project it commit, was success reported. */
  datatype Write = Write(event: Event, appended: bool, reached: bool, reported: bool)

  /** Nothing is projected before it is appended; success is reported only after a commit. */
  predicate Possible(w: Write) { (w.reported ==> w.reached) && (w.reached ==> w.appended) }

  function Step(s: Store, w: Write): Store {
    if !w.appended then s
    else Store(s.ledger + [w.event], if w.reached then Applied(s.applied, w.event) else s.applied)
  }

  function After(ws: seq<Write>): Store {
    if ws == [] then Store([], []) else Step(After(ws[..|ws| - 1]), ws[|ws| - 1])
  }

  predicate AllPossible(ws: seq<Write>) { forall k | 0 <= k < |ws| :: Possible(ws[k]) }

  /** `xs` is `ys` with some elements left out. */
  predicate Subsequence<T(==)>(xs: seq<T>, ys: seq<T>) {
    if xs == [] then true
    else if ys == [] then false
    else if xs[|xs| - 1] == ys[|ys| - 1] then Subsequence(xs[..|xs| - 1], ys[..|ys| - 1])
    else Subsequence(xs, ys[..|ys| - 1])
  }

  lemma {:induction false} DroppingTheLast<T>(xs: seq<T>, ys: seq<T>)
    requires Subsequence(xs, ys) && xs != []
    ensures Subsequence(xs[..|xs| - 1], ys)
    decreases |ys|
  {
    var xs', ys' := xs[..|xs| - 1], ys[..|ys| - 1];
    if xs[|xs| - 1] == ys[|ys| - 1] {
      if xs' != [] { DroppingTheLast(xs', ys'); }
    } else {
      DroppingTheLast(xs, ys');
      if xs' != [] { DroppingTheLast(xs', ys'); }
    }
  }

  lemma SubsequenceGrows<T>(xs: seq<T>, ys: seq<T>, y: T)
    requires Subsequence(xs, ys)
    ensures Subsequence(xs, ys + [y]) && Subsequence(xs + [y], ys + [y])
  {
    assert (ys + [y])[..|ys|] == ys;
    assert (xs + [y])[..|xs|] == xs;
    if xs != [] { DroppingTheLast(xs, ys); }
  }

  /** In every run, whatever attempts failed before or after their commit: each id is applied at most once,
      in ledger order. */
  lemma {:induction false} AppliedAtMostOnce(ws: seq<Write>)
    ensures DistinctIds(After(ws).applied)
    ensures Subsequence(After(ws).applied, After(ws).ledger)
  {
    if ws != [] {
      var before, w := After(ws[..|ws| - 1]), ws[|ws| - 1];
      AppliedAtMostOnce(ws[..|ws| - 1]);
      AppliedKeepsDistinct(before.applied, w.event);
      SubsequenceGrows(before.applied, before.ledger, w.event);
    }
  }

  /** How many applied events carry this id. */
  function Times(id: Text, es: seq<Event>): nat {
    if es == [] then 0 else Times(id, es[..|es| - 1]) + if es[|es| - 1].id == id then 1 else 0
  }

  lemma {:induction false} TimesIsMembership(id: Text, es: seq<Event>)
    requires DistinctIds(es)
    ensures Times(id, es) == if id in Ids(es) then 1 else 0
  {
    if es != [] {
      var before, last := es[..|es| - 1], es[|es| - 1];
      LastIsNew(es);
      IdsSnoc(before, last);
      TimesIsMembership(id, before);
    }
  }

  lemma {:induction false} ReachedStaysApplied(ws: seq<Write>, k: nat)
    requires AllPossible(ws) && k < |ws| && ws[k].reached
    ensures ws[k].event.id in Ids(After(ws).applied)
  {
    var init, w := ws[..|ws| - 1], ws[|ws| - 1];
    AppliedAtMostOnce(init);
    AppliedKeepsDistinct(After(init).applied, w.event);
    assert Possible(ws[k]);
    if k < |init| {
      assert forall j | 0 <= j < |init| :: init[j] == ws[j];
      assert AllPossible(init);
      ReachedStaysApplied(init, k);
    }
  }

  /** An event whose recording reported success has been applied exactly once, now and ever after. */
  lemma {:induction false} ReportedMeansExactlyOnce(ws: seq<Write>, k: nat)
    requires AllPossible(ws) && k < |ws| && ws[k].reported
    ensures Times(ws[k].event.id, After(ws).applied) == 1
  {
    assert Possible(ws[k]);
    ReachedStaysApplied(ws, k);
    AppliedAtMostOnce(ws);
    TimesIsMembership(ws[k].event.id, After(ws).applied);
  }

  // ----- Agreement with the ledger -----

  /** The first ledger entry of each id. */
  function Firsts(es: seq<Event>): seq<Event> {
    if es == [] then [] else
      var before, last := es[..|es| - 1], es[|es| - 1];
      if last.id in Ids(before) then Firsts(before) else Firsts(before) + [last]
  }

  lemma {:induction false} FirstsHaveAllIds(es: seq<Event>)
    ensures Ids(Firsts(es)) == Ids(es)
    ensures DistinctIds(es) ==> Firsts(es) == es
  {
    if es != [] {
      var before, last := es[..|es| - 1], es[|es| - 1];
      assert before + [last] == es;
      FirstsHaveAllIds(before);
      IdsSnoc(before, last);
      IdsSnoc(Firsts(before), last);
      if DistinctIds(es) { LastIsNew(es); }
    }
  }

  lemma FirstsSnoc(es: seq<Event>, e: Event)
    ensures Firsts(es + [e]) == Applied(Firsts(es), e)
  {
    assert (es + [e])[..|es|] == es;
    FirstsHaveAllIds(es);
  }

  /** Write `k` was the first to append its id, and no attempt to project it committed. */
  predicate Missed(ws: seq<Write>, k: nat)
    requires k < |ws|
  {
    ws[k].appended && !ws[k].reached && ws[k].event.id !in Ids(After(ws[..k]).ledger)
  }

  /** The projection has applied exactly the first entry of each id in the ledger. */
  predicate UpToDate(s: Store) { s.applied == Firsts(s.ledger) }

  lemma StepUpToDate(ws: seq<Write>, k: nat)
    requires k < |ws| && Possible(ws[k]) && UpToDate(After(ws[..k]))
    ensures UpToDate(After(ws[..k + 1])) <==> !Missed(ws, k)
  {
    var s, w := After(ws[..k]), ws[k];
    assert ws[..k + 1][..k] == ws[..k];
    FirstsSnoc(s.ledger, w.event);
    FirstsHaveAllIds(s.ledger);
  }

  lemma {:induction false} NeverMissedIsUpToDate(ws: seq<Write>, n: nat)
    requires AllPossible(ws) && n <= |ws|
    requires forall k | 0 <= k < n :: !Missed(ws, k)
    ensures UpToDate(After(ws[..n]))
  {
    if n > 0 {
      NeverMissedIsUpToDate(ws, n - 1);
      assert Possible(ws[n - 1]);
      StepUpToDate(ws, n - 1);
    }
  }

  predicate UpToDateThroughout(ws: seq<Write>) {
    forall n | 0 <= n <= |ws| :: UpToDate(After(ws[..n]))
  }

  /** The projection agrees with the ledger at every point if and only if the projection of every new id
      committed before the next event was recorded, whether or not success was reported. */
  lemma AgreesWithLedger(ws: seq<Write>)
    requires AllPossible(ws)
    ensures UpToDateThroughout(ws) <==> forall k | 0 <= k < |ws| :: !Missed(ws, k)
  {
    if forall k | 0 <= k < |ws| :: !Missed(ws, k) {
      forall n | 0 <= n <= |ws| ensures UpToDate(After(ws[..n])) { NeverMissedIsUpToDate(ws, n); }
    }
    if UpToDateThroughout(ws) {
      forall k | 0 <= k < |ws| ensures !Missed(ws, k) {
        assert Possible(ws[k]) && UpToDate(After(ws[..k])) && UpToDate(After(ws[..k + 1]));
        StepUpToDate(ws, k);
      }
    }
  }

  // ----- One deal, whatever happened to the others -----

  /** Write `k` appended an event of this deal, and no attempt to project it committed. */
  predicate MissedFor(ws: seq<Write>, k: nat, dealId: Text)
    requires k < |ws|
  {
    ws[k].event.dealId == dealId && ws[k].appended && !ws[k].reached
  }

  function MissedWrites(ws: seq<Write>, dealId: Text): nat {
    if ws == [] then 0
    else MissedWrites(ws[..|ws| - 1], dealId) + if MissedFor(ws, |ws| - 1, dealId) then 1 else 0
  }

  lemma {:induction false} NoneMissed(ws: seq<Write>, dealId: Text)
    ensures MissedWrites(ws, dealId) == 0 <==> forall k | 0 <= k < |ws| :: !MissedFor(ws, k, dealId)
  {
    if ws != [] {
      var init := ws[..|ws| - 1];
      NoneMissed(init, dealId);
      assert forall k | 0 <= k < |init| :: MissedFor(ws, k, dealId) <==> MissedFor(init, k, dealId);
    }
  }

  lemma {:induction false} AppliedIsFromLedger(ws: seq<Write>)
    requires AllPossible(ws)
    ensures Ids(After(ws).applied) <= Ids(After(ws).ledger)
  {
    if ws != [] {
      var init, w := ws[..|ws| - 1], ws[|ws| - 1];
      assert forall k | 0 <= k < |init| :: Possible(ws[k]) && init[k] == ws[k];
      AppliedIsFromLedger(init);
      assert Possible(w);
      IdsSnoc(After(init).ledger, w.event);
      IdsSnoc(After(init).applied, w.event);
    }
  }

  /** While ids are not reused, a write adds its event to the ledger, and to the applied events if it was reached. */
  lemma LastWrite(ws: seq<Write>)
    requires AllPossible(ws) && DistinctIds(After(ws).ledger) && ws != []
    ensures var init, w := After(ws[..|ws| - 1]), ws[|ws| - 1];
            && DistinctIds(init.ledger) && AllPossible(ws[..|ws| - 1])
            && After(ws) == if !w.appended then init
                            else Store(init.ledger + [w.event], if w.reached then init.applied + [w.event] else init.applied)
  {
    var init, w := ws[..|ws| - 1], ws[|ws| - 1];
    assert forall k | 0 <= k < |init| :: Possible(ws[k]) && init[k] == ws[k];
    assert Possible(w);
    AppliedIsFromLedger(init);
    if w.appended {
      LastIsNew(After(ws).ledger);
      assert After(ws).ledger[..|After(init).ledger|] == After(init).ledger;
    }
  }

  lemma ReplaySnoc(dealId: Text, es: seq<Event>, e: Event)
    ensures Replay(dealId, es + [e]) == if e.dealId == dealId then Fold(Replay(dealId, es), e) else Replay(dealId, es)
  {
    assert (es + [e])[..|es|] == es;
  }

  /** Nothing is lost but what was missed: the ledger's version of a deal is the projection's plus the number of
      that deal's writes that were appended and never projected. */
  lemma {:induction false} LedgerLeadsByMissedWrites(ws: seq<Write>, dealId: Text)
    requires AllPossible(ws) && DistinctIds(After(ws).ledger)
    ensures Replay(dealId, After(ws).ledger).version == Replay(dealId, After(ws).applied).version + MissedWrites(ws, dealId)
  {
    if ws != [] {
      var init, w := ws[..|ws| - 1], ws[|ws| - 1];
      LastWrite(ws);
      LedgerLeadsByMissedWrites(init, dealId);
      VersionSnoc(dealId, After(init).ledger, w.event);
      VersionSnoc(dealId, After(init).applied, w.event);
    }
  }

  lemma {:induction false} UnmissedDealIsReplay(ws: seq<Write>, dealId: Text)
    requires AllPossible(ws) && DistinctIds(After(ws).ledger) && MissedWrites(ws, dealId) == 0
    ensures Replay(dealId, After(ws).applied) == Replay(dealId, After(ws).ledger)
  {
    if ws != [] {
      var init, w := ws[..|ws| - 1], ws[|ws| - 1];
      LastWrite(ws);
      UnmissedDealIsReplay(init, dealId);
      ReplaySnoc(dealId, After(init).ledger, w.event);
      ReplaySnoc(dealId, After(init).applied, w.event);
    }
  }

  /** With ids never reused, the projected aggregate of a deal is the replay of the whole ledger if and only if every
      appended event of that deal was projected, whatever was missed on other deals. */
  lemma DealIsLedgerReplay(ws: seq<Write>, dealId: Text)
    requires AllPossible(ws) && DistinctIds(After(ws).ledger)
    ensures Replay(dealId, After(ws).applied) == Replay(dealId, After(ws).ledger) <==>
            forall k | 0 <= k < |ws| :: !MissedFor(ws, k, dealId)
  {
    NoneMissed(ws, dealId);
    LedgerLeadsByMissedWrites(ws, dealId);
    if MissedWrites(ws, dealId) == 0 { UnmissedDealIsReplay(ws, dealId); }
  }

  // ----- Optimistic concurrency -----

  lemma {:induction false} VersionNeverFalls(ws: seq<Write>, n: nat, dealId: Text)
    requires n <= |ws|
    ensures Replay(dealId, After(ws[..n]).applied).version <= Replay(dealId, After(ws).applied).version
    decreases |ws|
  {
    if n == |ws| {
      assert ws[..n] == ws;
    } else {
      var init, w := ws[..|ws| - 1], ws[|ws| - 1];
      assert init[..n] == ws[..n];
      VersionNeverFalls(init, n, dealId);
      VersionSnoc(dealId, After(init).applied, w.event);
    }
  }

  lemma NewEventIsApplied(ws: seq<Write>, k: nat)
    requires k < |ws| && ws[k].appended && ws[k].reached && ws[k].event.id !in Ids(After(ws[..k]).applied)
    ensures After(ws[..k + 1]).applied == After(ws[..k]).applied + [ws[k].event]
  {
    assert ws[..k + 1][..k] == ws[..k];
  }

  /** A command with an expected version is accepted and its new event projected at write `k`: no later
      command of that deal is accepted with the same expected version. */
  lemma SameVersionIsRefused(ws: seq<Write>, k: nat, c: Command, later: Command)
    requires k < |ws| && ws[k].appended && ws[k].reached
    requires ws[k].event.id !in Ids(After(ws[..k]).applied) && ws[k].event.dealId == c.dealId
    requires c.expectedVersion.Some? && Validate(Replay(c.dealId, After(ws[..k]).applied), c).None?
    requires later.dealId == c.dealId && later.expectedVersion == c.expectedVersion
    ensures Validate(Replay(c.dealId, After(ws).applied), later) == Some(COMMAND_VERSION_CONFLICT)
  {
    var s := After(ws[..k]);
    NewEventIsApplied(ws, k);
    VersionSnoc(c.dealId, s.applied, ws[k].event);
    VersionNeverFalls(ws, k + 1, c.dealId);
    PhaseIsKnown(c.dealId, s.applied);
    PhaseIsKnown(c.dealId, After(ws).applied);
  }
}
