/** What a lock freezes, and what the transition log records. */
module AfterLock {
  import opened DealTable
  import opened Deal
  import opened DealRuns
  import opened VersionHistory

  // ----- After the lock -----

  /** Locked, or past it. */
  predicate Settled(s: State) { Sealed(s) || s == ARCHIVED || s == PURGED }

  /** The three data records with all their versions, and the executed contracts, are the same. */
  predicate SameRecords(d: Deal, d': Deal) {
    d'.buyer == d.buyer && d'.vehicle == d.vehicle && d'.financials == d.financials && d'.contracts == d.contracts
  }

  predicate NoOverwrite(ds: seq<Deal>, actions: seq<Action>, n: nat, m: nat)
    requires |ds| == |actions| + 1 && n <= m < |ds|
  {
    forall k | n <= k < m :: !Overwrites(ds[k], actions[k])
  }

  /** How many requests from point `n` to point `m` changed the state. */
  function Changes(ds: seq<Deal>, n: nat, m: nat): nat
    requires n <= m < |ds|
  {
    if m == n then 0
    else Changes(ds, n, m - 1) + if ds[m].state != ds[m - 1].state then 1 else 0
  }

  lemma SettledEdge(from: State, to: State)
    requires Settled(from) && Edge(from, to)
    ensures Settled(to) && Rank(to) < Rank(from)
  {
    EdgesAreOrdered(from, to);
  }

  lemma SettledMovesForward(d: Deal, a: Action, d': Deal)
    requires Settled(d.state) && !Overwrites(d, a) && StateStep(d, a, d')
    ensures d'.state == d.state || (Settled(d'.state) && Rank(d'.state) < Rank(d.state))
  {
    StepChangesState(d, a, d');
    if Edge(d.state, d'.state) { SettledEdge(d.state, d'.state); }
  }

  lemma SettledKeepsContracts(d: Deal, a: Action)
    requires Settled(d.state)
    ensures Handle(d, a).deal.contracts == d.contracts
  {
    OnlyExecutionTouchesContracts(d, a);
  }

  lemma SettledKeepsRecords(d: Deal, a: Action)
    requires Settled(d.state)
    ensures SameRecords(d, Handle(d, a).deal)
  {
    SettledKeepsContracts(d, a);
    if !a.DoPatchBuyer? && !a.DoPatchVehicle? && !a.DoPatchFinancials? { StepRecordsOneTrack(d, a); }
  }

  /** One request on a settled deal that does not overwrite its state. */
  predicate SettledStep(d: Deal, d': Deal) {
    && Settled(d'.state) && SameRecords(d, d')
    && Rank(d'.state) + (if d'.state != d.state then 1 else 0) <= Rank(d.state)
  }

  lemma SettledStepHolds(d: Deal, a: Action)
    requires Settled(d.state) && !Overwrites(d, a)
    ensures SettledStep(d, Handle(d, a).deal)
  {
    StepIsStateStep(d, a);
    SettledMovesForward(d, a, Handle(d, a).deal);
    SettledKeepsRecords(d, a);
  }

  predicate SettledStepAt(ds: seq<Deal>, k: nat)
    requires k + 1 < |ds|
  {
    SettledStep(ds[k], ds[k + 1])
  }

  lemma RunTakesSettledStep(ds: seq<Deal>, actions: seq<Action>, k: nat)
    requires Run(ds, actions) && k < |actions| && Settled(ds[k].state) && !Overwrites(ds[k], actions[k])
    ensures SettledStepAt(ds, k)
  {
    RunStep(ds, actions, k);
    SettledStepHolds(ds[k], actions[k]);
  }

  lemma {:induction false} SettledStepsAddUp(ds: seq<Deal>, n: nat, m: nat)
    requires n <= m < |ds| && Settled(ds[n].state)
    requires forall k | n <= k < m :: SettledStepAt(ds, k)
    ensures Settled(ds[m].state) && SameRecords(ds[n], ds[m])
    ensures Changes(ds, n, m) + Rank(ds[m].state) <= Rank(ds[n].state)
    decreases m
  {
    if n < m {
      SettledStepsAddUp(ds, n, m - 1);
      assert SettledStepAt(ds, m - 1);
    }
  }

  lemma SettledNext(ds: seq<Deal>, actions: seq<Action>, k: nat)
    requires Run(ds, actions) && k < |actions| && Settled(ds[k].state) && !Overwrites(ds[k], actions[k])
    ensures Settled(ds[k + 1].state)
  {
    RunTakesSettledStep(ds, actions, k);
  }

  lemma {:induction false} SettledStays(ds: seq<Deal>, actions: seq<Action>, n: nat, m: nat)
    requires Run(ds, actions) && n <= m < |ds| && NoOverwrite(ds, actions, n, m) && Settled(ds[n].state)
    ensures Settled(ds[m].state)
    decreases m
  {
    if n < m {
      SettledStays(ds, actions, n, m - 1);
      SettledNext(ds, actions, m - 1);
    }
  }

  lemma SettledStepsThroughout(ds: seq<Deal>, actions: seq<Action>, n: nat, m: nat)
    requires Run(ds, actions) && n <= m < |ds| && NoOverwrite(ds, actions, n, m) && Settled(ds[n].state)
    ensures forall k | n <= k < m :: SettledStepAt(ds, k)
  {
    forall k | n <= k < m ensures SettledStepAt(ds, k) {
      SettledStays(ds, actions, n, k);
      RunTakesSettledStep(ds, actions, k);
    }
  }

  /** Without administrator holds, a locked deal stays locked or past it, each further transition lowers
      its rank, so there are at most five, and its buyer, vehicle, financials, version rows and contract
      statuses never change again. */
  lemma LockIsFinal(ds: seq<Deal>, actions: seq<Action>, n: nat, m: nat)
    requires Run(ds, actions) && n <= m < |ds| && NoOverwrite(ds, actions, n, m)
    requires Settled(ds[n].state)
    ensures Settled(ds[m].state) && SameRecords(ds[n], ds[m])
    ensures Changes(ds, n, m) + Rank(ds[m].state) <= Rank(ds[n].state) <= 5
  {
    SettledStepsThroughout(ds, actions, n, m);
    SettledStepsAddUp(ds, n, m);
  }

  predicate SettledThroughout(ds: seq<Deal>, n: nat, m: nat)
    requires n <= m < |ds|
  {
    forall k | n <= k <= m :: Settled(ds[k].state)
  }

  /** On a settled deal the only overwrite is a hold, which unsettles it. */
  lemma HoldUnsettles(d: Deal, a: Action)
    requires Settled(d.state) && Overwrites(d, a)
    ensures a.DoPlaceHold? && Handle(d, a).deal.state == HOLD
  {
  }

  lemma RunUnsettled(ds: seq<Deal>, actions: seq<Action>, k: nat)
    requires Run(ds, actions) && k < |actions| && Settled(ds[k].state) && Overwrites(ds[k], actions[k])
    ensures !Settled(ds[k + 1].state)
  {
    RunStep(ds, actions, k);
    HoldUnsettles(ds[k], actions[k]);
  }

  /** A locked deal stays locked or past it from point `n` to point `m` if and only if no administrator's
      hold overwrote its state in between. */
  lemma LockHoldsExactlyWithoutHolds(ds: seq<Deal>, actions: seq<Action>, n: nat, m: nat)
    requires Run(ds, actions) && n <= m < |ds| && Settled(ds[n].state)
    ensures SettledThroughout(ds, n, m) <==> NoOverwrite(ds, actions, n, m)
  {
    if NoOverwrite(ds, actions, n, m) {
      forall k | n <= k <= m ensures Settled(ds[k].state) { LockIsFinal(ds, actions, n, k); }
    }
    if SettledThroughout(ds, n, m) {
      forall k | n <= k < m ensures !Overwrites(ds[k], actions[k]) {
        if Overwrites(ds[k], actions[k]) { RunUnsettled(ds, actions, k); }
      }
    }
  }

  // ----- The log of state transitions -----

  predicate LoggedStep(from: State, to: State) { Edge(from, to) || DemotionEdge(from, to) }

  lemma FirstRowsAreNoDemotions(i: nat)
    requires i < 21
    ensures !DemotionEdge(DEAL_TRANSITIONS[i].from, DEAL_TRANSITIONS[i].to)
  {
  }

  lemma LastRowsAreNoDemotions(i: nat)
    requires 21 <= i < |DEAL_TRANSITIONS|
    ensures !DemotionEdge(DEAL_TRANSITIONS[i].from, DEAL_TRANSITIONS[i].to)
  {
  }

  lemma WaysUpAreInTable()
    ensures Edge(YELLOW, GREEN_STAGE_1) && Edge(YELLOW, APPROVED) && Edge(DRAFT, YELLOW) && Edge(DRAFT, CONDITIONAL)
  {
    assert DEAL_TRANSITIONS[11].from == DEAL_TRANSITIONS[12].from == YELLOW;
    assert DEAL_TRANSITIONS[11].to == GREEN_STAGE_1 && DEAL_TRANSITIONS[12].to == APPROVED;
    assert DEAL_TRANSITIONS[2].from == DEAL_TRANSITIONS[3].from == DRAFT;
    assert DEAL_TRANSITIONS[2].to == YELLOW && DEAL_TRANSITIONS[3].to == CONDITIONAL;
  }

  /** A demotion is never an edge of the table, so a log row tells which it was; and the transition that takes
      the deal back up always is one. */
  lemma DemotionIsNoEdge(from: State, to: State)
    requires DemotionEdge(from, to)
    ensures !Edge(from, to) && Edge(to, from)
  {
    WaysUpAreInTable();
    if Edge(from, to) {
      var i :| 0 <= i < |DEAL_TRANSITIONS| && DEAL_TRANSITIONS[i] == Find(from, to).value;
      if i < 21 { FirstRowsAreNoDemotions(i); } else { LastRowsAreNoDemotions(i); }
    }
  }

  /** The log joins up row by row from DRAFT to `s`, along edges of the table and demotions. */
  predicate LogPath(log: seq<LogRow>, s: State) {
    if log == [] then s == DRAFT
    else
      var last := log[|log| - 1];
      last.to == s && LoggedStep(last.from, last.to) && LogPath(log[..|log| - 1], last.from)
  }

  /** The request changes the state without a log row: a hold on this deal, unless it is on hold already,
      or the release of one. */
  predicate Unlogged(d: Deal, a: Action) {
    Overwrites(d, a) && !(a.DoPlaceHold? && d.state == HOLD)
  }

  lemma UnloggedChangesState(d: Deal, a: Action)
    requires Unlogged(d, a)
    ensures Handle(d, a).deal.state != d.state && Handle(d, a).deal.log == d.log
  {
  }

  lemma HoldOnHoldChangesNothing(d: Deal, a: Action)
    requires Overwrites(d, a) && !Unlogged(d, a)
    ensures Stays(d, Handle(d, a).deal)
  {
  }

  lemma LoggedStepExtendsPath(d: Deal, a: Action)
    requires LogPath(d.log, d.state) && !Unlogged(d, a)
    ensures LogPath(Handle(d, a).deal.log, Handle(d, a).deal.state)
  {
    var d' := Handle(d, a).deal;
    StepIsStateStep(d, a);
    if Overwrites(d, a) {
      HoldOnHoldChangesNothing(d, a);
    } else if d'.log != d.log {
      assert d'.log[..|d'.log| - 1] == d.log;
    }
  }

  predicate UnloggedAt(ds: seq<Deal>, actions: seq<Action>, k: nat)
    requires k < |ds| && k < |actions|
  {
    Unlogged(ds[k], actions[k])
  }

  predicate PathAt(ds: seq<Deal>, k: nat)
    requires k < |ds|
  {
    LogPath(ds[k].log, ds[k].state)
  }

  lemma PathNext(ds: seq<Deal>, actions: seq<Action>, k: nat)
    requires Run(ds, actions) && k < |actions| && PathAt(ds, k) && !UnloggedAt(ds, actions, k)
    ensures PathAt(ds, k + 1)
  {
    RunStep(ds, actions, k);
    LoggedStepExtendsPath(ds[k], actions[k]);
  }

  lemma PathBroken(ds: seq<Deal>, actions: seq<Action>, k: nat)
    requires Run(ds, actions) && k < |actions| && PathAt(ds, k) && UnloggedAt(ds, actions, k)
    ensures !PathAt(ds, k + 1)
  {
    RunStep(ds, actions, k);
    UnloggedChangesState(ds[k], actions[k]);
  }

  lemma {:induction false} LoggedRunIsPath(ds: seq<Deal>, actions: seq<Action>, n: nat)
    requires Run(ds, actions) && n < |ds|
    requires forall k | 0 <= k < n :: !UnloggedAt(ds, actions, k)
    ensures PathAt(ds, n)
  {
    if n > 0 {
      LoggedRunIsPath(ds, actions, n - 1);
      PathNext(ds, actions, n - 1);
    }
  }

  predicate PathThroughout(ds: seq<Deal>) {
    forall n | 0 <= n < |ds| :: PathAt(ds, n)
  }

  /** The log is, at every point of a run, a path from DRAFT to the current state if and only if no
      administrator's hold or release overwrote the state. */
  lemma LogReplaysTheState(ds: seq<Deal>, actions: seq<Action>)
    requires Run(ds, actions)
    ensures PathThroughout(ds) <==> forall k | 0 <= k < |actions| :: !UnloggedAt(ds, actions, k)
  {
    if forall k | 0 <= k < |actions| :: !UnloggedAt(ds, actions, k) {
      forall n | 0 <= n < |ds| ensures PathAt(ds, n) { LoggedRunIsPath(ds, actions, n); }
    }
    if PathThroughout(ds) {
      forall k | 0 <= k < |actions| ensures !UnloggedAt(ds, actions, k) {
        assert PathAt(ds, k) && PathAt(ds, k + 1);
        if UnloggedAt(ds, actions, k) { PathBroken(ds, actions, k); }
      }
    }
  }
}
