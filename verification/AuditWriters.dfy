/** Any number of `recordAudit` calls in flight at once. Each takes the advisory lock, reads the
    newest committed row, reads the clock, inserts, and commits; it may fail at any point. */
module AuditWriters {
  import opened Wrappers
  import opened Canonical
  import opened AuditChain
  import opened AuditLog

  datatype Writer =
    | Queued(input: Input)
    | Locked(input: Input)
    | TipRead(input: Input, tip: Option<Digest>)
    | Inserted(row: Row)

  /** `rows` are the committed rows; `clock` is the last reading taken. */
  datatype System = System(rows: seq<Row>, lock: Option<nat>, writers: map<nat, Writer>, clock: int)

  datatype Move =
    | Begin(pid: nat, input: Input)
    | Lock(pid: nat)
    | ReadTip(pid: nat, last: Option<Row>)
    | Insert(pid: nat, now: int)
    | Commit(pid: nat)
    | Fail(pid: nat)
    | Reorder(index: nat, columns: Columns)

  const INITIAL := System([], None, map[], 0)

  ghost predicate Enabled(s: System, m: Move) {
    match m
    case Begin(pid, input) => pid !in s.writers && ValidInput(input)
    case Lock(pid) => pid in s.writers && s.writers[pid].Queued? && s.lock == None
    case ReadTip(pid, last) => pid in s.writers && s.writers[pid].Locked? && IsNewest(s.rows, last)
    case Insert(pid, now) => pid in s.writers && s.writers[pid].TipRead? && s.clock < now
    case Commit(pid) => pid in s.writers && s.writers[pid].Inserted?
    case Fail(pid) => pid in s.writers
    case Reorder(i, columns) =>
      i < |s.rows| && ValidColumns(columns) && SameColumns(s.rows[i].columns, columns)
  }

  function Released(s: System, pid: nat): Option<nat> {
    if s.lock == Some(pid) then None else s.lock
  }

  ghost function Apply(env: Env, s: System, m: Move): System
    requires Enabled(s, m)
  {
    match m
    case Begin(pid, input) => s.(writers := s.writers[pid := Queued(input)])
    case Lock(pid) => s.(lock := Some(pid), writers := s.writers[pid := Locked(s.writers[pid].input)])
    case ReadTip(pid, last) => s.(writers := s.writers[pid := TipRead(s.writers[pid].input, TipOf(last))])
    case Insert(pid, now) =>
      var w := s.writers[pid];
      s.(clock := now, writers := s.writers[pid := Inserted(NewRow(env, w.input, w.tip, now))])
    case Commit(pid) =>
      s.(rows := s.rows + [s.writers[pid].row], lock := Released(s, pid), writers := s.writers - {pid})
    case Fail(pid) => s.(lock := Released(s, pid), writers := s.writers - {pid})
    case Reorder(i, columns) => s.(rows := WithColumns(s.rows, i, columns))
  }

  ghost predicate Next(env: Env, s: System, s': System) {
    exists m :: Enabled(s, m) && s' == Apply(env, s, m)
  }

  ghost predicate WriterOk(env: Env, s: System, pid: nat)
    requires pid in s.writers
  {
    var w := s.writers[pid];
    && (!w.Queued? <==> s.lock == Some(pid))
    && (w.Inserted? || ValidInput(w.input))
    && (w.TipRead? ==> w.tip == TipOf(LastRow(s.rows)))
    && (w.Inserted? ==>
          && w.row.previousChainHash == TipOf(LastRow(s.rows))
          && ValidColumns(w.row.columns) && Verifies(env, w.row)
          && w.row.createdAt <= s.clock && forall r | r in s.rows :: r.createdAt < w.row.createdAt)
  }

  ghost predicate Inv(env: Env, s: System) {
    && GoodLog(env, s.rows)
    && (forall r | r in s.rows :: r.createdAt <= s.clock)
    && (s.lock.Some? ==> s.lock.value in s.writers)
    && forall pid | pid in s.writers :: WriterOk(env, s, pid)
  }

  /** The log only grows: committed rows keep their place, hashes, times, and contents up to key order. */
  ghost predicate Extends(older: seq<Row>, newer: seq<Row>) {
    && |older| <= |newer|
    && forall i | 0 <= i < |older| ::
         && newer[i] == older[i].(columns := newer[i].columns)
         && SameColumns(older[i].columns, newer[i].columns)
  }

  lemma SameColumnsReflexive(c: Columns)
    ensures SameColumns(c, c)
  {
    SameIsReflexive(c.payloadJson);
  }

  lemma SameColumnsTransitive(a: Columns, b: Columns, c: Columns)
    requires ValidColumns(a) && ValidColumns(b) && ValidColumns(c)
    requires SameColumns(a, b) && SameColumns(b, c)
    ensures SameColumns(a, c)
  {
    SameIsEquivalence(a.payloadJson, b.payloadJson, c.payloadJson);
    if a.deltaBefore.Some? && b.deltaBefore.Some? && c.deltaBefore.Some? {
      SameIsReflexive(a.deltaBefore.value);
      SameIsReflexive(c.deltaBefore.value);
      SameIsEquivalence(a.deltaBefore.value, b.deltaBefore.value, c.deltaBefore.value);
    }
    if a.deltaAfter.Some? && b.deltaAfter.Some? && c.deltaAfter.Some? {
      SameIsReflexive(a.deltaAfter.value);
      SameIsReflexive(c.deltaAfter.value);
      SameIsEquivalence(a.deltaAfter.value, b.deltaAfter.value, c.deltaAfter.value);
    }
  }

  lemma ReorderKeepsRow(env: Env, r: Row, columns: Columns)
    requires ValidColumns(r.columns) && Verifies(env, r)
    requires ValidColumns(columns) && SameColumns(r.columns, columns)
    ensures Verifies(env, r.(columns := columns))
  {
    SameColumnsSameBlob(r.columns, columns);
    BlobOfColumnsIsValid(r.columns);
    BlobOfColumnsIsValid(columns);
    StableDecides(BlobOfColumns(r.columns), BlobOfColumns(columns));
  }

  function WithColumns(rows: seq<Row>, i: nat, columns: Columns): seq<Row>
    requires i < |rows|
  {
    rows[i := rows[i].(columns := columns)]
  }

  lemma ReorderKeepsTip(rows: seq<Row>, i: nat, columns: Columns, k: nat)
    requires i < |rows| && k <= |rows|
    ensures TipOf(LastRow(WithColumns(rows, i, columns)[..k])) == TipOf(LastRow(rows[..k]))
    ensures TipOf(LastRow(WithColumns(rows, i, columns))) == TipOf(LastRow(rows))
  {
  }

  lemma ReorderKeepsTimeOrder(rows: seq<Row>, i: nat, columns: Columns)
    requires InTimeOrder(rows) && i < |rows|
    ensures InTimeOrder(WithColumns(rows, i, columns))
  {
  }

  lemma ReorderKeepsLinked(rows: seq<Row>, i: nat, columns: Columns)
    requires Linked(rows) && i < |rows|
    ensures Linked(WithColumns(rows, i, columns))
  {
  }

  lemma ReorderKeepsVerified(env: Env, rows: seq<Row>, i: nat, columns: Columns)
    requires AllVerify(env, rows) && i < |rows|
    requires ValidColumns(columns) && SameColumns(rows[i].columns, columns)
    ensures AllVerify(env, WithColumns(rows, i, columns))
  {
    ReorderKeepsRow(env, rows[i], columns);
  }

  lemma ReorderKeepsGood(env: Env, rows: seq<Row>, i: nat, columns: Columns)
    requires GoodLog(env, rows) && i < |rows|
    requires ValidColumns(columns) && SameColumns(rows[i].columns, columns)
    ensures GoodLog(env, WithColumns(rows, i, columns))
    ensures TipOf(LastRow(WithColumns(rows, i, columns))) == TipOf(LastRow(rows))
  {
    ReorderKeepsTimeOrder(rows, i, columns);
    ReorderKeepsTip(rows, i, columns, 0);
    ReorderKeepsLinked(rows, i, columns);
    ReorderKeepsVerified(env, rows, i, columns);
  }

  /** A step that leaves the rows and the lock alone, and changes at most the writer `pid`. */
  lemma OtherWritersStayOk(env: Env, s: System, s': System, pid: nat)
    requires Inv(env, s) && s'.rows == s.rows && s.clock <= s'.clock
    requires s'.lock == s.lock || (s.lock == None && s'.lock == Some(pid)) || (s.lock == Some(pid) && s'.lock == None)
    requires forall p | p in s'.writers && p != pid :: p in s.writers && s'.writers[p] == s.writers[p]
    ensures forall p | p in s'.writers && p != pid :: WriterOk(env, s', p)
  {
  }

  lemma CommitKeepsInv(env: Env, s: System, pid: nat)
    requires Inv(env, s) && Enabled(s, Commit(pid))
    ensures Inv(env, Apply(env, s, Commit(pid)))
  {
    var s' := Apply(env, s, Commit(pid));
    assert WriterOk(env, s, pid);
    AppendKeepsGood(env, s.rows, s.writers[pid].row);
    forall p | p in s'.writers ensures WriterOk(env, s', p) { assert WriterOk(env, s, p); }
  }

  lemma ReorderKeepsInv(env: Env, s: System, i: nat, columns: Columns)
    requires Inv(env, s) && Enabled(s, Reorder(i, columns))
    ensures Inv(env, Apply(env, s, Reorder(i, columns)))
  {
    var s' := Apply(env, s, Reorder(i, columns));
    ReorderKeepsGood(env, s.rows, i, columns);
    ReorderKeepsTimes(s.rows, i, columns);
    forall p | p in s'.writers ensures WriterOk(env, s', p) { assert WriterOk(env, s, p); }
  }

  lemma BeginKeepsInv(env: Env, s: System, pid: nat, input: Input)
    requires Inv(env, s) && Enabled(s, Begin(pid, input))
    ensures Inv(env, Apply(env, s, Begin(pid, input)))
  {
    OtherWritersStayOk(env, s, Apply(env, s, Begin(pid, input)), pid);
  }

  lemma LockKeepsInv(env: Env, s: System, pid: nat)
    requires Inv(env, s) && Enabled(s, Lock(pid))
    ensures Inv(env, Apply(env, s, Lock(pid)))
  {
    assert WriterOk(env, s, pid);
    OtherWritersStayOk(env, s, Apply(env, s, Lock(pid)), pid);
  }

  lemma ReadTipKeepsInv(env: Env, s: System, pid: nat, last: Option<Row>)
    requires Inv(env, s) && Enabled(s, ReadTip(pid, last))
    ensures Inv(env, Apply(env, s, ReadTip(pid, last)))
  {
    NewestIsLast(s.rows, last);
    assert WriterOk(env, s, pid);
    OtherWritersStayOk(env, s, Apply(env, s, ReadTip(pid, last)), pid);
  }

  lemma InsertedIsOk(env: Env, s: System, pid: nat, now: int)
    requires Inv(env, s) && Enabled(s, Insert(pid, now))
    ensures WriterOk(env, Apply(env, s, Insert(pid, now)), pid)
  {
    assert WriterOk(env, s, pid);
    NewRowVerifies(env, s.writers[pid].input, s.writers[pid].tip, now);
  }

  lemma InsertKeepsInv(env: Env, s: System, pid: nat, now: int)
    requires Inv(env, s) && Enabled(s, Insert(pid, now))
    ensures Inv(env, Apply(env, s, Insert(pid, now)))
  {
    InsertedIsOk(env, s, pid, now);
    OtherWritersStayOk(env, s, Apply(env, s, Insert(pid, now)), pid);
  }

  lemma FailKeepsInv(env: Env, s: System, pid: nat)
    requires Inv(env, s) && Enabled(s, Fail(pid))
    ensures Inv(env, Apply(env, s, Fail(pid)))
  {
    assert WriterOk(env, s, pid);
    OtherWritersStayOk(env, s, Apply(env, s, Fail(pid)), pid);
  }

  lemma StepKeepsInv(env: Env, s: System, m: Move)
    requires Inv(env, s) && Enabled(s, m)
    ensures Inv(env, Apply(env, s, m))
  {
    match m {
      case Begin(pid, input) => BeginKeepsInv(env, s, pid, input);
      case Lock(pid) => LockKeepsInv(env, s, pid);
      case ReadTip(pid, last) => ReadTipKeepsInv(env, s, pid, last);
      case Insert(pid, now) => InsertKeepsInv(env, s, pid, now);
      case Commit(pid) => CommitKeepsInv(env, s, pid);
      case Fail(pid) => FailKeepsInv(env, s, pid);
      case Reorder(i, columns) => ReorderKeepsInv(env, s, i, columns);
    }
  }

  lemma ReorderKeepsTimes(rows: seq<Row>, i: nat, columns: Columns)
    requires i < |rows|
    ensures forall r | r in WithColumns(rows, i, columns) ::
              exists q :: q in rows && q.createdAt == r.createdAt
  {
  }

  lemma StepExtends(env: Env, s: System, m: Move)
    requires Enabled(s, m)
    ensures Extends(s.rows, Apply(env, s, m).rows)
  {
    forall i | 0 <= i < |s.rows| ensures SameColumns(s.rows[i].columns, s.rows[i].columns) {
      SameColumnsReflexive(s.rows[i].columns);
    }
  }

  lemma ExtendsTransitive(env: Env, a: seq<Row>, b: seq<Row>, c: seq<Row>)
    requires GoodLog(env, a) && GoodLog(env, b) && GoodLog(env, c)
    requires Extends(a, b) && Extends(b, c)
    ensures Extends(a, c)
  {
    forall i | 0 <= i < |a| ensures SameColumns(a[i].columns, c[i].columns) {
      SameColumnsTransitive(a[i].columns, b[i].columns, c[i].columns);
    }
  }

  // ----- Whole runs -----

  ghost predicate NextAt(env: Env, states: seq<System>, i: nat)
    requires i + 1 < |states|
  {
    Next(env, states[i], states[i + 1])
  }

  ghost predicate Run(env: Env, states: seq<System>) {
    && states != [] && states[0] == INITIAL
    && forall i | 0 <= i < |states| - 1 :: NextAt(env, states, i)
  }

  lemma {:induction false} RunKeepsInv(env: Env, states: seq<System>, n: nat)
    requires Run(env, states) && n < |states|
    ensures Inv(env, states[n])
  {
    if n > 0 {
      RunKeepsInv(env, states, n - 1);
      assert NextAt(env, states, n - 1);
      var m :| Enabled(states[n - 1], m) && states[n] == Apply(env, states[n - 1], m);
      StepKeepsInv(env, states[n - 1], m);
    }
  }

  lemma ExtendsReflexive(rows: seq<Row>)
    ensures Extends(rows, rows)
  {
    forall k | 0 <= k < |rows| ensures SameColumns(rows[k].columns, rows[k].columns) { SameColumnsReflexive(rows[k].columns); }
  }

  lemma NextExtends(env: Env, s: System, s': System)
    requires Next(env, s, s')
    ensures Extends(s.rows, s'.rows)
  {
    var m :| Enabled(s, m) && s' == Apply(env, s, m);
    StepExtends(env, s, m);
  }

  lemma RunKeepsGood(env: Env, states: seq<System>, n: nat)
    requires Run(env, states) && n < |states|
    ensures GoodLog(env, states[n].rows)
  {
    RunKeepsInv(env, states, n);
  }

  lemma RunGrowsOnce(env: Env, states: seq<System>, j: nat)
    requires Run(env, states) && j + 1 < |states|
    ensures Extends(states[j].rows, states[j + 1].rows)
  {
    assert NextAt(env, states, j);
    NextExtends(env, states[j], states[j + 1]);
  }

  lemma GrowsOnceMore(env: Env, states: seq<System>, i: nat, j: nat)
    requires Run(env, states) && i <= j && j + 1 < |states| && Extends(states[i].rows, states[j].rows)
    ensures Extends(states[i].rows, states[j + 1].rows)
  {
    RunGrowsOnce(env, states, j);
    RunKeepsGood(env, states, i);
    RunKeepsGood(env, states, j);
    RunKeepsGood(env, states, j + 1);
    ExtendsTransitive(env, states[i].rows, states[j].rows, states[j + 1].rows);
  }

  lemma {:induction false} LogOnlyGrows(env: Env, states: seq<System>, i: nat, j: nat)
    requires Run(env, states) && i <= j < |states|
    ensures Extends(states[i].rows, states[j].rows)
    decreases j
  {
    if i == j {
      ExtendsReflexive(states[i].rows);
    } else {
      LogOnlyGrows(env, states, i, j - 1);
      GrowsOnceMore(env, states, i, j - 1);
    }
  }

  /** However the calls interleave and fail: the committed log is at every moment one unforked chain
      whose rows all verify from their stored columns, and it only ever grows. */
  lemma InterleavingsAreSafe(env: Env, states: seq<System>, i: nat, j: nat)
    requires Run(env, states) && i <= j < |states|
    ensures GoodLog(env, states[j].rows)
    ensures Extends(states[i].rows, states[j].rows)
  {
    RunKeepsGood(env, states, j);
    LogOnlyGrows(env, states, i, j);
  }

  /** Mutual exclusion: two writers are never both past the lock. */
  lemma OneWriterPastTheLock(env: Env, states: seq<System>, n: nat, p: nat, q: nat)
    requires Run(env, states) && n < |states|
    requires p in states[n].writers && !states[n].writers[p].Queued?
    requires q in states[n].writers && !states[n].writers[q].Queued?
    ensures p == q
  {
    RunKeepsInv(env, states, n);
    assert WriterOk(env, states[n], p) && WriterOk(env, states[n], q);
  }

  // ----- A call can always complete -----

  /** The system after a queued call has run from lock to commit: one row more, linked to the last; the lock is free
      and the call is gone. */
  ghost function Completed(env: Env, s: System, pid: nat, now: int): System
    requires pid in s.writers && s.writers[pid].Queued?
  {
    System(s.rows + [NewRow(env, s.writers[pid].input, TipOf(LastRow(s.rows)), now)], None, s.writers - {pid}, now)
  }

  /** The system with this call at this place, and the lock held by it. */
  function Holding(s: System, pid: nat, w: Writer): System {
    s.(lock := Some(pid), writers := s.writers[pid := w])
  }

  lemma LockStep(env: Env, s: System, pid: nat)
    requires pid in s.writers && s.writers[pid].Queued? && s.lock == None
    ensures Next(env, s, Holding(s, pid, Locked(s.writers[pid].input)))
  {
    assert Enabled(s, Lock(pid)) && Apply(env, s, Lock(pid)) == Holding(s, pid, Locked(s.writers[pid].input));
  }

  lemma ReadStep(env: Env, s: System, pid: nat, input: Input)
    requires InTimeOrder(s.rows)
    ensures Next(env, Holding(s, pid, Locked(input)), Holding(s, pid, TipRead(input, TipOf(LastRow(s.rows)))))
  {
    var s', m := Holding(s, pid, Locked(input)), ReadTip(pid, LastRow(s.rows));
    NewestIsLast(s.rows, LastRow(s.rows));
    assert Enabled(s', m);
    assert s'.writers[pid := TipRead(input, TipOf(LastRow(s.rows)))] == s.writers[pid := TipRead(input, TipOf(LastRow(s.rows)))];
    assert Apply(env, s', m) == Holding(s, pid, TipRead(input, TipOf(LastRow(s.rows))));
  }

  lemma InsertStep(env: Env, s: System, pid: nat, input: Input, tip: Option<Digest>, now: int)
    requires s.clock < now
    ensures Next(env, Holding(s, pid, TipRead(input, tip)), Holding(s, pid, Inserted(NewRow(env, input, tip, now))).(clock := now))
  {
    var s', m := Holding(s, pid, TipRead(input, tip)), Insert(pid, now);
    var w := Inserted(NewRow(env, input, tip, now));
    assert Enabled(s', m);
    assert s'.writers[pid := w] == s.writers[pid := w];
    assert Apply(env, s', m) == Holding(s, pid, w).(clock := now);
  }

  lemma CommitStep(env: Env, s: System, pid: nat, row: Row, now: int)
    ensures Next(env, Holding(s, pid, Inserted(row)).(clock := now), System(s.rows + [row], None, s.writers - {pid}, now))
  {
    var s', m := Holding(s, pid, Inserted(row)).(clock := now), Commit(pid);
    assert Enabled(s', m);
    assert s'.writers - {pid} == s.writers - {pid};
    assert Apply(env, s', m) == System(s.rows + [row], None, s.writers - {pid}, now);
  }

  ghost predicate FourSteps(env: Env, s: System, s1: System, s2: System, s3: System, s4: System) {
    Next(env, s, s1) && Next(env, s1, s2) && Next(env, s2, s3) && Next(env, s3, s4)
  }

  /** While the lock is free a queued call completes in four steps, at any later clock reading. */
  lemma CallCompletes(env: Env, s: System, pid: nat, now: int)
    requires Inv(env, s) && pid in s.writers && s.writers[pid].Queued? && s.lock == None && s.clock < now
    ensures exists s1, s2, s3 :: FourSteps(env, s, s1, s2, s3, Completed(env, s, pid, now))
  {
    var input, tip := s.writers[pid].input, TipOf(LastRow(s.rows));
    var row := NewRow(env, input, tip, now);
    LockStep(env, s, pid);
    ReadStep(env, s, pid, input);
    InsertStep(env, s, pid, input, tip, now);
    CommitStep(env, s, pid, row, now);
    assert FourSteps(env, s, Holding(s, pid, Locked(input)), Holding(s, pid, TipRead(input, tip)),
                     Holding(s, pid, Inserted(row)).(clock := now), Completed(env, s, pid, now));
  }

  /** The move takes a call on its way. */
  predicate Advances(m: Move) { m.Lock? || m.ReadTip? || m.Insert? || m.Commit? }

  ghost predicate CanAdvance(s: System) { exists m :: Advances(m) && Enabled(s, m) }

  /** As long as calls are in flight one of them can go on: the lock holder, or, if there is none, any. */
  lemma NeverStuck(env: Env, s: System)
    requires Inv(env, s) && s.writers != map[]
    ensures CanAdvance(s)
  {
    if s.lock.Some? {
      HolderAdvances(env, s, s.lock.value);
    } else {
      var pid :| pid in s.writers;
      assert WriterOk(env, s, pid);
      assert Advances(Lock(pid)) && Enabled(s, Lock(pid));
    }
  }

  lemma HolderAdvances(env: Env, s: System, pid: nat)
    requires Inv(env, s) && s.lock == Some(pid)
    ensures CanAdvance(s)
  {
    assert WriterOk(env, s, pid);
    match s.writers[pid] {
      case Locked(_) =>
        NewestIsLast(s.rows, LastRow(s.rows));
        assert Advances(ReadTip(pid, LastRow(s.rows))) && Enabled(s, ReadTip(pid, LastRow(s.rows)));
      case TipRead(_, _) => assert Advances(Insert(pid, s.clock + 1)) && Enabled(s, Insert(pid, s.clock + 1));
      case Inserted(_) => assert Advances(Commit(pid)) && Enabled(s, Commit(pid));
    }
  }
}
