/** Why the clock must move forward: the log that results when each new row links to a newest row, whatever
    the clock says, and whichever of several newest rows the database returns. */
module AuditForks {
  import opened Wrappers
  import opened Texts
  import opened AuditChain
  import opened AuditLog

  // ----- Logs as they are written -----

  /** The row that was read before row `k` was written, absent for the first. */
  function ReadRow(rows: seq<Row>, parents: seq<nat>, k: nat): Option<Row>
    requires k < |rows| && k < |parents| && (k > 0 ==> parents[k] < k)
  {
    if k == 0 then None else Some(rows[parents[k]])
  }

  /** Row `k` is what `recordAudit` appends after reading row `parents[k]` as a newest one. */
  ghost predicate WrittenAt(env: Env, inputs: seq<Input>, times: seq<int>, rows: seq<Row>, parents: seq<nat>, k: nat)
    requires |inputs| == |times| == |rows| == |parents| && k < |rows|
  {
    && (k > 0 ==> parents[k] < k)
    && IsNewest(rows[..k], ReadRow(rows, parents, k))
    && rows[k] == NewRow(env, inputs[k], TipOf(ReadRow(rows, parents, k)), times[k])
  }

  /** A log the inputs and clock readings can produce, with the row read each time. */
  ghost predicate Written(env: Env, inputs: seq<Input>, times: seq<int>, rows: seq<Row>, parents: seq<nat>) {
    && |inputs| == |times| == |rows| == |parents|
    && forall k | 0 <= k < |rows| :: WrittenAt(env, inputs, times, rows, parents, k)
  }

  /** Each row links to the one written just before it. */
  predicate Unforked(parents: seq<nat>) {
    forall k | 1 <= k < |parents| :: parents[k] == k - 1
  }

  /** Every reading that another row follows is later than the one before it. */
  predicate MovesForward(times: seq<int>) {
    forall k | 1 <= k < |times| - 1 :: times[k - 1] < times[k]
  }

  lemma ReadsNewest(env: Env, inputs: seq<Input>, times: seq<int>, rows: seq<Row>, parents: seq<nat>, k: nat, i: nat)
    requires Written(env, inputs, times, rows, parents) && i < k < |rows|
    ensures parents[k] < k && times[i] <= times[parents[k]]
  {
    assert WrittenAt(env, inputs, times, rows, parents, k) && WrittenAt(env, inputs, times, rows, parents, i);
    assert WrittenAt(env, inputs, times, rows, parents, parents[k]);
    assert rows[..k][i] == rows[i] && rows[..k][i] in rows[..k];
  }

  lemma {:induction false} EarlierIsLess(times: seq<int>, i: nat, n: nat)
    requires MovesForward(times) && i < n < |times| - 1
    ensures times[i] < times[n]
    decreases n
  {
    if i < n - 1 { EarlierIsLess(times, i, n - 1); }
  }

  lemma ForwardIsUnforked(env: Env, inputs: seq<Input>, times: seq<int>, rows: seq<Row>, parents: seq<nat>)
    requires Written(env, inputs, times, rows, parents) && MovesForward(times)
    ensures Unforked(parents)
  {
    forall k | 1 <= k < |parents| ensures parents[k] == k - 1 {
      ReadsNewest(env, inputs, times, rows, parents, k, k - 1);
      if parents[k] < k - 1 { EarlierIsLess(times, parents[k], k - 1); }
    }
  }

  // ----- The log of a database that returns the earliest of the newest rows -----

  function EarliestNewest(times: seq<int>): (k: nat)
    requires times != []
    ensures k < |times|
    ensures forall i | 0 <= i < |times| :: times[i] <= times[k]
    ensures forall i | 0 <= i < k :: times[i] < times[k]
  {
    if |times| == 1 then 0
    else
      var init := times[..|times| - 1];
      var k := EarliestNewest(init);
      assert forall i | 0 <= i < |init| :: init[i] == times[i];
      if times[k] < times[|times| - 1] then |times| - 1 else k
  }

  function EarliestReads(times: seq<int>): (parents: seq<nat>)
    ensures |parents| == |times|
    ensures forall k | 0 <= k < |times| :: parents[k] == if k == 0 then 0 else EarliestNewest(times[..k])
  {
    seq(|times|, k requires 0 <= k < |times| => if k == 0 then 0 else EarliestNewest(times[..k]))
  }

  /** The row appended to `rows` when the earliest newest row is read. */
  function NextRow(env: Env, rows: seq<Row>, times: seq<int>, input: Input, now: int): Row
    requires |rows| == |times|
  {
    NewRow(env, input, if rows == [] then None else Some(rows[EarliestNewest(times)].chainHash), now)
  }

  function Produced(env: Env, inputs: seq<Input>, times: seq<int>): (rows: seq<Row>)
    requires |inputs| == |times|
    ensures |rows| == |times|
    decreases |times|
  {
    if times == [] then []
    else
      var n := |times| - 1;
      var before := Produced(env, inputs[..n], times[..n]);
      before + [NextRow(env, before, times[..n], inputs[n], times[n])]
  }

  lemma ProducedDropLast(env: Env, inputs: seq<Input>, times: seq<int>)
    requires |inputs| == |times| && times != []
    ensures var n := |times| - 1; Produced(env, inputs, times)[..n] == Produced(env, inputs[..n], times[..n])
  {
    var n := |times| - 1;
    var before := Produced(env, inputs[..n], times[..n]);
    assert (before + [NextRow(env, before, times[..n], inputs[n], times[n])])[..n] == before;
  }

  lemma TakeTake<T>(s: seq<T>, n: nat, k: nat)
    requires k <= n <= |s|
    ensures s[..n][..k] == s[..k]
  {
  }

  lemma {:induction false} ProducedPrefix(env: Env, inputs: seq<Input>, times: seq<int>, k: nat)
    requires |inputs| == |times| && k <= |times|
    ensures Produced(env, inputs, times)[..k] == Produced(env, inputs[..k], times[..k])
    decreases |times|
  {
    if k == |times| {
      assert inputs[..k] == inputs && times[..k] == times;
    } else {
      var n := |times| - 1;
      ProducedDropLast(env, inputs, times);
      ProducedPrefix(env, inputs[..n], times[..n], k);
      TakeTake(inputs, n, k);
      TakeTake(times, n, k);
      TakeTake(Produced(env, inputs, times), n, k);
    }
  }

  lemma LastProduced(env: Env, inputs: seq<Input>, times: seq<int>)
    requires |inputs| == |times| && times != []
    ensures var n := |times| - 1;
            Produced(env, inputs, times)[n] == NextRow(env, Produced(env, inputs[..n], times[..n]), times[..n], inputs[n], times[n])
  {
  }

  lemma ProducedAt(env: Env, inputs: seq<Input>, times: seq<int>, k: nat)
    requires |inputs| == |times| && k < |times|
    ensures var rows := Produced(env, inputs, times);
            rows[k] == NextRow(env, rows[..k], times[..k], inputs[k], times[k])
  {
    ProducedPrefix(env, inputs, times, k);
    ProducedPrefix(env, inputs, times, k + 1);
    TakeTake(inputs, k + 1, k);
    TakeTake(times, k + 1, k);
    LastProduced(env, inputs[..k + 1], times[..k + 1]);
    assert Produced(env, inputs, times)[..k + 1][k] == Produced(env, inputs, times)[k];
  }

  lemma ProducedTime(env: Env, inputs: seq<Input>, times: seq<int>, k: nat)
    requires |inputs| == |times| && k < |times|
    ensures Produced(env, inputs, times)[k].createdAt == times[k]
  {
    ProducedAt(env, inputs, times, k);
  }

  /** The earliest newest time picks out a newest row. */
  lemma EarliestIsNewest(rows: seq<Row>, times: seq<int>)
    requires |rows| == |times| > 0 && forall i | 0 <= i < |rows| :: rows[i].createdAt == times[i]
    ensures IsNewest(rows, Some(rows[EarliestNewest(times)]))
  {
    assert rows[EarliestNewest(times)] in rows;
  }

  lemma ProducedIsWrittenAt(env: Env, inputs: seq<Input>, times: seq<int>, k: nat)
    requires |inputs| == |times| && k < |times|
    ensures WrittenAt(env, inputs, times, Produced(env, inputs, times), EarliestReads(times), k)
  {
    var rows := Produced(env, inputs, times);
    ProducedAt(env, inputs, times, k);
    if k > 0 {
      forall i | 0 <= i < k ensures rows[..k][i].createdAt == times[..k][i] { ProducedTime(env, inputs, times, i); }
      EarliestIsNewest(rows[..k], times[..k]);
      assert rows[..k][EarliestNewest(times[..k])] == rows[EarliestNewest(times[..k])];
    }
  }

  lemma ProducedIsWritten(env: Env, inputs: seq<Input>, times: seq<int>)
    requires |inputs| == |times|
    ensures Written(env, inputs, times, Produced(env, inputs, times), EarliestReads(times))
  {
    forall k | 0 <= k < |times| ensures WrittenAt(env, inputs, times, Produced(env, inputs, times), EarliestReads(times), k) {
      ProducedIsWrittenAt(env, inputs, times, k);
    }
  }

  lemma UnforkedIsForward(times: seq<int>)
    requires Unforked(EarliestReads(times))
    ensures MovesForward(times)
  {
    forall k | 1 <= k < |times| - 1 ensures times[k - 1] < times[k] {
      assert EarliestReads(times)[k + 1] == k;
      assert times[..k + 1][k - 1] < times[..k + 1][k];
    }
  }

  ghost predicate NeverForks(env: Env, inputs: seq<Input>, times: seq<int>) {
    forall rows, parents | Written(env, inputs, times, rows, parents) :: Unforked(parents)
  }

  /** Whatever newest row the database returns, every row links to the one written just before it, if and
      only if every reading that another row follows is later than the one before: an equal reading, or one
      that steps back, lets the chain fork. */
  lemma ForksUnlessClockMovesForward(env: Env, inputs: seq<Input>, times: seq<int>)
    requires |inputs| == |times|
    ensures NeverForks(env, inputs, times) <==> MovesForward(times)
  {
    if MovesForward(times) {
      forall rows, parents | Written(env, inputs, times, rows, parents) ensures Unforked(parents) {
        ForwardIsUnforked(env, inputs, times, rows, parents);
      }
    }
    if NeverForks(env, inputs, times) {
      ProducedIsWritten(env, inputs, times);
      UnforkedIsForward(times);
    }
  }

  // ----- A fork shows in the hashes -----

  /** The text whose hash the row carries. */
  function RowText(env: Env, r: Row): Text {
    Preimage(PreviousText(r.previousChainHash), BlobOfColumns(r.columns), env.iso(r.createdAt))
  }

  /** Two rows carry one hash of different texts. */
  ghost predicate RowsCollide(env: Env, rows: seq<Row>) {
    exists i: nat, j: nat :: i < |rows| && j < |rows| && RowText(env, rows[i]) != RowText(env, rows[j]) && rows[i].chainHash == rows[j].chainHash
  }

  predicate ValidInputs(inputs: seq<Input>) { forall k | 0 <= k < |inputs| :: ValidInput(inputs[k]) }

  lemma WrittenRow(env: Env, inputs: seq<Input>, times: seq<int>, rows: seq<Row>, parents: seq<nat>, k: nat)
    requires Written(env, inputs, times, rows, parents) && ValidInputs(inputs) && k < |rows|
    ensures k > 0 ==> parents[k] < k && rows[k].previousChainHash == Some(rows[parents[k]].chainHash)
    ensures k == 0 ==> rows[k].previousChainHash == None
    ensures ValidColumns(rows[k].columns) && Verifies(env, rows[k])
  {
    assert WrittenAt(env, inputs, times, rows, parents, k);
    NewRowVerifies(env, inputs[k], TipOf(ReadRow(rows, parents, k)), times[k]);
  }

  lemma SameTextSamePrevious(env: Env, a: Row, b: Row)
    requires ValidColumns(a.columns) && ValidColumns(b.columns)
    requires a.previousChainHash.Some? ==> IsDigest(a.previousChainHash.value)
    requires b.previousChainHash.Some? ==> IsDigest(b.previousChainHash.value)
    requires RowText(env, a) == RowText(env, b)
    ensures a.previousChainHash == b.previousChainHash
  {
    BlobOfColumnsIsValid(a.columns);
    BlobOfColumnsIsValid(b.columns);
    PreimageSplits(PreviousText(a.previousChainHash), BlobOfColumns(a.columns), env.iso(a.createdAt),
                   PreviousText(b.previousChainHash), BlobOfColumns(b.columns), env.iso(b.createdAt));
  }

  /** In the unforked part of a log two rows have one hash only by a collision. */
  lemma {:induction false} ChainedHashesDiffer(env: Env, inputs: seq<Input>, times: seq<int>, rows: seq<Row>, parents: seq<nat>, i: nat, j: nat)
    requires Written(env, inputs, times, rows, parents) && ValidInputs(inputs)
    requires i < j < |rows| && Unforked(parents[..j + 1]) && rows[i].chainHash == rows[j].chainHash
    ensures RowsCollide(env, rows)
    decreases i
  {
    WrittenRow(env, inputs, times, rows, parents, i);
    WrittenRow(env, inputs, times, rows, parents, j);
    assert parents[..j + 1][j] == j - 1;
    if RowText(env, rows[i]) == RowText(env, rows[j]) {
      SameTextSamePrevious(env, rows[i], rows[j]);
      assert i > 0 && parents[..j + 1][i] == i - 1;
      assert parents[..j + 1][..j] == parents[..j];
      UnforkedPrefix(parents, j);
      ChainedHashesDiffer(env, inputs, times, rows, parents, i - 1, j - 1);
    }
  }

  lemma UnforkedPrefix(parents: seq<nat>, j: nat)
    requires j < |parents| && Unforked(parents[..j + 1])
    ensures Unforked(parents[..j])
  {
    forall k | 1 <= k < j ensures parents[..j][k] == k - 1 { assert parents[..j + 1][k] == k - 1; }
  }

  predicate IsFirstFork(parents: seq<nat>, k: nat)
    requires k < |parents|
  {
    1 <= k && Unforked(parents[..k]) && parents[k] != k - 1
  }

  /** Some row is the first that does not link to its predecessor. */
  lemma {:induction false} FirstFork(parents: seq<nat>, n: nat)
    requires n <= |parents| && !Unforked(parents[..n])
    ensures exists k :: 0 <= k < |parents| && IsFirstFork(parents, k)
  {
    var bad :| 1 <= bad < n && parents[..n][bad] != bad - 1;
    if Unforked(parents[..bad]) {
      assert IsFirstFork(parents, bad);
    } else {
      FirstFork(parents, bad);
    }
  }

  lemma {:induction false} UnforkedIsLinked(env: Env, inputs: seq<Input>, times: seq<int>, rows: seq<Row>, parents: seq<nat>)
    requires Written(env, inputs, times, rows, parents) && ValidInputs(inputs) && Unforked(parents)
    ensures Linked(rows)
  {
    forall k | 0 <= k < |rows| ensures rows[k].previousChainHash == TipOf(LastRow(rows[..k])) {
      WrittenRow(env, inputs, times, rows, parents, k);
      if k > 0 { assert rows[..k][k - 1] == rows[k - 1] && parents[k] == k - 1; }
    }
  }

  lemma {:induction false} ForkedIsNotLinked(env: Env, inputs: seq<Input>, times: seq<int>, rows: seq<Row>, parents: seq<nat>)
    requires Written(env, inputs, times, rows, parents) && ValidInputs(inputs) && !Unforked(parents) && Linked(rows)
    ensures RowsCollide(env, rows)
  {
    assert parents[..|parents|] == parents;
    FirstFork(parents, |parents|);
    var k :| 0 <= k < |parents| && IsFirstFork(parents, k);
    WrittenRow(env, inputs, times, rows, parents, k);
    assert rows[k].previousChainHash == TipOf(LastRow(rows[..k]));
    assert parents[..k - 1 + 1] == parents[..k];
    ChainedHashesDiffer(env, inputs, times, rows, parents, parents[k], k - 1);
  }

  /** In the stored hashes: the rows form one chain if and only if the log did not fork, unless two of its
      texts have one hash. */
  lemma ForkShowsInHashes(env: Env, inputs: seq<Input>, times: seq<int>, rows: seq<Row>, parents: seq<nat>)
    requires Written(env, inputs, times, rows, parents) && ValidInputs(inputs)
    ensures RowsCollide(env, rows) || (Linked(rows) <==> Unforked(parents))
  {
    if Unforked(parents) { UnforkedIsLinked(env, inputs, times, rows, parents); }
    if !Unforked(parents) && Linked(rows) { ForkedIsNotLinked(env, inputs, times, rows, parents); }
  }

  // ----- Two forked logs -----

  lemma ThreeReads(times: seq<int>)
    requires |times| == 3 && times[1] <= times[0]
    ensures EarliestReads(times)[1] == 0 && EarliestReads(times)[2] == 0
  {
    assert times[..1][0] == times[0] && times[..2][0] == times[0] && times[..2][1] == times[1];
  }

  /** Three rows, the second read at the time of the first, or before it: the third, however late, may link
      to the first again. */
  lemma ForkedLog(env: Env, inputs: seq<Input>, times: seq<int>)
    requires |inputs| == |times| == 3 && times[1] <= times[0] && ValidInputs(inputs)
    ensures var rows, parents := Produced(env, inputs, times), EarliestReads(times);
            && Written(env, inputs, times, rows, parents)
            && rows[1].previousChainHash == rows[2].previousChainHash == Some(rows[0].chainHash)
            && (Linked(rows) ==> RowsCollide(env, rows))
  {
    var rows, parents := Produced(env, inputs, times), EarliestReads(times);
    ThreeReads(times);
    ProducedIsWritten(env, inputs, times);
    WrittenRow(env, inputs, times, rows, parents, 1);
    WrittenRow(env, inputs, times, rows, parents, 2);
    ForkShowsInHashes(env, inputs, times, rows, parents);
    assert !Unforked(parents);
  }

  /** Two rows written in one millisecond. */
  lemma EqualReadingForks(env: Env, inputs: seq<Input>)
    requires |inputs| == 3 && ValidInputs(inputs)
    ensures var times := [1000, 1000, 1001];
            var rows := Produced(env, inputs, times);
            && Written(env, inputs, times, rows, EarliestReads(times))
            && rows[1].previousChainHash == rows[2].previousChainHash == Some(rows[0].chainHash)
            && (Linked(rows) ==> RowsCollide(env, rows))
  {
    ForkedLog(env, inputs, [1000, 1000, 1001]);
  }

  /** A clock set back by one millisecond. */
  lemma BackwardReadingForks(env: Env, inputs: seq<Input>)
    requires |inputs| == 3 && ValidInputs(inputs)
    ensures var times := [1000, 999, 1001];
            var rows := Produced(env, inputs, times);
            && Written(env, inputs, times, rows, EarliestReads(times))
            && rows[1].previousChainHash == rows[2].previousChainHash == Some(rows[0].chainHash)
            && (Linked(rows) ==> RowsCollide(env, rows))
  {
    ForkedLog(env, inputs, [1000, 999, 1001]);
  }
}
