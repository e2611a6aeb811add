/** The fixed-window rate limiters: buckets in a shared map, reset by the first request after their window. */
module RateLimit {
  import opened Wrappers
  import opened Texts

  // ----- What one request does to its bucket -----

  /** Requests counted since the window opened, and the last moment that belongs to it. */
  datatype Window = Window(n: nat, reset: int)

  function Counted(w: Option<Window>, now: int, windowMs: int): Window {
    if w.None? || now > w.value.reset then Window(1, now + windowMs) else w.value.(n := w.value.n + 1)
  }

  /** The general limiter's decision. */
  predicate Admitted(w: Option<Window>, now: int, windowMs: int, max: nat) {
    Counted(w, now, windowMs).n <= max
  }

  /** The partner limiter admits the first request of a new key without looking at the limit. */
  predicate PartnerAdmitted(w: Option<Window>, now: int, windowMs: int, max: nat) {
    w.None? || Counted(w, now, windowMs).n <= max
  }

  // ----- A run of requests for one key -----

  predicate NonDecreasing(times: seq<int>) {
    forall i, j | 0 <= i < j < |times| :: times[i] <= times[j]
  }

  function Decisions(w: Option<Window>, times: seq<int>, windowMs: int, max: nat): seq<bool>
    decreases |times|
  {
    if times == [] then []
    else [Admitted(w, times[0], windowMs, max)] + Decisions(Some(Counted(w, times[0], windowMs)), times[1..], windowMs, max)
  }

  function PartnerDecisions(w: Option<Window>, times: seq<int>, windowMs: int, max: nat): seq<bool>
    decreases |times|
  {
    if times == [] then []
    else [PartnerAdmitted(w, times[0], windowMs, max)]
         + PartnerDecisions(Some(Counted(w, times[0], windowMs)), times[1..], windowMs, max)
  }

  /** The requests admitted in the closed interval from `lo` to `hi`. */
  function AdmittedIn(w: Option<Window>, times: seq<int>, windowMs: int, max: nat, lo: int, hi: int): nat
    decreases |times|
  {
    if times == [] then 0
    else
      var rest := AdmittedIn(Some(Counted(w, times[0], windowMs)), times[1..], windowMs, max, lo, hi);
      if lo <= times[0] <= hi && Admitted(w, times[0], windowMs, max) then rest + 1 else rest
  }

  lemma {:induction false} NoneAfterTheEnd(w: Option<Window>, times: seq<int>, windowMs: int, max: nat, lo: int, hi: int)
    requires NonDecreasing(times) && (times != [] ==> times[0] > hi)
    ensures AdmittedIn(w, times, windowMs, max, lo, hi) == 0
    decreases |times|
  {
    if times != [] { NoneAfterTheEnd(Some(Counted(w, times[0], windowMs)), times[1..], windowMs, max, lo, hi); }
  }

  /** What an open window has left. */
  function Left(w: Window, max: nat): nat { if w.n < max then max - w.n else 0 }

  /** With `j` more windows fitting before `hi`, at most what the open one has left and `j` times the limit. */
  lemma {:induction false} OpenWindowBound(w: Window, times: seq<int>, windowMs: int, max: nat, lo: int, hi: int, j: nat)
    requires NonDecreasing(times) && windowMs > 0 && hi <= w.reset + j * windowMs
    ensures AdmittedIn(Some(w), times, windowMs, max, lo, hi) <= Left(w, max) + j * max
    decreases |times|
  {
    if times != [] {
      var t := times[0];
      var next := Counted(Some(w), t, windowMs);
      if t > hi {
        NoneAfterTheEnd(Some(w), times, windowMs, max, lo, hi);
      } else if t <= w.reset {
        OpenWindowBound(next, times[1..], windowMs, max, lo, hi, j);
      } else {
        if j == 0 { assert false; }
        assert j * windowMs == (j - 1) * windowMs + windowMs && j * max == (j - 1) * max + max;
        OpenWindowBound(next, times[1..], windowMs, max, lo, hi, j - 1);
      }
    }
  }

  /** The state of a key: no bucket yet, or one that has counted at least one request. */
  predicate Reachable(w: Option<Window>) { w.Some? ==> w.value.n >= 1 }

  /** Any closed interval as long as `k` windows admits fewer than k + 1 times the limit. */
  lemma {:induction false} IntervalBound(w: Option<Window>, times: seq<int>, windowMs: int, max: nat, lo: int, k: nat)
    requires NonDecreasing(times) && windowMs > 0 && k >= 1 && max >= 1 && Reachable(w)
    ensures AdmittedIn(w, times, windowMs, max, lo, lo + k * windowMs) < (k + 1) * max
    decreases |times|
  {
    var hi := lo + k * windowMs;
    assert (k + 1) * max == k * max + max && k * max >= 0;
    if times != [] {
      var t := times[0];
      var next := Counted(w, t, windowMs);
      if t < lo {
        IntervalBound(Some(next), times[1..], windowMs, max, lo, k);
      } else if t > hi {
        NoneAfterTheEnd(w, times, windowMs, max, lo, hi);
      } else if w.Some? && t <= w.value.reset {
        OpenWindowBound(w.value, times, windowMs, max, lo, hi, k);
      } else {
        assert k * windowMs == (k - 1) * windowMs + windowMs && k * max == (k - 1) * max + max;
        OpenWindowBound(next, times[1..], windowMs, max, lo, hi, k - 1);
      }
    }
  }

  lemma {:induction false} NothingWithoutLimit(w: Option<Window>, times: seq<int>, windowMs: int, lo: int, hi: int)
    ensures AdmittedIn(w, times, windowMs, 0, lo, hi) == 0
    decreases |times|
  {
    if times != [] { NothingWithoutLimit(Some(Counted(w, times[0], windowMs)), times[1..], windowMs, lo, hi); }
  }

  /** Any closed interval of length k times the window admits at most (k + 1) times the limit, for any
      non-decreasing clock. */
  lemma AtMostOneWindowMore(times: seq<int>, windowMs: int, max: nat, lo: int, k: nat)
    requires NonDecreasing(times) && windowMs > 0 && k >= 1
    ensures AdmittedIn(None, times, windowMs, max, lo, lo + k * windowMs) <= (k + 1) * max
  {
    if max == 0 {
      NothingWithoutLimit(None, times, windowMs, lo, lo + k * windowMs);
    } else {
      IntervalBound(None, times, windowMs, max, lo, k);
    }
  }

  // ----- The bound is reached -----

  /** `n` requests at one moment. */
  function Burst(t: int, n: nat): seq<int> { if n == 0 then [] else [t] + Burst(t, n - 1) }

  /** A full burst at the start of each window from number `i` to number `k`, where window `i` opens one tick
      after the one before it ends. */
  function Bursts(i: nat, k: nat, windowMs: int, max: nat): seq<int>
    decreases k - i
  {
    if i > k then [] else Burst(i * (windowMs + 1), max) + Bursts(i + 1, k, windowMs, max)
  }

  /** One request opens the first window; the rest of its limit comes as it ends, and full bursts follow. */
  function Worst(k: nat, windowMs: int, max: nat): seq<int>
    requires max >= 1
  {
    [0] + (Burst(windowMs, max - 1) + Bursts(1, k, windowMs, max))
  }

  predicate AllFrom(times: seq<int>, t: int) { forall i | 0 <= i < |times| :: t <= times[i] }

  lemma {:induction false} BurstIsFlat(t: int, n: nat)
    ensures forall i | 0 <= i < |Burst(t, n)| :: Burst(t, n)[i] == t
  {
    if n > 0 { BurstIsFlat(t, n - 1); }
  }

  lemma NonDecreasingConcat(a: seq<int>, b: seq<int>, t: int)
    requires NonDecreasing(a) && NonDecreasing(b) && AllFrom(b, t) && forall i | 0 <= i < |a| :: a[i] <= t
    ensures NonDecreasing(a + b)
  {
  }

  lemma {:induction false} BurstsAreOrdered(i: nat, k: nat, windowMs: int, max: nat)
    requires windowMs > 0
    ensures NonDecreasing(Bursts(i, k, windowMs, max)) && AllFrom(Bursts(i, k, windowMs, max), i * (windowMs + 1))
    decreases k - i
  {
    if i <= k {
      BurstsAreOrdered(i + 1, k, windowMs, max);
      BurstIsFlat(i * (windowMs + 1), max);
      assert (i + 1) * (windowMs + 1) == i * (windowMs + 1) + windowMs + 1;
      NonDecreasingConcat(Burst(i * (windowMs + 1), max), Bursts(i + 1, k, windowMs, max), i * (windowMs + 1));
    }
  }

  lemma WorstIsOrdered(k: nat, windowMs: int, max: nat)
    requires windowMs > 0 && max >= 1
    ensures NonDecreasing(Worst(k, windowMs, max))
  {
    BurstsAreOrdered(1, k, windowMs, max);
    BurstIsFlat(windowMs, max - 1);
    NonDecreasingConcat(Burst(windowMs, max - 1), Bursts(1, k, windowMs, max), windowMs);
    NonDecreasingConcat([0], Burst(windowMs, max - 1) + Bursts(1, k, windowMs, max), 0);
  }

  /** A burst that fits the open window is admitted whole. */
  lemma {:induction false} BurstIsAdmitted(w: Window, t: int, n: nat, rest: seq<int>, windowMs: int, max: nat, lo: int, hi: int)
    requires t <= w.reset && w.n + n <= max && lo <= t <= hi
    ensures AdmittedIn(Some(w), Burst(t, n) + rest, windowMs, max, lo, hi)
         == n + AdmittedIn(Some(Window(w.n + n, w.reset)), rest, windowMs, max, lo, hi)
    decreases n
  {
    if n == 0 {
      assert Burst(t, n) + rest == rest;
    } else {
      var all := Burst(t, n) + rest;
      assert all[0] == t && all[1..] == Burst(t, n - 1) + rest;
      BurstIsAdmitted(Window(w.n + 1, w.reset), t, n - 1, rest, windowMs, max, lo, hi);
    }
  }

  /** So is one that opens a window. */
  lemma OpeningBurst(w: Window, t: int, rest: seq<int>, windowMs: int, max: nat, lo: int, hi: int)
    requires t > w.reset && windowMs > 0 && max >= 1 && lo <= t <= hi
    ensures AdmittedIn(Some(w), Burst(t, max) + rest, windowMs, max, lo, hi)
         == max + AdmittedIn(Some(Window(max, t + windowMs)), rest, windowMs, max, lo, hi)
  {
    var all := Burst(t, max) + rest;
    assert all[0] == t && all[1..] == Burst(t, max - 1) + rest;
    BurstIsAdmitted(Window(1, t + windowMs), t, max - 1, rest, windowMs, max, lo, hi);
  }

  lemma {:induction false} BurstsAreAdmitted(w: Window, i: nat, k: nat, windowMs: int, max: nat, lo: int, hi: int)
    requires windowMs > 0 && max >= 1 && 1 <= i <= k + 1 && w.reset < i * (windowMs + 1) && lo <= windowMs + 1
    requires k * (windowMs + 1) <= hi
    ensures AdmittedIn(Some(w), Bursts(i, k, windowMs, max), windowMs, max, lo, hi) == (k + 1 - i) * max
    decreases k - i
  {
    if i <= k {
      var t := i * (windowMs + 1);
      assert windowMs + 1 <= t <= k * (windowMs + 1) by {
        assert (i - 1) * (windowMs + 1) >= 0 && (k - i) * (windowMs + 1) >= 0;
        assert i * (windowMs + 1) == (i - 1) * (windowMs + 1) + (windowMs + 1);
        assert k * (windowMs + 1) == (k - i) * (windowMs + 1) + i * (windowMs + 1);
      }
      assert (i + 1) * (windowMs + 1) == t + windowMs + 1;
      OpeningBurst(w, t, Bursts(i + 1, k, windowMs, max), windowMs, max, lo, hi);
      BurstsAreAdmitted(Window(max, t + windowMs), i + 1, k, windowMs, max, lo, hi);
      assert (k + 1 - i) * max == (k - i) * max + max;
    }
  }

  /** As long as the interval spans no more windows than a window has ticks, the strict bound is reached: some
      requests get one admission less than k + 1 times the limit into an interval of k windows. */
  lemma TheBoundIsReached(windowMs: int, max: nat, k: nat)
    requires max >= 1 && 1 <= k <= windowMs
    ensures NonDecreasing(Worst(k, windowMs, max))
    ensures AdmittedIn(None, Worst(k, windowMs, max), windowMs, max, windowMs, windowMs + k * windowMs) == (k + 1) * max - 1
  {
    var lo, hi := windowMs, windowMs + k * windowMs;
    var bursts := Bursts(1, k, windowMs, max);
    var w := Window(1, windowMs);
    WorstIsOrdered(k, windowMs, max);
    assert k * (windowMs + 1) == k * windowMs + k && (k + 1) * max == k * max + max;
    assert Worst(k, windowMs, max)[1..] == Burst(windowMs, max - 1) + bursts;
    BurstIsAdmitted(w, windowMs, max - 1, bursts, windowMs, max, lo, hi);
    BurstsAreAdmitted(Window(max, windowMs), 1, k, windowMs, max, lo, hi);
  }

  lemma {:induction false} SameOnceOpen(w: Window, times: seq<int>, windowMs: int, max: nat)
    ensures PartnerDecisions(Some(w), times, windowMs, max) == Decisions(Some(w), times, windowMs, max)
    decreases |times|
  {
    if times != [] { SameOnceOpen(Counted(Some(w), times[0], windowMs), times[1..], windowMs, max); }
  }

  /** The partner limiter decides every request sequence like the general one if and only if the limit is
      at least one (or there are no requests). */
  lemma PartnerAgrees(times: seq<int>, windowMs: int, max: nat)
    ensures PartnerDecisions(None, times, windowMs, max) == Decisions(None, times, windowMs, max) <==> max >= 1 || times == []
  {
    if times != [] {
      SameOnceOpen(Counted(None, times[0], windowMs), times[1..], windowMs, max);
      assert PartnerDecisions(None, times, windowMs, max)[0];
      assert Decisions(None, times, windowMs, max)[0] == (1 <= max);
    }
  }

  // ----- The shared map -----

  const COLON := Units(":")
  const UNKNOWN_IP := Units("unknown")
  const API_KEY_PREFIX := Units("apik:")

  lemma {:induction false} SameUntilColon(p: Text, q: Text, x: Text, y: Text)
    requires 58 !in p && 58 !in q && p + [58] + x == q + [58] + y
    ensures p == q && x == y
  {
    var l, r := p + [58] + x, q + [58] + y;
    assert l[0] == (if p == [] then 58 else p[0]) && r[0] == (if q == [] then 58 else q[0]);
    if p != [] && q != [] {
      assert l[1..] == p[1..] + [58] + x && r[1..] == q[1..] + [58] + y;
      SameUntilColon(p[1..], q[1..], x, y);
      assert p == [p[0]] + p[1..] && q == [q[0]] + q[1..];
    } else {
      assert l[1..] == x && r[1..] == y;
    }
  }

  /** Limiters whose prefixes hold no colon never share a bucket, nor does one share a bucket with the API keys. */
  lemma BucketsAreSeparate(prefix: Text, other: Text, ip: Text, otherIp: Text, apiKeyId: Text)
    requires 58 !in prefix && 58 !in other
    ensures prefix + COLON + ip == other + COLON + otherIp ==> prefix == other && ip == otherIp
    ensures prefix + COLON + ip == API_KEY_PREFIX + apiKeyId ==> prefix == Units("apik") && ip == apiKeyId
  {
    assert COLON == [58] && API_KEY_PREFIX == Units("apik") + [58];
    if prefix + COLON + ip == other + COLON + otherIp { SameUntilColon(prefix, other, ip, otherIp); }
    if prefix + COLON + ip == API_KEY_PREFIX + apiKeyId { SameUntilColon(prefix, Units("apik"), ip, apiKeyId); }
  }

  class Bucket {
    var n: nat
    var reset: int

    constructor (n: nat, reset: int)
      ensures this.n == n && this.reset == reset
    {
      this.n, this.reset := n, reset;
    }

    function Value(): Window
      reads this
    {
      Window(n, reset)
    }
  }

  class Buckets {
    var byKey: map<Text, Bucket>

    /** Every key has a bucket of its own. */
    ghost predicate Valid()
      reads this
    {
      forall k, l | k in byKey && l in byKey && k != l :: byKey[k] != byKey[l]
    }

    function At(k: Text): Option<Window>
      reads this, byKey.Values
    {
      if k in byKey then Some(byKey[k].Value()) else None
    }

    constructor ()
      ensures Valid() && byKey == map[]
    {
      byKey := map[];
    }

    /** The body of `createRateLimiter`; `retryAfter` is what a refusal reports. */
    method Hit(k: Text, now: int, windowMs: int, max: nat) returns (admitted: bool, retryAfter: int)
      requires Valid()
      modifies this, byKey.Values
      ensures Valid() && fresh(byKey.Values - old(byKey.Values))
      ensures admitted == Admitted(old(At(k)), now, windowMs, max)
      ensures At(k) == Some(Counted(old(At(k)), now, windowMs))
      ensures forall l | l != k :: At(l) == old(At(l))
      ensures !admitted ==> retryAfter == Counted(old(At(k)), now, windowMs).reset - now
    {
      if k !in byKey || now > byKey[k].reset {
        var bucket := new Bucket(0, now + windowMs);
        byKey := byKey[k := bucket];
      }
      var b := byKey[k];
      b.n := b.n + 1;
      admitted, retryAfter := b.n <= max, b.reset - now;
    }

    method Limit(prefix: Text, ip: Option<Text>, now: int, windowMs: int, max: nat) returns (admitted: bool, retryAfter: int)
      requires Valid()
      modifies this, byKey.Values
      ensures Valid()
      ensures var k := prefix + COLON + OrElse(ip, UNKNOWN_IP);
              && admitted == Admitted(old(At(k)), now, windowMs, max)
              && At(k) == Some(Counted(old(At(k)), now, windowMs))
              && forall l | l != k :: At(l) == old(At(l))
    {
      admitted, retryAfter := Hit(prefix + COLON + OrElse(ip, UNKNOWN_IP), now, windowMs, max);
    }

    /** `createApiKeyRateLimiter`: a request without a key passes uncounted. */
    method LimitApiKey(apiKeyId: Option<Text>, now: int, windowMs: int, max: nat) returns (admitted: bool)
      requires Valid()
      modifies this, byKey.Values
      ensures Valid()
      ensures apiKeyId.None? || apiKeyId.value == [] ==> admitted && forall l :: At(l) == old(At(l))
      ensures apiKeyId.Some? && apiKeyId.value != [] ==>
                var k := API_KEY_PREFIX + apiKeyId.value;
                && admitted == Admitted(old(At(k)), now, windowMs, max)
                && At(k) == Some(Counted(old(At(k)), now, windowMs))
                && forall l | l != k :: At(l) == old(At(l))
    {
      if apiKeyId.None? || apiKeyId.value == [] { return true; }
      var ok, _ := Hit(API_KEY_PREFIX + apiKeyId.value, now, windowMs, max);
      return ok;
    }

    /** The partner middleware resets the bucket's fields in place. */
    method LimitPartner(apiKeyId: Text, now: int, windowMs: int, max: nat) returns (admitted: bool)
      requires Valid()
      modifies this, byKey.Values
      ensures Valid()
      ensures admitted == PartnerAdmitted(old(At(apiKeyId)), now, windowMs, max)
      ensures At(apiKeyId) == Some(Counted(old(At(apiKeyId)), now, windowMs))
      ensures forall l | l != apiKeyId :: At(l) == old(At(l))
    {
      if apiKeyId in byKey {
        var b := byKey[apiKeyId];
        if now > b.reset {
          b.n := 0;
          b.reset := now + windowMs;
        }
        b.n := b.n + 1;
        if b.n > max { return false; }
      } else {
        var bucket := new Bucket(1, now + windowMs);
        byKey := byKey[apiKeyId := bucket];
      }
      return true;
    }
  }
}
