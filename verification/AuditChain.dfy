/** The audit hash chain: hash(previous hash + canonical event + ISO timestamp). The hash is any
    function from text to 64 hexadecimal digits. */
module AuditChain {
  import opened Texts
  import opened Json
  import opened JsonText
  import opened Canonical

  predicate IsHexUnit(c: CodeUnit) { 48 <= c <= 57 || 97 <= c <= 102 }

  predicate IsDigest(t: Text) {
    |t| == 64 && forall i | 0 <= i < 64 :: IsHexUnit(t[i])
  }

  type Digest = t: Text | IsDigest(t) witness seq(64, _ => 48)

  /** Digits and the characters `-` `+` `:` `.` `T` `Z`. */
  predicate IsIsoUnit(c: CodeUnit) {
    IsDigit(c) || c == 45 || c == 43 || c == 58 || c == 46 || c == 84 || c == 90
  }

  predicate IsTimestamp(t: Text) {
    forall i | 0 <= i < |t| :: IsIsoUnit(t[i])
  }

  type Timestamp = t: Text | IsTimestamp(t) witness []

  /** The hash of the row before: the empty text for the first row. */
  predicate IsPrevious(t: Text) { t == [] || IsDigest(t) }

  function Preimage(previous: Text, blob: Json, at: Text): Text {
    previous + (StableStringify(blob) + at)
  }

  function ChainHash(h: Text -> Digest, previous: Text, blob: Json, at: Timestamp): Digest {
    h(Preimage(previous, blob, at))
  }

  // ----- The preimage splits in one way -----

  lemma ObjectTextIsBraced(blob: Json)
    requires blob.Obj?
    ensures var t := StableStringify(blob); |t| >= 2 && t[0] == 123 && t[|t| - 1] == 125
  {
  }

  lemma BraceIsInHead(m: Text, t: Text, m': Text, t': Text)
    requires m + t == m' + t' && IsTimestamp(t)
    requires m' != [] && m'[|m'| - 1] == 125
    ensures |m'| <= |m|
  {
    assert (m' + t')[|m'| - 1] == 125;
    assert forall i | |m| <= i < |m + t| :: IsIsoUnit((m + t)[i]);
  }

  /** Two texts that end in a brace, each followed by text without braces. */
  lemma SplitAtLastBrace(m: Text, t: Text, m': Text, t': Text)
    requires m + t == m' + t'
    requires m != [] && m[|m| - 1] == 125 && m' != [] && m'[|m'| - 1] == 125
    requires IsTimestamp(t) && IsTimestamp(t')
    ensures m == m' && t == t'
  {
    BraceIsInHead(m, t, m', t');
    BraceIsInHead(m', t', m, t);
    assert m == (m + t)[..|m|] && m' == (m' + t')[..|m|];
    assert t == (m + t)[|m|..] && t' == (m' + t')[|m|..];
  }

  /** No digest starts with a brace. */
  lemma SplitAfterPrevious(p: Text, u: Text, p': Text, u': Text)
    requires IsPrevious(p) && IsPrevious(p') && u != [] && u[0] == 123 && u' != [] && u'[0] == 123
    requires p + u == p' + u'
    ensures p == p' && u == u'
  {
    assert (p + u)[0] == if p == [] then 123 else p[0];
    assert (p' + u')[0] == if p' == [] then 123 else p'[0];
    assert p == (p + u)[..|p|] && p' == (p' + u')[..|p|];
    assert u == (p + u)[|p|..] && u' == (p' + u')[|p|..];
  }

  /** From the text that is hashed, the previous hash, the event (up to key order) and the timestamp
      can all be read back. */
  lemma PreimageSplits(p: Text, b: Json, t: Text, p': Text, b': Json, t': Text)
    requires IsPrevious(p) && IsPrevious(p') && IsTimestamp(t) && IsTimestamp(t')
    requires Valid(b) && b.Obj? && Valid(b') && b'.Obj?
    requires Preimage(p, b, t) == Preimage(p', b', t')
    ensures p == p' && t == t' && SameUpToKeyOrder(b, b')
  {
    ObjectTextIsBraced(b);
    ObjectTextIsBraced(b');
    SplitAfterPrevious(p, StableStringify(b) + t, p', StableStringify(b') + t');
    SplitAtLastBrace(StableStringify(b), t, StableStringify(b'), t');
    StableDecides(b, b');
  }

  lemma ObjectIsRead(v: Json, rest: Text)
    requires Valid(v) && v.Obj?
    ensures Read(Print(v) + rest) == Ok(v, rest)
  {
    if v.fields != [] { ReadPrintFields(v.fields, rest); }
    ReadObject(PrintFields(v.fields), v.fields, rest);
  }

  /** The hashed text is the previous hash, then a text that a JSON reader reads as the event with sorted keys, and then
      the timestamp. */
  lemma PreimageReads(p: Text, b: Json, t: Text)
    requires Valid(b) && b.Obj?
    ensures var text := Preimage(p, b, t);
            |p| <= |text| && text[..|p|] == p && Read(text[|p|..]) == Ok(Normal(Listed, b), t)
  {
    var text := Preimage(p, b, t);
    StableIsPrintOfSorted(b);
    NormalIsValid(Listed, b);
    ObjectIsRead(Normal(Listed, b), t);
    assert text[|p|..] == StableStringify(b) + t;
  }

  /** Nothing in the hashed text is lost when it is encoded as UTF-8. */
  lemma PreimageIsWellFormed(p: Text, b: Json, t: Text)
    requires IsPrevious(p) && IsTimestamp(t) && Valid(b)
    ensures WellFormed(Preimage(p, b, t))
  {
    StableIsPrintOfSorted(b);
    NormalIsValid(Listed, b);
    PrintIsWellFormed(Normal(Listed, b));
    PlainIsWellFormed(p);
    PlainIsWellFormed(t);
    WellFormedConcat(StableStringify(b), t);
    WellFormedConcat(p, StableStringify(b) + t);
  }

  // ----- Chains -----

  datatype Event = Event(blob: Json, at: Timestamp)

  predicate ValidEvent(e: Event) {
    Valid(e.blob) && e.blob.Obj?
  }

  predicate ValidChain(c: seq<Event>) {
    forall i | 0 <= i < |c| :: ValidEvent(c[i])
  }

  /** The chain hash of the last event, empty for the empty chain. */
  function Tip(h: Text -> Digest, c: seq<Event>): (tip: Text)
    ensures IsPrevious(tip)
    ensures tip == [] <==> c == []
  {
    if c == [] then []
    else ChainHash(h, Tip(h, c[..|c| - 1]), c[|c| - 1].blob, c[|c| - 1].at)
  }

  /** The text hashed for event `i`. */
  function Hashed(h: Text -> Digest, c: seq<Event>, i: nat): Text
    requires i < |c|
  {
    Preimage(Tip(h, c[..i]), c[i].blob, c[i].at)
  }

  /** Two different texts, hashed for events of the two chains, with one hash. */
  ghost predicate Collide(h: Text -> Digest, c: seq<Event>, d: seq<Event>) {
    exists i: nat, j: nat :: i < |c| && j < |d| && Hashed(h, c, i) != Hashed(h, d, j) && h(Hashed(h, c, i)) == h(Hashed(h, d, j))
  }

  ghost predicate SameChain(c: seq<Event>, d: seq<Event>) {
    |c| == |d| && forall i | 0 <= i < |c| :: c[i].at == d[i].at && SameUpToKeyOrder(c[i].blob, d[i].blob)
  }

  lemma PrefixHashed(h: Text -> Digest, c: seq<Event>, n: nat, i: nat)
    requires i < n <= |c|
    ensures Hashed(h, c[..n], i) == Hashed(h, c, i)
  {
    assert c[..n][..i] == c[..i];
  }

  lemma CollisionInPrefix(h: Text -> Digest, c: seq<Event>, n: nat, d: seq<Event>, k: nat)
    requires n <= |c| && k <= |d| && Collide(h, c[..n], d[..k])
    ensures Collide(h, c, d)
  {
    var i: nat, j: nat :| i < n && j < k && Hashed(h, c[..n], i) != Hashed(h, d[..k], j)
                          && h(Hashed(h, c[..n], i)) == h(Hashed(h, d[..k], j));
    PrefixHashed(h, c, n, i);
    PrefixHashed(h, d, k, j);
  }

  /** Tamper evidence: two chains with one tip hash hold the same events in the same order, or they
      exhibit two different texts with one hash. */
  lemma {:induction false} TamperEvidence(h: Text -> Digest, c: seq<Event>, d: seq<Event>)
    requires ValidChain(c) && ValidChain(d)
    requires Tip(h, c) == Tip(h, d)
    ensures SameChain(c, d) || Collide(h, c, d)
  {
    if c != [] && d != [] {
      var n, k := |c| - 1, |d| - 1;
      if Hashed(h, c, n) == Hashed(h, d, k) {
        PreimageSplits(Tip(h, c[..n]), c[n].blob, c[n].at, Tip(h, d[..k]), d[k].blob, d[k].at);
        TamperEvidence(h, c[..n], d[..k]);
        if Collide(h, c[..n], d[..k]) {
          CollisionInPrefix(h, c, n, d, k);
        } else {
          SameChainExtends(c, d, n);
        }
      } else {
        assert h(Hashed(h, c, n)) == h(Hashed(h, d, k));
      }
    }
  }

  lemma SameChainExtends(c: seq<Event>, d: seq<Event>, n: nat)
    requires |c| == |d| == n + 1 && SameChain(c[..n], d[..n])
    requires c[n].at == d[n].at && SameUpToKeyOrder(c[n].blob, d[n].blob)
    ensures SameChain(c, d)
  {
  }

  /** Reordering object keys anywhere in the stored events leaves the tip unchanged. */
  lemma {:induction false} KeyOrderIsIrrelevant(h: Text -> Digest, c: seq<Event>, d: seq<Event>)
    requires ValidChain(c) && ValidChain(d) && SameChain(c, d)
    ensures Tip(h, c) == Tip(h, d)
  {
    if c != [] {
      var n := |c| - 1;
      KeyOrderIsIrrelevant(h, c[..n], d[..n]);
      StableDecides(c[n].blob, d[n].blob);
    }
  }
}
