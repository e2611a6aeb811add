/** Partner performance grades over exact arithmetic: the scores, the letters, the tiers, and how they respond
    when a partner's record gets worse. */
module Grades {

  // ----- Arithmetic -----

  /** `Math.round`: halves go up. */
  function Round(x: real): int { (x + 0.5).Floor }

  function ClampReal(n: real, min: real, max: real): real {
    var low := if n < max then n else max;
    if low > min then low else min
  }

  function Clamp(n: int, min: int, max: int): int {
    var low := if n < max then n else max;
    if low > min then low else min
  }

  lemma DivMonotone(a: real, b: real, n: real)
    requires a <= b && n > 0.0
    ensures a / n <= b / n
  {
  }

  // ----- Signals -----

  datatype Signals = Signals(
    dealCount: nat, consummated: nat, openPipeline: nat, blocked: nat, critical: nat, warnings: nat, amendments: nat,
    jacketComplete: nat, cycleHours: real, stipOpen: nat, stipResolved: nat, cureHours: real)

  /** The same volume of business with more alerts, blocked checks, amendments, open stipulations, cure hours
      or cycle hours, or with fewer complete jackets. */
  predicate NoBetter(b: Signals, a: Signals) {
    && b.dealCount == a.dealCount && b.consummated == a.consummated
    && b.openPipeline == a.openPipeline && b.stipResolved == a.stipResolved
    && b.blocked >= a.blocked && b.critical >= a.critical && b.warnings >= a.warnings && b.amendments >= a.amendments
    && b.jacketComplete <= a.jacketComplete && b.cycleHours >= a.cycleHours
    && b.stipOpen >= a.stipOpen && b.cureHours >= a.cureHours
  }

  /** `x / n`, or nothing when there is no `n`. */
  function Rate(x: real, n: nat): real { if n > 0 then x / n as real else 0.0 }

  lemma RateMonotone(x: real, y: real, n: nat)
    requires x <= y
    ensures Rate(x, n) <= Rate(y, n)
  {
  }

  // ----- Scores -----

  /** What a rate of problems costs, up to a cap. */
  function Cost(x: real, n: nat, weight: real, cap: real): real { ClampReal(Rate(x, n) * weight, 0.0, cap) }

  function Scored(x: real): (score: int)
    ensures 0 <= score <= 100
  {
    Clamp(Round(x), 0, 100)
  }

  function ProblemFree(s: Signals): (score: int)
    ensures 0 <= score <= 100
  {
    if s.dealCount == 0 then 70
    else
      Scored(100.0 - Cost(s.critical as real, s.dealCount, 35.0, 45.0) - Cost(s.warnings as real, s.dealCount, 12.0, 25.0)
             - Cost(s.blocked as real, s.openPipeline, 30.0, 35.0) - Cost(s.amendments as real, s.dealCount, 18.0, 40.0))
  }

  function JacketCompleteness(consummated: nat, jacketComplete: nat): (score: int)
    ensures 0 <= score <= 100
  {
    if consummated == 0 then 72 else Clamp(Round(jacketComplete as real / consummated as real * 100.0), 0, 100)
  }

  /** `log` is the common logarithm of `1 + dealCount`. */
  function Volume(dealCount: nat, consummated: nat, log: real): (score: int)
    ensures 0 <= score <= 100
  {
    if dealCount == 0 then 50
    else Clamp(Round(log * 28.0 + consummated as real / dealCount as real * 45.0), 0, 100)
  }

  function CycleTime(consummated: nat, cycleHours: real): (score: int)
    ensures 20 <= score <= 100
  {
    if consummated == 0 then 75
    else
      var days := cycleHours / consummated as real / 24.0;
      if days <= 7.0 then 100
      else if days <= 14.0 then 90
      else if days <= 21.0 then 78
      else if days <= 35.0 then 65
      else Clamp(Round(55.0 - (days - 35.0) * 2.0), 20, 65)
  }

  /** What slow cures cost. */
  function CurePenalty(resolved: nat, days: real): real {
    if resolved == 0 || days <= 2.0 then 0.0
    else if days <= 5.0 then 8.0
    else if days <= 10.0 then 18.0
    else if days <= 20.0 then 32.0
    else 45.0
  }

  function SecondGreen(s: Signals): (score: int)
    ensures 0 <= score <= 100
  {
    if s.consummated == 0 then 80
    else
      Scored(100.0 - Cost(s.stipOpen as real, s.consummated, 55.0, 60.0)
             - CurePenalty(s.stipResolved, Rate(s.cureHours, s.stipResolved) / 24.0))
  }

  function FileManagement(s: Signals): (score: int)
    ensures 0 <= score <= 100
  {
    Clamp(Round(JacketCompleteness(s.consummated, s.jacketComplete) as real * 0.6 + SecondGreen(s) as real * 0.4), 0, 100)
  }

  function DealsClosed(s: Signals): (score: int)
    ensures 0 <= score <= 100
  {
    var closeRate := Clamp(Round(Rate(s.consummated as real, s.dealCount) * 100.0), 0, 100);
    Clamp(Round(closeRate as real * 0.65 + CycleTime(s.consummated, s.cycleHours) as real * 0.35), 0, 100)
  }

  /** A dealer's overall score, as a lender sees it. */
  function DealerOverall(s: Signals, log: real): int {
    Round(ProblemFree(s) as real * 0.32 + SecondGreen(s) as real * 0.22
          + JacketCompleteness(s.consummated, s.jacketComplete) as real * 0.18
          + Volume(s.dealCount, s.consummated, log) as real * 0.16 + CycleTime(s.consummated, s.cycleHours) as real * 0.12)
  }

  /** A lender's overall score in a segment, as a dealer sees it. */
  function LenderOverall(s: Signals): int {
    Round(FileManagement(s) as real * 0.45 + DealsClosed(s) as real * 0.35 + ProblemFree(s) as real * 0.2)
  }

  // ----- Letters and tiers, best first -----

  datatype Letter = A | B | C | D

  datatype Preference = PREFERRED | STANDARD | WATCH

  datatype Proficiency = LEAD | CAPABLE | DEVELOPING

  function LetterOf(score: int): Letter {
    if score >= 88 then A else if score >= 74 then B else if score >= 60 then C else D
  }

  function PreferenceOf(overall: int, problemFree: int): Preference {
    if overall >= 82 && problemFree >= 80 then PREFERRED
    else if overall >= 65 && problemFree >= 60 then STANDARD
    else WATCH
  }

  function ProficiencyOf(overall: int): Proficiency {
    if overall >= 80 then LEAD else if overall >= 65 then CAPABLE else DEVELOPING
  }

  predicate LetterNoBetter(b: Letter, a: Letter) {
    a == A || (a == B && b != A) || (a == C && (b == C || b == D)) || (a == D && b == D)
  }

  predicate PreferenceNoBetter(b: Preference, a: Preference) {
    a == PREFERRED || (a == STANDARD && b != PREFERRED) || (a == WATCH && b == WATCH)
  }

  predicate ProficiencyNoBetter(b: Proficiency, a: Proficiency) {
    a == LEAD || (a == CAPABLE && b != LEAD) || (a == DEVELOPING && b == DEVELOPING)
  }

  // ----- A worse record never scores higher -----

  lemma CostGrows(x: real, y: real, n: nat, weight: real, cap: real)
    requires x <= y && weight >= 0.0
    ensures Cost(x, n, weight, cap) <= Cost(y, n, weight, cap)
  {
  }

  lemma FourCosts(p: real, q: real, r: real, t: real, p': real, q': real, r': real, t': real)
    requires p <= p' && q <= q' && r <= r' && t <= t'
    ensures Scored(100.0 - p' - q' - r' - t') <= Scored(100.0 - p - q - r - t)
  {
  }

  lemma ProblemFreeFalls(a: Signals, b: Signals)
    requires NoBetter(b, a)
    ensures ProblemFree(b) <= ProblemFree(a)
  {
    var n := a.dealCount;
    CostGrows(a.critical as real, b.critical as real, n, 35.0, 45.0);
    CostGrows(a.warnings as real, b.warnings as real, n, 12.0, 25.0);
    CostGrows(a.blocked as real, b.blocked as real, a.openPipeline, 30.0, 35.0);
    CostGrows(a.amendments as real, b.amendments as real, n, 18.0, 40.0);
    FourCosts(Cost(a.critical as real, n, 35.0, 45.0), Cost(a.warnings as real, n, 12.0, 25.0),
              Cost(a.blocked as real, a.openPipeline, 30.0, 35.0), Cost(a.amendments as real, n, 18.0, 40.0),
              Cost(b.critical as real, n, 35.0, 45.0), Cost(b.warnings as real, n, 12.0, 25.0),
              Cost(b.blocked as real, a.openPipeline, 30.0, 35.0), Cost(b.amendments as real, n, 18.0, 40.0));
  }

  lemma JacketFalls(consummated: nat, more: nat, fewer: nat)
    requires fewer <= more
    ensures JacketCompleteness(consummated, fewer) <= JacketCompleteness(consummated, more)
  {
    if consummated > 0 { DivMonotone(fewer as real, more as real, consummated as real); }
  }

  lemma CycleTimeFalls(consummated: nat, fewer: real, more: real)
    requires fewer <= more
    ensures CycleTime(consummated, more) <= CycleTime(consummated, fewer)
  {
    if consummated > 0 { DivMonotone(fewer, more, consummated as real); }
  }

  lemma SecondGreenFalls(a: Signals, b: Signals)
    requires NoBetter(b, a)
    ensures SecondGreen(b) <= SecondGreen(a)
  {
    CostGrows(a.stipOpen as real, b.stipOpen as real, a.consummated, 55.0, 60.0);
    RateMonotone(a.cureHours, b.cureHours, a.stipResolved);
  }

  lemma FileManagementFalls(a: Signals, b: Signals)
    requires NoBetter(b, a)
    ensures FileManagement(b) <= FileManagement(a)
  {
    JacketFalls(a.consummated, a.jacketComplete, b.jacketComplete);
    SecondGreenFalls(a, b);
  }

  lemma DealsClosedFalls(a: Signals, b: Signals)
    requires NoBetter(b, a)
    ensures DealsClosed(b) <= DealsClosed(a)
  {
    CycleTimeFalls(a.consummated, a.cycleHours, b.cycleHours);
  }

  /** Overall scores are within 0..100 without being clamped. */
  lemma OverallInRange(s: Signals, log: real)
    ensures 0 <= DealerOverall(s, log) <= 100
    ensures 0 <= LenderOverall(s) <= 100
  {
  }

  /** A dealer whose record gets worse at the same volume never gets a higher overall score, a better letter
      or a better tier. */
  lemma WorseDealerNeverGradesHigher(a: Signals, b: Signals, log: real)
    requires NoBetter(b, a)
    ensures DealerOverall(b, log) <= DealerOverall(a, log)
    ensures LetterNoBetter(LetterOf(DealerOverall(b, log)), LetterOf(DealerOverall(a, log)))
    ensures PreferenceNoBetter(PreferenceOf(DealerOverall(b, log), ProblemFree(b)), PreferenceOf(DealerOverall(a, log), ProblemFree(a)))
  {
    ProblemFreeFalls(a, b);
    SecondGreenFalls(a, b);
    JacketFalls(a.consummated, a.jacketComplete, b.jacketComplete);
    CycleTimeFalls(a.consummated, a.cycleHours, b.cycleHours);
  }

  /** The same for a lender in a segment. */
  lemma WorseLenderNeverGradesHigher(a: Signals, b: Signals)
    requires NoBetter(b, a)
    ensures LenderOverall(b) <= LenderOverall(a)
    ensures LetterNoBetter(LetterOf(LenderOverall(b)), LetterOf(LenderOverall(a)))
    ensures ProficiencyNoBetter(ProficiencyOf(LenderOverall(b)), ProficiencyOf(LenderOverall(a)))
  {
    FileManagementFalls(a, b);
    DealsClosedFalls(a, b);
    ProblemFreeFalls(a, b);
  }

  // ----- The scores computed step by step -----

  method ProblemFreeScore(s: Signals) returns (result: int)
    ensures result == ProblemFree(s)
  {
    if s.dealCount == 0 { return 70; }
    var score := 100.0;
    score := score - Cost(s.critical as real, s.dealCount, 35.0, 45.0);
    score := score - Cost(s.warnings as real, s.dealCount, 12.0, 25.0);
    score := score - Cost(s.blocked as real, s.openPipeline, 30.0, 35.0);
    score := score - Cost(s.amendments as real, s.dealCount, 18.0, 40.0);
    return Clamp(Round(score), 0, 100);
  }

  method SecondGreenScore(s: Signals) returns (result: int)
    ensures result == SecondGreen(s)
  {
    if s.consummated == 0 { return 80; }
    var openRate := s.stipOpen as real / s.consummated as real;
    var avgCureHours := if s.stipResolved > 0 then s.cureHours / s.stipResolved as real else 0.0;
    var avgCureDays := avgCureHours / 24.0;
    var score := 100.0;
    score := score - ClampReal(openRate * 55.0, 0.0, 60.0);
    if s.stipResolved > 0 {
      if avgCureDays <= 2.0 {
      } else if avgCureDays <= 5.0 {
        score := score - 8.0;
      } else if avgCureDays <= 10.0 {
        score := score - 18.0;
      } else if avgCureDays <= 20.0 {
        score := score - 32.0;
      } else {
        score := score - 45.0;
      }
    }
    return Clamp(Round(score), 0, 100);
  }

  // ----- The document jacket -----

  datatype DocType = INITIAL_DISCLOSURE_SIGNED | RISC_SIGNED | RISC_LENDER_FINAL | UCSP_CLOSING_MANIFEST | OTHER(name: string)

  const JACKET_DOC_TYPES: seq<DocType> := [INITIAL_DISCLOSURE_SIGNED, RISC_SIGNED, RISC_LENDER_FINAL, UCSP_CLOSING_MANIFEST]

  const JACKET: set<DocType> := {INITIAL_DISCLOSURE_SIGNED, RISC_SIGNED, RISC_LENDER_FINAL, UCSP_CLOSING_MANIFEST}

  function TypesIn(docs: seq<DocType>): set<DocType> { set d | d in docs }

  lemma OneMoreKind(seen: set<DocType>, d: DocType, types: set<DocType>)
    requires d !in seen
    ensures |(seen + {d}) * types| == |seen * types| + if d in types then 1 else 0
  {
    assert (seen + {d}) * types == if d in types then (seen * types) + {d} else seen * types;
  }

  /** Complete means that at least three of the four kinds are among the documents. */
  method IsJacketComplete(docs: seq<DocType>) returns (complete: bool)
    ensures complete <==> |JACKET * TypesIn(docs)| >= 3
  {
    var types := TypesIn(docs);
    var hit := 0;
    ghost var seen: set<DocType> := {};
    for i := 0 to |JACKET_DOC_TYPES|
      invariant seen == set k | 0 <= k < i :: JACKET_DOC_TYPES[k]
      invariant hit == |seen * types|
    {
      var d := JACKET_DOC_TYPES[i];
      OneMoreKind(seen, d, types);
      seen := seen + {d};
      if d in types { hit := hit + 1; }
    }
    assert seen == JACKET by {
      assert JACKET_DOC_TYPES[0] in seen && JACKET_DOC_TYPES[1] in seen && JACKET_DOC_TYPES[2] in seen && JACKET_DOC_TYPES[3] in seen;
    }
    return hit >= 3;
  }

  // ----- Where the steps are -----

  /** A letter, a tier and a step never get better as the score falls, and these are the scores at which they change. */
  lemma LetterSteps(a: int, b: int)
    requires b <= a
    ensures LetterNoBetter(LetterOf(b), LetterOf(a))
    ensures LetterOf(88) == A && LetterOf(87) == B && LetterOf(74) == B && LetterOf(73) == C && LetterOf(60) == C && LetterOf(59) == D
  {
  }

  lemma PreferenceSteps(a: int, b: int, p: int, q: int)
    requires b <= a && q <= p
    ensures PreferenceNoBetter(PreferenceOf(b, q), PreferenceOf(a, p))
    ensures PreferenceOf(82, 80) == PREFERRED && PreferenceOf(81, 100) == STANDARD && PreferenceOf(100, 79) == STANDARD
    ensures PreferenceOf(65, 60) == STANDARD && PreferenceOf(64, 100) == WATCH && PreferenceOf(100, 59) == WATCH
  {
  }

  lemma ProficiencySteps(a: int, b: int)
    requires b <= a
    ensures ProficiencyNoBetter(ProficiencyOf(b), ProficiencyOf(a))
    ensures ProficiencyOf(80) == LEAD && ProficiencyOf(79) == CAPABLE && ProficiencyOf(65) == CAPABLE && ProficiencyOf(64) == DEVELOPING
  {
  }

  /** Days from creation to the last update, for one deal. */
  function AfterDays(days: real): int { CycleTime(1, days * 24.0) }

  /** The cycle score at the ends of its steps, just after them, and on the slope behind the last. */
  lemma CycleSteps()
    ensures AfterDays(7.0) == 100 && AfterDays(7.1) == 90 && AfterDays(14.0) == 90 && AfterDays(14.1) == 78
    ensures AfterDays(21.0) == 78 && AfterDays(21.1) == 65 && AfterDays(35.0) == 65 && AfterDays(36.0) == 53
    ensures AfterDays(50.0) == 25 && AfterDays(60.0) == 20
  {
  }

  /** What slow cures cost, at the ends of the steps and just after them. */
  lemma CureSteps()
    ensures CurePenalty(0, 99.0) == 0.0 && CurePenalty(1, 2.0) == 0.0 && CurePenalty(1, 2.1) == 8.0 && CurePenalty(1, 5.0) == 8.0
    ensures CurePenalty(1, 5.1) == 18.0 && CurePenalty(1, 10.0) == 18.0 && CurePenalty(1, 10.1) == 32.0
    ensures CurePenalty(1, 20.0) == 32.0 && CurePenalty(1, 20.1) == 45.0
  {
  }

  // ----- Samples -----

  /** A hundred deals, all closed at once with complete jackets, and no problem. */
  const SPOTLESS := Signals(100, 100, 10, 0, 0, 0, 0, 100, 0.0, 0, 0, 0.0)

  /** Partners without deals, or without closed ones, get neutral scores. */
  lemma NeutralScores(s: Signals, log: real)
    ensures s.dealCount == 0 ==> ProblemFree(s) == 70 && Volume(0, s.consummated, log) == 50
    ensures s.consummated == 0 ==>
              JacketCompleteness(0, s.jacketComplete) == 72 && CycleTime(0, s.cycleHours) == 75 && SecondGreen(s) == 80
  {
  }

  /** What one critical alert, one warning, one amendment per deal and one blocked check per open deal cost, and the most
      each can cost. */
  lemma ProblemSamples()
    ensures ProblemFree(SPOTLESS) == 100
    ensures ProblemFree(SPOTLESS.(critical := 100)) == 65 && ProblemFree(SPOTLESS.(critical := 1000)) == 55
    ensures ProblemFree(SPOTLESS.(warnings := 100)) == 88 && ProblemFree(SPOTLESS.(warnings := 1000)) == 75
    ensures ProblemFree(SPOTLESS.(blocked := 10)) == 70 && ProblemFree(SPOTLESS.(blocked := 100)) == 65
    ensures ProblemFree(SPOTLESS.(amendments := 100)) == 82 && ProblemFree(SPOTLESS.(amendments := 1000)) == 60
  {
  }

  lemma FileSamples()
    ensures SecondGreen(SPOTLESS.(stipOpen := 100)) == 45 && SecondGreen(SPOTLESS.(stipOpen := 1000)) == 40
    ensures SecondGreen(SPOTLESS.(stipResolved := 10, cureHours := 1440.0)) == 82
    ensures FileManagement(SPOTLESS.(jacketComplete := 0)) == 40 && FileManagement(SPOTLESS.(stipOpen := 100)) == 78
    ensures DealsClosed(SPOTLESS.(dealCount := 200)) == 68 && DealsClosed(SPOTLESS.(cycleHours := 84000.0)) == 88
    ensures Volume(100, 100, 2.0) == 100 && Volume(100, 0, 2.0) == 56 && Volume(100, 100, 0.0) == 45
  {
  }

  /** How much each part weighs in a dealer's overall score: one part lowered at a time. */
  lemma DealerSamples()
    ensures DealerOverall(SPOTLESS, 2.0) == 100
    ensures DealerOverall(SPOTLESS.(critical := 100), 2.0) == 89
    ensures DealerOverall(SPOTLESS.(stipOpen := 100), 2.0) == 88
    ensures DealerOverall(SPOTLESS.(jacketComplete := 0), 2.0) == 82
    ensures DealerOverall(SPOTLESS, 0.0) == 91
    ensures DealerOverall(SPOTLESS.(cycleHours := 84000.0), 2.0) == 96
  {
    ProblemSamples();
    FileSamples();
  }

  lemma LenderSamples()
    ensures LenderOverall(SPOTLESS) == 100
    ensures LenderOverall(SPOTLESS.(jacketComplete := 0)) == 73
    ensures LenderOverall(SPOTLESS.(cycleHours := 84000.0)) == 96
    ensures LenderOverall(SPOTLESS.(critical := 100)) == 93
  {
    ProblemSamples();
    FileSamples();
  }
}
