/**
 * Aggregation and level scoring (skills/readiness-report/scripts/analyze_repo.py):
 * pillar tallies and percentages, the run's pass rate, the five level
 * scores and the achieved level.
 *
 * Scores that Python keeps as floats rounded to one decimal are kept here
 * as whole tenths of a percent: 80.0% is 800, 100.0% is 1000.
 */
module Scoring {
  import opened Seqs
  import opened Criteria

  function IsPass(c: CriterionResult): bool
  {
    c.status.Pass?
  }

  /** Criteria that enter a denominator: every one that was not skipped. */
  function IsCounted(c: CriterionResult): bool
  {
    !c.status.Skip?
  }

  datatype PillarResult = PillarResult(name: string, passed: nat, total: nat, criteria: seq<CriterionResult>)

  /** The pillar record built from one evaluator's results. */
  function Tally(name: string, criteria: seq<CriterionResult>): (r: PillarResult)
    ensures r.name == name && r.criteria == criteria
    ensures r.passed == Count(criteria, IsPass) && r.total == Count(criteria, IsCounted)
    ensures r.passed <= r.total <= |criteria|
  {
    CountMonotone(criteria, IsPass, IsCounted);
    PillarResult(name, Count(criteria, IsPass), Count(criteria, IsCounted), criteria)
  }

  /** `PillarResult.percentage`: 100 for an empty pillar, else the truncated percentage. */
  function Percentage(p: PillarResult): (r: nat)
    ensures p.total == 0 ==> r == 100
    ensures p.total > 0 ==> r * p.total <= 100 * p.passed < (r + 1) * p.total
    ensures p.passed <= p.total ==> r <= 100
  {
    if p.total == 0 then 100
    else
      var r := (100 * p.passed) / p.total;
      assert r * p.total <= 100 * p.passed < (r + 1) * p.total;
      assert p.passed <= p.total ==> r <= 100 by {
        MulLeft(p.total, 101, r);
      }
      r
  }

  lemma MulLeft(t: nat, a: nat, b: nat)
    ensures a <= b ==> a * t <= b * t
  {
  }

  /**
   * Python's `round(100 * p / t, 1)` in tenths: the nearest whole number of
   * tenths to 1000p/t, ties going to the even one.
   */
  function RoundTenths(p: nat, t: nat): (r: nat)
    requires t > 0
    // 1000p/t rounded down or up; exact ratios are kept; a tie goes to the even neighbour
    ensures (1000 * p) / t <= r <= (1000 * p) / t + 1
    ensures (1000 * p) % t == 0 ==> r == (1000 * p) / t
    ensures 2 * ((1000 * p) % t) == t ==> r % 2 == 0
  {
    var q := (1000 * p) / t;
    var rem := (1000 * p) % t;
    if 2 * rem > t then q + 1
    else if 2 * rem < t then q
    else if q % 2 == 0 then q
    else q + 1
  }

  /** The rounded value lies within half a tenth of the exact ratio 1000p/t. */
  lemma RoundTenthsNearest(p: nat, t: nat)
    requires t > 0
    ensures 2000 * p - t <= 2 * (RoundTenths(p, t) * t) <= 2000 * p + t
  {
    var q := (1000 * p) / t;
    var rem := (1000 * p) % t;
    assert 1000 * p == q * t + rem;
  }

  /** A rounded ratio of at most one is at most 100.0%. */
  lemma {:induction false} RoundTenthsAtMost(p: nat, t: nat)
    requires 0 < t && p <= t
    ensures RoundTenths(p, t) <= 1000
  {
    var r := RoundTenths(p, t);
    RoundTenthsNearest(p, t);
    MulLeft(t, 1001, r);
  }

  /**
   * The 80% gate on a rounded score agrees with the exact test 5p >= 4t
   * while the denominator stays below 400.
   */
  lemma {:induction false} RoundTenthsGate(p: nat, t: nat)
    requires 0 < t < 400
    ensures RoundTenths(p, t) >= 800 <==> 5 * p >= 4 * t
  {
    var r := RoundTenths(p, t);
    RoundTenthsNearest(p, t);
    MulLeft(t, r, 799);
    MulLeft(t, 800, r);
  }

  /**
   * A non-empty level scores 100.0 exactly when all of its criteria pass
   * (for fewer than 2000 criteria): 100.0 does not mark an empty level.
   */
  lemma {:induction false} RoundTenthsFull(p: nat, t: nat)
    requires 0 < t < 2000 && p <= t
    ensures RoundTenths(p, t) == 1000 <==> p == t
  {
    var r := RoundTenths(p, t);
    RoundTenthsNearest(p, t);
    MulLeft(t, 1001, r);
    MulLeft(t, r, 999);
  }

  /** The run's pass rate in tenths; 0 when no criterion was counted. */
  function PassRate(passed: nat, total: nat): (r: nat)
    ensures total == 0 ==> r == 0
    ensures total > 0 ==> r == RoundTenths(passed, total)
  {
    if total > 0 then RoundTenths(passed, total) else 0
  }

  function PillarPassed(p: PillarResult): nat
  {
    p.passed
  }

  function PillarTotal(p: PillarResult): nat
  {
    p.total
  }

  function PillarCriteriaOf(p: PillarResult): seq<CriterionResult>
  {
    p.criteria
  }

  /** Every criterion of a run, pillar by pillar. */
  function AllResults(ps: seq<PillarResult>): seq<CriterionResult>
  {
    Flatten(Map(ps, PillarCriteriaOf))
  }

  /** Each pillar's counts are those of its own criteria. */
  predicate Tallied(ps: seq<PillarResult>)
  {
    forall i :: 0 <= i < |ps| ==>
      ps[i].passed == Count(ps[i].criteria, IsPass) && ps[i].total == Count(ps[i].criteria, IsCounted)
  }

  /** The run's passed total is the number of passing criteria over all pillars. */
  lemma {:induction false} PassedCountsAll(ps: seq<PillarResult>)
    requires Tallied(ps)
    ensures Sum(Map(ps, PillarPassed)) == Count(AllResults(ps), IsPass)
    decreases |ps|
  {
    if |ps| > 0 {
      var init := ps[..|ps| - 1];
      var last := ps[|ps| - 1];
      assert ps == init + [last];
      PassedCountsAll(init);
      MapSnoc(init, last, PillarPassed);
      MapSnoc(init, last, PillarCriteriaOf);
      FlattenSnoc(Map(init, PillarCriteriaOf), last.criteria);
      CountAppend(AllResults(init), last.criteria, IsPass);
      SumSnoc(Map(init, PillarPassed), last.passed);
    }
  }

  /** The run's criteria total is the number of non-skipped criteria over all pillars. */
  lemma {:induction false} TotalCountsAll(ps: seq<PillarResult>)
    requires Tallied(ps)
    ensures Sum(Map(ps, PillarTotal)) == Count(AllResults(ps), IsCounted)
    decreases |ps|
  {
    if |ps| > 0 {
      var init := ps[..|ps| - 1];
      var last := ps[|ps| - 1];
      assert ps == init + [last];
      TotalCountsAll(init);
      MapSnoc(init, last, PillarTotal);
      MapSnoc(init, last, PillarCriteriaOf);
      FlattenSnoc(Map(init, PillarCriteriaOf), last.criteria);
      CountAppend(AllResults(init), last.criteria, IsCounted);
      SumSnoc(Map(init, PillarTotal), last.total);
    }
  }

  /** Hence the run never passes more criteria than it counts. */
  lemma RunPassedAtMostTotal(ps: seq<PillarResult>)
    requires Tallied(ps)
    ensures Sum(Map(ps, PillarPassed)) <= Sum(Map(ps, PillarTotal))
  {
    PassedCountsAll(ps);
    TotalCountsAll(ps);
    CountMonotone(AllResults(ps), IsPass, IsCounted);
  }

  /** The counted criteria of level k. */
  function AtLevel(cs: seq<CriterionResult>, k: int): seq<CriterionResult>
  {
    Filter(cs, c => IsCounted(c) && c.level == k)
  }

  /** Appending one criterion adds it to its own level's bucket only, and only when it is counted. */
  lemma AtLevelSnoc(cs: seq<CriterionResult>, c: CriterionResult)
    ensures forall k :: AtLevel(cs + [c], k) == AtLevel(cs, k) + (if IsCounted(c) && c.level == k then [c] else [])
  {
    forall k ensures AtLevel(cs + [c], k) == AtLevel(cs, k) + (if IsCounted(c) && c.level == k then [c] else []) {
      FilterSnoc(cs, c, (x: CriterionResult) => IsCounted(x) && x.level == k);
    }
  }

  /** The score of one level's bucket of counted criteria: 100.0 when it is empty. */
  function BucketScore(b: seq<CriterionResult>): nat
  {
    if |b| == 0 then 1000 else RoundTenths(Count(b, IsPass), |b|)
  }

  /**
   * A bucket never scores above 100.0; a non-empty one scores exactly 100.0
   * when all of its criteria pass (for fewer than 2000 criteria).
   */
  lemma BucketScoreBounds(b: seq<CriterionResult>)
    ensures BucketScore(b) <= 1000
    ensures 0 < |b| < 2000 ==> (BucketScore(b) == 1000 <==> Count(b, IsPass) == |b|)
  {
    if |b| > 0 {
      CountMonotone(b, IsPass, (c: CriterionResult) => true);
      assert Count(b, (c: CriterionResult) => true) == |b| by {
        FilterAll(b);
      }
      RoundTenthsAtMost(Count(b, IsPass), |b|);
      if |b| < 2000 {
        RoundTenthsFull(Count(b, IsPass), |b|);
      }
    }
  }

  /** One level's score in tenths. */
  function LevelScore(cs: seq<CriterionResult>, k: int): nat
  {
    BucketScore(AtLevel(cs, k))
  }

  lemma {:induction false} FilterAll<T>(s: seq<T>)
    ensures Filter(s, (x: T) => true) == s
    decreases |s|
  {
    if |s| > 0 {
      FilterAll(s[..|s| - 1]);
    }
  }

  const Gate: nat := 800

  /**
   * The achieved level: the number of leading levels scoring at least
   * 80.0%; 0 when level 1 falls short.
   */
  function Achieved(scores: seq<nat>): (r: nat)
    ensures r <= |scores|
    ensures forall j :: 0 <= j < r ==> scores[j] >= Gate
    ensures r < |scores| ==> scores[r] < Gate
    decreases |scores|
  {
    if |scores| == 0 || scores[0] < Gate then 0 else 1 + Achieved(scores[1..])
  }

  /**
   * The achieved level is the only count of leading levels that all meet
   * the gate and is followed by a level below it (or by none).
   */
  lemma AchievedUnique(scores: seq<nat>, a: nat)
    requires a <= |scores|
    requires forall j :: 0 <= j < a ==> scores[j] >= Gate
    requires a < |scores| ==> scores[a] < Gate
    ensures Achieved(scores) == a
  {
  }

  /** A level below the gate caps the achieved level below it. */
  lemma GateCaps(scores: seq<nat>, k: nat)
    requires 1 <= k <= |scores| && scores[k - 1] < Gate
    ensures Achieved(scores) < k
  {
  }

  /** Levels 1..k all at or above the gate lift the achieved level to k or more. */
  lemma GateLifts(scores: seq<nat>, k: nat)
    requires k <= |scores| && forall j :: 0 <= j < k ==> scores[j] >= Gate
    ensures Achieved(scores) >= k
  {
  }
}
