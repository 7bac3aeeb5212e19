/**
 * The analyzer's result record and the reference definition of a whole
 * run (skills/readiness-report/scripts/analyze_repo.py): each stage of
 * `analyze()` as a function from the record before it to the record after
 * it. The RepoAnalyzer class is proved to perform exactly these stages.
 */
module Analysis {
  import opened Wrappers
  import opened Seqs
  import opened Text
  import opened Files
  import opened Criteria
  import opened Catalog
  import opened Scoring
  import opened Classify

  datatype AnalysisResult = AnalysisResult(
    repoPath: string,
    repoName: string,
    pillars: seq<PillarResult>,      // in evaluation order
    levelScores: map<int, nat>,      // tenths of a percent, by level
    achievedLevel: nat,
    passRate: nat,                   // tenths of a percent
    totalPassed: nat,
    totalCriteria: nat,
    repoType: RepoType,
    languages: seq<Language>,
    detectedApps: seq<AppInfo>,
    undetectedAppFolders: seq<string>)

  /** The record a new analyzer starts from. */
  function Initial(path: string, name: string): AnalysisResult
  {
    AnalysisResult(path, name, [], map[], 1, 0, 0, 0, Application, [], [], [])
  }

  /** Whether one manifest's non-empty text names a feature-flag service. */
  predicate ManifestNamesFlags(t: FileTree, manifest: string)
  {
    var c := ReadSpec(t, manifest).GetOr("");
    c != "" && NamesFlagService(c)
  }

  predicate FlagsIn(t: FileTree)
  {
    exists k :: 0 <= k < |FlagManifests| && ManifestNamesFlags(t, FlagManifests[k])
  }

  const DevcontainerConfig: string := ".devcontainer/devcontainer.json"
  const AgentDocs: seq<string> := ["AGENTS.md", "CLAUDE.md"]

  function PrereqsOf(t: FileTree): Prerequisites
  {
    Prerequisites(AnyMatch(t, [DevcontainerConfig]), AnyMatch(t, AgentDocs), FlagsIn(t))
  }

  function FactsOf(r: AnalysisResult, t: FileTree): Facts
  {
    Facts(r.repoType, r.detectedApps, PrereqsOf(t))
  }

  // ---------------------------------------------------------------------
  // The stages of a run.
  // ---------------------------------------------------------------------

  function WithRepoType(r: AnalysisResult, t: FileTree): AnalysisResult
  {
    r.(repoType := RepoTypeOf(t, r.repoName))
  }

  function WithLanguages(r: AnalysisResult, t: FileTree): AnalysisResult
  {
    r.(languages := Languages(t))
  }

  /** App detection only runs for a monorepo. */
  function WithApps(r: AnalysisResult, t: FileTree): AnalysisResult
  {
    if r.repoType != Monorepo then r
    else r.(detectedApps := r.detectedApps + AppScan(t).0,
            undetectedAppFolders := r.undetectedAppFolders + AppScan(t).1)
  }

  function TallyPillar(p: PillarSpec, f: Facts, ev: Evidence): PillarResult
  {
    Tally(p.name, EvaluatePillar(p, f, ev))
  }

  /** The pillar records of a catalogue, in evaluation order. */
  function PillarTallies(cat: seq<PillarSpec>, f: Facts, ev: Evidence): (r: seq<PillarResult>)
    ensures |r| == |cat|
    ensures forall i :: 0 <= i < |r| ==> r[i] == TallyPillar(cat[i], f, ev)
  {
    Map(cat, p => TallyPillar(p, f, ev))
  }

  /** Every criterion of a catalogue sits on a level 1..5. */
  predicate CatalogLevels(cat: seq<PillarSpec>)
  {
    forall i, j :: 0 <= i < |cat| && 0 <= j < |cat[i].criteria| ==> 1 <= cat[i].criteria[j].level <= 5
  }

  lemma PillarsCatalogLevels()
    ensures CatalogLevels(Pillars)
  {
    forall i, j | 0 <= i < |Pillars| && 0 <= j < |Pillars[i].criteria|
      ensures 1 <= Pillars[i].criteria[j].level <= 5
    {
      LevelsInRange(Pillars[i], j);
    }
  }

  /** Pillar records appended to a result, their counts added to its totals. */
  function Accumulate(r: AnalysisResult, ps: seq<PillarResult>): AnalysisResult
  {
    r.(pillars := r.pillars + ps,
       totalPassed := r.totalPassed + Sum(Map(ps, PillarPassed)),
       totalCriteria := r.totalCriteria + Sum(Map(ps, PillarTotal)))
  }

  /** Accumulating one more record appends it and adds its two counts. */
  lemma AccumulateSnoc(r: AnalysisResult, ps: seq<PillarResult>, p: PillarResult)
    ensures var a := Accumulate(r, ps);
      Accumulate(r, ps + [p]) ==
      a.(pillars := a.pillars + [p], totalPassed := a.totalPassed + p.passed, totalCriteria := a.totalCriteria + p.total)
  {
    assert Map(ps + [p], PillarPassed) == Map(ps, PillarPassed) + [p.passed];
    assert Map(ps + [p], PillarTotal) == Map(ps, PillarTotal) + [p.total];
    SumSnoc(Map(ps, PillarPassed), p.passed);
    SumSnoc(Map(ps, PillarTotal), p.total);
    assert r.pillars + (ps + [p]) == (r.pillars + ps) + [p];
  }

  /** The same step over a prefix of a fixed sequence of records. */
  lemma AccumulatePrefix(r: AnalysisResult, ps: seq<PillarResult>, i: nat)
    requires i < |ps|
    ensures var a := Accumulate(r, ps[..i]);
      Accumulate(r, ps[..i + 1]) ==
      a.(pillars := a.pillars + [ps[i]], totalPassed := a.totalPassed + ps[i].passed, totalCriteria := a.totalCriteria + ps[i].total)
  {
    assert ps[..i + 1] == ps[..i] + [ps[i]];
    AccumulateSnoc(r, ps[..i], ps[i]);
  }

  /**
   * Pillar evaluation: the records are appended and the totals accumulated;
   * the pass rate is only written when some criterion was counted.
   */
  function WithPillars(r: AnalysisResult, t: FileTree, ev: Evidence, cat: seq<PillarSpec>): AnalysisResult
  {
    var a := Accumulate(r, PillarTallies(cat, FactsOf(r, t), ev));
    a.(passRate := if a.totalCriteria > 0 then RoundTenths(a.totalPassed, a.totalCriteria) else a.passRate)
  }

  /**
   * The score map m after the scores of levels 1..n-1 have been written
   * over it, in that order.
   */
  function WriteScores(m: map<int, nat>, cs: seq<CriterionResult>, n: nat): (r: map<int, nat>)
    ensures forall k :: k in r <==> k in m || 1 <= k < n
    ensures forall k :: 1 <= k < n ==> r[k] == LevelScore(cs, k)
    ensures forall k :: k in m && !(1 <= k < n) ==> r[k] == m[k]
  {
    if n <= 1 then m else WriteScores(m, cs, n - 1)[n - 1 := LevelScore(cs, n - 1)]
  }

  /** Levels 1..5 of a score map, level k at index k - 1. */
  function ScoresOf(m: map<int, nat>): (r: seq<nat>)
    requires forall k :: 1 <= k <= 5 ==> k in m
    ensures |r| == 5 && forall k :: 1 <= k <= 5 ==> r[k - 1] == m[k]
  {
    [m[1], m[2], m[3], m[4], m[5]]
  }

  /** Level scoring over every criterion recorded so far. */
  function WithLevels(r: AnalysisResult): AnalysisResult
  {
    var m := WriteScores(r.levelScores, AllResults(r.pillars), 6);
    r.(levelScores := m, achievedLevel := Achieved(ScoresOf(m)))
  }

  /** `analyze()`: the five stages in order, over a catalogue of pillars. */
  function AnalyzeFrom(r: AnalysisResult, t: FileTree, ev: Evidence, cat: seq<PillarSpec>): AnalysisResult
  {
    WithLevels(WithPillars(WithApps(WithLanguages(WithRepoType(r, t), t), t), t, ev, cat))
  }

  /** Every recorded criterion sits on a level 1..5. */
  predicate LevelsKnown(ps: seq<PillarResult>)
  {
    forall c :: c in AllResults(ps) ==> 1 <= c.level <= 5
  }

  /** Criteria of two runs of pillars sit on known levels when those of each run do. */
  lemma LevelsKnownAppend(a: seq<PillarResult>, b: seq<PillarResult>)
    requires LevelsKnown(a) && LevelsKnown(b)
    ensures LevelsKnown(a + b)
  {
    assert Map(a + b, PillarCriteriaOf) == Map(a, PillarCriteriaOf) + Map(b, PillarCriteriaOf);
    FlattenAppend(Map(a, PillarCriteriaOf), Map(b, PillarCriteriaOf));
  }

  lemma LevelsKnownPrefix(ps: seq<PillarResult>, n: nat)
    requires n <= |ps| && LevelsKnown(ps)
    ensures LevelsKnown(ps[..n])
  {
    assert ps == ps[..n] + ps[n..];
    assert Map(ps, PillarCriteriaOf) == Map(ps[..n], PillarCriteriaOf) + Map(ps[n..], PillarCriteriaOf);
    FlattenAppend(Map(ps[..n], PillarCriteriaOf), Map(ps[n..], PillarCriteriaOf));
  }

  lemma LevelsKnownAt(ps: seq<PillarResult>, i: nat, j: nat)
    requires LevelsKnown(ps) && i < |ps| && j < |ps[i].criteria|
    ensures 1 <= ps[i].criteria[j].level <= 5
  {
    FlattenContains(Map(ps, PillarCriteriaOf), i, j);
  }

  /** Appending one pillar's criteria to the run appends them to AllResults. */
  lemma AllResultsSnoc(ps: seq<PillarResult>, p: PillarResult)
    ensures AllResults(ps + [p]) == AllResults(ps) + p.criteria
  {
    assert Map(ps + [p], PillarCriteriaOf) == Map(ps, PillarCriteriaOf) + [p.criteria];
    FlattenSnoc(Map(ps, PillarCriteriaOf), p.criteria);
  }

  // ---------------------------------------------------------------------
  // What a run on a fresh analyzer guarantees.
  // ---------------------------------------------------------------------

  lemma {:induction false} TalliesTallied(cat: seq<PillarSpec>, f: Facts, ev: Evidence)
    ensures Tallied(PillarTallies(cat, f, ev))
  {
    var ps := PillarTallies(cat, f, ev);
    forall i | 0 <= i < |ps|
      ensures ps[i].passed == Count(ps[i].criteria, IsPass) && ps[i].total == Count(ps[i].criteria, IsCounted)
    {
      assert ps[i] == TallyPillar(cat[i], f, ev);
    }
  }

  /** Every criterion result of the evaluated pillars keeps status and score consistent, on a catalogued level. */
  lemma {:induction false} TalliesWellFormed(cat: seq<PillarSpec>, f: Facts, ev: Evidence)
    requires CatalogLevels(cat)
    ensures LevelsKnown(PillarTallies(cat, f, ev))
    ensures forall c :: c in AllResults(PillarTallies(cat, f, ev)) ==> ScoreConsistent(c)
  {
    var ps := PillarTallies(cat, f, ev);
    forall c | c in AllResults(ps) ensures 1 <= c.level <= 5 && ScoreConsistent(c) {
      var i, j := FlattenMember(Map(ps, PillarCriteriaOf), c);
      var p := cat[i];
      assert ps[i] == TallyPillar(p, f, ev);
      assert Map(ps, PillarCriteriaOf)[i] == EvaluatePillar(p, f, ev);
      assert c == Evaluate(p.criteria[j], p.name, f, ev);
    }
  }

  /** The record a fresh analyzer holds when pillar evaluation starts. */
  function Detected(t: FileTree, path: string, name: string): AnalysisResult
  {
    WithApps(WithLanguages(WithRepoType(Initial(path, name), t), t), t)
  }

  /** Detection leaves the pillar records, the totals and the pass rate as they start. */
  lemma DetectedFresh(t: FileTree, path: string, name: string)
    ensures var r := Detected(t, path, name);
      r.pillars == [] && r.totalPassed == 0 && r.totalCriteria == 0 && r.passRate == 0
  {
  }

  /**
   * Pillar evaluation from an empty record: the records are the catalogue's
   * tallies, the totals count exactly the passing and the non-skipped
   * criteria, and the pass rate stays 0 when nothing was counted.
   */
  lemma PillarStageTotals(r: AnalysisResult, t: FileTree, ev: Evidence, cat: seq<PillarSpec>)
    requires r.pillars == [] && r.totalPassed == 0 && r.totalCriteria == 0 && r.passRate == 0
    ensures var w := WithPillars(r, t, ev, cat);
      var ps := PillarTallies(cat, FactsOf(r, t), ev);
      w.pillars == ps &&
      w.totalPassed == Count(AllResults(ps), IsPass) &&
      w.totalCriteria == Count(AllResults(ps), IsCounted) &&
      w.totalPassed <= w.totalCriteria &&
      (w.totalCriteria == 0 ==> w.passRate == 0)
  {
    var ps := PillarTallies(cat, FactsOf(r, t), ev);
    TalliesTallied(cat, FactsOf(r, t), ev);
    PassedCountsAll(ps);
    TotalCountsAll(ps);
    CountMonotone(AllResults(ps), IsPass, IsCounted);
    assert [] + ps == ps;
  }

  /** Level scoring leaves the pillar records, the totals and the pass rate alone. */
  lemma LevelsKeepTotals(w: AnalysisResult)
    ensures var a := WithLevels(w);
      a.pillars == w.pillars && a.totalPassed == w.totalPassed &&
      a.totalCriteria == w.totalCriteria && a.passRate == w.passRate
  {
  }

  /**
   * A run on a fresh analyzer records one pillar per catalogue entry, passes
   * no more criteria than it counts, counts exactly the criteria that were
   * not skipped, and keeps a pass rate of 0 when nothing was counted.
   */
  lemma FreshRunTotals(t: FileTree, path: string, name: string, ev: Evidence, cat: seq<PillarSpec>)
    ensures var a := AnalyzeFrom(Initial(path, name), t, ev, cat);
      |a.pillars| == |cat| &&
      a.totalPassed <= a.totalCriteria &&
      a.totalPassed == Count(AllResults(a.pillars), IsPass) &&
      a.totalCriteria == Count(AllResults(a.pillars), IsCounted) &&
      (a.totalCriteria == 0 ==> a.passRate == 0)
  {
    var r := Detected(t, path, name);
    DetectedFresh(t, path, name);
    PillarStageTotals(r, t, ev, cat);
    LevelsKeepTotals(WithPillars(r, t, ev, cat));
    assert AnalyzeFrom(Initial(path, name), t, ev, cat) == WithLevels(WithPillars(r, t, ev, cat));
  }

  /**
   * Level scoring writes a score for each of the five levels and achieves
   * exactly the longest run of leading levels at or above 80%.
   */
  lemma {:induction false} LevelStageFacts(r: AnalysisResult)
    ensures var a := WithLevels(r);
      (forall k :: 1 <= k <= 5 ==> k in a.levelScores) &&
      (forall k :: 1 <= k <= 5 ==> a.levelScores[k] == LevelScore(AllResults(r.pillars), k)) &&
      a.achievedLevel <= 5 &&
      (forall k :: 1 <= k <= 5 && a.levelScores[k] < Gate ==> a.achievedLevel < k) &&
      (forall k :: 1 <= k <= a.achievedLevel ==> a.levelScores[k] >= Gate)
  {
    var m := WriteScores(r.levelScores, AllResults(r.pillars), 6);
    var scores := ScoresOf(m);
    assert WithLevels(r) == r.(levelScores := m, achievedLevel := Achieved(scores));
    FiveLevelsGate(scores);
  }

  /** The gate facts over five level scores: a score below the gate caps the achieved level. */
  lemma FiveLevelsGate(scores: seq<nat>)
    requires |scores| == 5
    ensures Achieved(scores) <= 5
    ensures forall j :: 0 <= j < 5 && scores[j] < Gate ==> Achieved(scores) <= j
  {
    forall j | 0 <= j < 5 && scores[j] < Gate ensures Achieved(scores) <= j {
      GateCaps(scores, j + 1);
    }
  }
}
