/**
 * The analysis record as the report, HTML and diagram renderers read it
 * back from the analyzer's JSON output (skills/readiness-report/scripts/
 * analyze_repo.py, `main`): pillars in order, each with its criteria;
 * level scores by level; the achieved level.
 *
 * The renderers compare statuses and scopes as strings, so a status here
 * is any string: the analyzer only ever writes "pass", "fail" or "skip",
 * and `AnalyzerStatuses` proves that of its output.
 */
module ReportData {
  import opened Seqs
  import opened Criteria
  import opened Scoring
  import opened Analysis

  /** One criterion of the JSON: `asdict(CriterionResult)`. */
  datatype Entry = Entry(
    id: string,
    level: int,
    status: string,
    score: string,
    reason: string,
    scope: string,
    appResults: Verdicts)

  /** One pillar of the JSON. */
  datatype PillarEntry = PillarEntry(
    name: string,
    passed: nat,
    total: nat,
    percentage: nat,
    criteria: seq<Entry>)

  /** `level_scores.get(str(level), level_scores.get(level, default))`, in tenths of a percent. */
  function ScoreAt(ls: map<int, nat>, level: int, default: nat): (r: nat)
    ensures level in ls ==> r == ls[level]
    ensures level !in ls ==> r == default
  {
    if level in ls then ls[level] else default
  }

  /** Every criterion of every pillar, pillar by pillar. */
  function AllEntries(ps: seq<PillarEntry>): seq<Entry>
    decreases |ps|
  {
    if |ps| == 0 then [] else AllEntries(ps[..|ps| - 1]) + ps[|ps| - 1].criteria
  }

  function EntryOf(c: CriterionResult): Entry
  {
    Entry(c.id, c.level, StatusName(c.status), ScoreText(c.score), c.reason, ScopeName(c.scope), c.appVerdicts)
  }

  function PillarEntryOf(p: PillarResult): PillarEntry
  {
    PillarEntry(p.name, p.passed, p.total, Percentage(p), Map(p.criteria, EntryOf))
  }

  /** The `pillars` of the JSON an analysis writes. */
  function PillarEntries(a: AnalysisResult): seq<PillarEntry>
  {
    Map(a.pillars, PillarEntryOf)
  }

  predicate KnownStatus(e: Entry)
  {
    e.status == "pass" || e.status == "fail" || e.status == "skip"
  }

  function EntryCriteria(p: PillarEntry): seq<Entry>
  {
    p.criteria
  }

  /** The pillars of an analysis, read back, list exactly the analysis's criteria in order. */
  lemma {:induction false} AllEntriesOf(ps: seq<PillarResult>)
    ensures AllEntries(Map(ps, PillarEntryOf)) == Map(AllResults(ps), EntryOf)
    decreases |ps|
  {
    if |ps| > 0 {
      var init := ps[..|ps| - 1];
      var last := ps[|ps| - 1];
      assert ps == init + [last];
      AllEntriesOf(init);
      MapSnoc(init, last, PillarEntryOf);
      assert Map(ps, PillarEntryOf)[..|ps| - 1] == Map(init, PillarEntryOf);
      MapSnoc(init, last, PillarCriteriaOf);
      FlattenSnoc(Map(init, PillarCriteriaOf), last.criteria);
      MapAppend(AllResults(init), last.criteria, EntryOf);
    }
  }

  /** Every criterion the analyzer writes has one of the three statuses the renderers know. */
  lemma AnalyzerStatuses(a: AnalysisResult)
    ensures forall e :: e in AllEntries(PillarEntries(a)) ==> KnownStatus(e)
  {
    AllEntriesOf(a.pillars);
  }
}
