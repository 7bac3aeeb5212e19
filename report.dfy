/**
 * The Markdown report (skills/readiness-report/scripts/generate_report.py):
 * the level bar, criterion rows, the top strengths and improvement
 * opportunities, the gated level table, the achieved-level header, the
 * recommendation block and the per-app detail of app-scoped rows. The
 * surrounding Markdown text is not modelled.
 *
 * Scores arrive as tenths of a percent (see Scoring); `f"{x:.0f}"` of such
 * a score is WholePercent.
 */
module Report {
  import opened Wrappers
  import opened Seqs
  import opened Text
  import opened Criteria
  import opened Scoring
  import opened Analysis
  import opened ReportData

  // ---------------------------------------------------------------------
  // Numbers as the report prints them
  // ---------------------------------------------------------------------

  /** `f"{x:.0f}"` of a score held in tenths: the nearest whole number, ties to even. */
  function WholePercent(tenths: nat): (r: nat)
    ensures 10 * r <= tenths + 5 && tenths <= 10 * r + 5
    ensures tenths % 10 == 5 ==> r % 2 == 0
    ensures tenths % 10 == 0 ==> 10 * r == tenths
  {
    var q := tenths / 10;
    var d := tenths % 10;
    if d > 5 || (d == 5 && q % 2 == 1) then q + 1 else q
  }

  function PercentText(tenths: nat): string
  {
    NatToString(WholePercent(tenths)) + "%"
  }

  // ---------------------------------------------------------------------
  // format_level_bar
  // ---------------------------------------------------------------------

  const FullBlock: string := "████"
  const EmptyBlock: string := "░░░░"

  /** One segment of the bar: a filled or an empty block, then `L{level} {score:.0f}%`. */
  function Segment(level: nat, score: nat, achieved: int): string
  {
    (if level <= achieved then FullBlock else EmptyBlock) + " L" + NatToString(level) + " " + PercentText(score)
  }

  /** The five segments, level 1 first, each with its level's score (0 when missing). */
  function LevelSegments(ls: map<int, nat>, achieved: int): seq<string>
  {
    seq(5, i requires 0 <= i < 5 => Segment(i + 1, ScoreAt(ls, i + 1, 0), achieved))
  }

  method FormatLevelBar(ls: map<int, nat>, achieved: int) returns (bar: string)
    ensures bar == Join(LevelSegments(ls, achieved), " | ")
  {
    var bars: seq<string> := [];
    for level := 1 to 6
      invariant bars == LevelSegments(ls, achieved)[..level - 1]
    {
      var score := ScoreAt(ls, level, 0);
      var indicator := if level <= achieved then FullBlock else EmptyBlock;
      bars := bars + [indicator + " L" + NatToString(level) + " " + PercentText(score)];
    }
    assert LevelSegments(ls, achieved)[..5] == LevelSegments(ls, achieved);
    bar := Join(bars, " | ");
  }

  /**
   * The bar has exactly five segments; the segment of level k starts with
   * the filled block exactly when k is at most the achieved level, and with
   * the empty block otherwise.
   */
  lemma LevelBarShape(ls: map<int, nat>, achieved: int)
    ensures |LevelSegments(ls, achieved)| == 5
    ensures forall i :: 0 <= i < 5 ==>
      (StartsWith(LevelSegments(ls, achieved)[i], FullBlock) <==> i + 1 <= achieved) &&
      (StartsWith(LevelSegments(ls, achieved)[i], EmptyBlock) <==> i + 1 > achieved)
  {
    var segs := LevelSegments(ls, achieved);
    forall i | 0 <= i < 5
      ensures (StartsWith(segs[i], FullBlock) <==> i + 1 <= achieved) &&
              (StartsWith(segs[i], EmptyBlock) <==> i + 1 > achieved)
    {
      SegmentStart(i + 1, ScoreAt(ls, i + 1, 0), achieved);
    }
  }

  /** A segment starts with exactly one of the two blocks, chosen by the achieved level. */
  lemma SegmentStart(level: nat, score: nat, achieved: int)
    ensures StartsWith(Segment(level, score, achieved), FullBlock) <==> level <= achieved
    ensures StartsWith(Segment(level, score, achieved), EmptyBlock) <==> level > achieved
  {
    var tail := " L" + NatToString(level) + " " + PercentText(score);
    assert Segment(level, score, achieved) == (if level <= achieved then FullBlock else EmptyBlock) + tail;
    BlockStart(FullBlock, EmptyBlock, tail);
    BlockStart(EmptyBlock, FullBlock, tail);
  }

  /** A block followed by anything starts with that block and not with the other one. */
  lemma BlockStart(b: string, other: string, tail: string)
    requires b == FullBlock || b == EmptyBlock
    requires other == FullBlock || other == EmptyBlock
    requires b != other
    ensures StartsWith(b + tail, b) && !StartsWith(b + tail, other)
  {
    assert (b + tail)[..|b|] == b;
    assert (b + tail)[0] == b[0] != other[0];
  }

  // ---------------------------------------------------------------------
  // format_criterion_row
  // ---------------------------------------------------------------------

  /** The status icon: a tick for "pass", a cross for "fail", a dash for anything else. */
  function StatusIcon(status: string): (r: string)
    ensures r == "✓" <==> status == "pass"
    ensures r == "✗" <==> status == "fail"
    ensures r == "—" <==> status != "pass" && status != "fail"
  {
    if status == "pass" then "✓" else if status == "fail" then "✗" else "—"
  }

  /** A table row: icon, quoted id, score and reason. */
  function FormatCriterionRow(e: Entry): (r: string)
    ensures StartsWith(r, StatusIcon(e.status))
    // then the id in backquotes and the score, each closed by " | "
    ensures var k := |StatusIcon(e.status) + " `"|;
      |r| >= k + |e.id| + 4 + |e.score| && r[k..k + |e.id| + 4 + |e.score|] == e.id + "` | " + e.score
    ensures |r| >= |e.reason| && r[|r| - |e.reason|..] == e.reason
  {
    var head := StatusIcon(e.status) + " `" + e.id + "` | " + e.score + " | ";
    assert (head + e.reason)[..|StatusIcon(e.status)|] == StatusIcon(e.status);
    head + e.reason
  }

  // ---------------------------------------------------------------------
  // get_top_strengths
  // ---------------------------------------------------------------------

  /** A strength: pillar name, percentage and up to three passing criterion ids. */
  datatype Strength = Strength(pillar: string, pct: int, passing: seq<string>)

  /** The ids of the passing criteria, in order. */
  function PassingIds(cs: seq<Entry>): seq<string>
    decreases |cs|
  {
    if |cs| == 0 then []
    else PassingIds(cs[..|cs| - 1]) + (if cs[|cs| - 1].status == "pass" then [cs[|cs| - 1].id] else [])
  }

  lemma {:induction false} PassingIdsMember(cs: seq<Entry>, x: string)
    ensures x in PassingIds(cs) <==> exists e :: e in cs && e.status == "pass" && e.id == x
    decreases |cs|
  {
    if |cs| > 0 {
      var init := cs[..|cs| - 1];
      PassingIdsMember(init, x);
      assert cs == init + [cs[|cs| - 1]];
    }
  }

  /** A pillar's strength: its first three passing ids at most, in criterion order. */
  function StrengthOf(p: PillarEntry): (r: Strength)
    ensures r.pillar == p.name && r.pct == p.percentage
    ensures |r.passing| <= 3 && |r.passing| <= |PassingIds(p.criteria)|
    ensures r.passing == PassingIds(p.criteria)[..|r.passing|]
    ensures |r.passing| == if |PassingIds(p.criteria)| < 3 then |PassingIds(p.criteria)| else 3
  {
    Strength(p.name, p.percentage, Take(PassingIds(p.criteria), 3))
  }

  /** The unsorted candidates: one per pillar with at least one counted criterion, in pillar order. */
  function StrengthCandidates(ps: seq<PillarEntry>): seq<Strength>
    decreases |ps|
  {
    if |ps| == 0 then []
    else StrengthCandidates(ps[..|ps| - 1]) + (if ps[|ps| - 1].total > 0 then [StrengthOf(ps[|ps| - 1])] else [])
  }

  /** The sort key of `sort(key=pct, reverse=True)`, which is a stable sort on the negated key. */
  function DescendingPct(s: Strength): int
  {
    -s.pct
  }

  /** The reference selection: candidates stably sorted by percentage, highest first, cut to n. */
  function TopStrengthsOf(ps: seq<PillarEntry>, n: nat): seq<Strength>
  {
    Take(StableSort(StrengthCandidates(ps), DescendingPct), n)
  }

  lemma StrengthCandidatesStep(ps: seq<PillarEntry>, i: nat)
    requires i < |ps|
    ensures StrengthCandidates(ps[..i + 1]) ==
      StrengthCandidates(ps[..i]) + (if ps[i].total > 0 then [StrengthOf(ps[i])] else [])
  {
    assert ps[..i + 1][..i] == ps[..i];
  }

  method TopStrengths(ps: seq<PillarEntry>, n: nat) returns (top: seq<Strength>)
    ensures top == TopStrengthsOf(ps, n)
  {
    var scores: seq<Strength> := [];
    for i := 0 to |ps|
      invariant scores == StrengthCandidates(ps[..i])
    {
      if ps[i].total > 0 {
        var passing := Take(PassingIds(ps[i].criteria), 3);
        scores := scores + [Strength(ps[i].name, ps[i].percentage, passing)];
      }
      StrengthCandidatesStep(ps, i);
    }
    assert ps[..|ps|] == ps;
    scores := StableSort(scores, DescendingPct);
    top := Take(scores, n);
  }

  /** A candidate is the strength of some pillar with a counted criterion, and every such pillar gives one. */
  lemma {:induction false} StrengthCandidatesMember(ps: seq<PillarEntry>, x: Strength)
    ensures x in StrengthCandidates(ps) <==> exists p :: p in ps && p.total > 0 && x == StrengthOf(p)
    decreases |ps|
  {
    if |ps| > 0 {
      var init := ps[..|ps| - 1];
      StrengthCandidatesMember(init, x);
      assert ps == init + [ps[|ps| - 1]];
    }
  }

  /**
   * The selection keeps min(n, candidates) strengths, highest percentage
   * first; no strength left out beats one kept; pillars with equal
   * percentages keep their pillar order; and the sort loses no candidate.
   */
  lemma TopStrengthsFacts(ps: seq<PillarEntry>, n: nat)
    ensures var c := StrengthCandidates(ps);
      var s := StableSort(c, DescendingPct);
      var r := TopStrengthsOf(ps, n);
      |r| == (if n < |c| then n else |c|) && r == s[..|r|] &&
      (forall i, j :: 0 <= i < j < |r| ==> r[i].pct >= r[j].pct) &&
      (forall i, j :: 0 <= i < |r| <= j < |s| ==> s[j].pct <= r[i].pct) &&
      multiset(s) == multiset(c) &&
      (forall v :: WithKey(s, DescendingPct, v) == WithKey(c, DescendingPct, v))
  {
    var c := StrengthCandidates(ps);
    StableSortFacts(c, DescendingPct);
  }

  // ---------------------------------------------------------------------
  // get_top_opportunities
  // ---------------------------------------------------------------------

  /** A failing criterion with its level and pillar. */
  datatype Opportunity = Opportunity(id: string, level: int, reason: string, pillar: string)

  /** The failing criteria of one pillar, in order. */
  function FailsOf(pillar: string, cs: seq<Entry>): seq<Opportunity>
    decreases |cs|
  {
    if |cs| == 0 then []
    else
      var c := cs[|cs| - 1];
      FailsOf(pillar, cs[..|cs| - 1]) + (if c.status == "fail" then [Opportunity(c.id, c.level, c.reason, pillar)] else [])
  }

  /** The failing criteria of every pillar, pillar by pillar. */
  function OpportunitiesOf(ps: seq<PillarEntry>): seq<Opportunity>
    decreases |ps|
  {
    if |ps| == 0 then [] else OpportunitiesOf(ps[..|ps| - 1]) + FailsOf(ps[|ps| - 1].name, ps[|ps| - 1].criteria)
  }

  function ByLevel(o: Opportunity): int
  {
    o.level
  }

  /** The (id, reason, pillar) triple the report shows. */
  function Brief(o: Opportunity): (string, string, string)
  {
    (o.id, o.reason, o.pillar)
  }

  /** The reference selection: failing criteria stably sorted by level, lowest first, cut to n. */
  function TopOpportunitiesOf(ps: seq<PillarEntry>, n: nat): seq<(string, string, string)>
  {
    Map(Take(StableSort(OpportunitiesOf(ps), ByLevel), n), Brief)
  }

  lemma FailsOfStep(pillar: string, cs: seq<Entry>, j: nat)
    requires j < |cs|
    ensures FailsOf(pillar, cs[..j + 1]) == FailsOf(pillar, cs[..j]) +
      (if cs[j].status == "fail" then [Opportunity(cs[j].id, cs[j].level, cs[j].reason, pillar)] else [])
  {
    assert cs[..j + 1][..j] == cs[..j];
  }

  lemma OpportunitiesStep(ps: seq<PillarEntry>, i: nat)
    requires i < |ps|
    ensures OpportunitiesOf(ps[..i + 1]) == OpportunitiesOf(ps[..i]) + FailsOf(ps[i].name, ps[i].criteria)
  {
    assert ps[..i + 1][..i] == ps[..i];
  }

  method TopOpportunities(ps: seq<PillarEntry>, n: nat) returns (top: seq<(string, string, string)>)
    ensures top == TopOpportunitiesOf(ps, n)
  {
    var opportunities: seq<Opportunity> := [];
    for i := 0 to |ps|
      invariant opportunities == OpportunitiesOf(ps[..i])
    {
      var p := ps[i];
      ghost var before := opportunities;
      for j := 0 to |p.criteria|
        invariant opportunities == before + FailsOf(p.name, p.criteria[..j])
      {
        var c := p.criteria[j];
        if c.status == "fail" {
          opportunities := opportunities + [Opportunity(c.id, c.level, c.reason, p.name)];
        }
        FailsOfStep(p.name, p.criteria, j);
      }
      assert p.criteria[..|p.criteria|] == p.criteria;
      OpportunitiesStep(ps, i);
    }
    assert ps[..|ps|] == ps;
    opportunities := StableSort(opportunities, ByLevel);
    top := Map(Take(opportunities, n), Brief);
  }

  lemma {:induction false} FailsOfMember(pillar: string, cs: seq<Entry>, x: Opportunity)
    ensures x in FailsOf(pillar, cs) <==>
      exists e :: e in cs && e.status == "fail" && x == Opportunity(e.id, e.level, e.reason, pillar)
    decreases |cs|
  {
    if |cs| > 0 {
      var init := cs[..|cs| - 1];
      FailsOfMember(pillar, init, x);
      assert cs == init + [cs[|cs| - 1]];
    }
  }

  /** An opportunity is exactly a failing criterion of some pillar, labelled with that pillar. */
  lemma {:induction false} OpportunitiesMember(ps: seq<PillarEntry>, x: Opportunity)
    ensures x in OpportunitiesOf(ps) <==>
      exists p, e :: p in ps && e in p.criteria && e.status == "fail" &&
        x == Opportunity(e.id, e.level, e.reason, p.name)
    decreases |ps|
  {
    if |ps| > 0 {
      var init := ps[..|ps| - 1];
      var last := ps[|ps| - 1];
      OpportunitiesMember(init, x);
      FailsOfMember(last.name, last.criteria, x);
      assert ps == init + [last];
    }
  }

  function OpportunityId(o: Opportunity): string
  {
    o.id
  }

  function EntryId(e: Entry): string
  {
    e.id
  }

  function IsFailing(e: Entry): bool
  {
    e.status == "fail"
  }

  lemma {:induction false} FailsOfIds(pillar: string, cs: seq<Entry>)
    ensures Map(FailsOf(pillar, cs), OpportunityId) == Map(Filter(cs, IsFailing), EntryId)
    decreases |cs|
  {
    if |cs| > 0 {
      var init := cs[..|cs| - 1];
      var c := cs[|cs| - 1];
      assert cs == init + [c];
      FailsOfIds(pillar, init);
      FilterSnoc(init, c, IsFailing);
      MapAppend(FailsOf(pillar, init), if c.status == "fail" then [Opportunity(c.id, c.level, c.reason, pillar)] else [], OpportunityId);
      MapAppend(Filter(init, IsFailing), if IsFailing(c) then [c] else [], EntryId);
    }
  }

  /** Before sorting, the opportunities are the failing criteria of the whole report, in order. */
  lemma {:induction false} OpportunitiesAreFailures(ps: seq<PillarEntry>)
    ensures Map(OpportunitiesOf(ps), OpportunityId) == Map(Filter(AllEntries(ps), IsFailing), EntryId)
    decreases |ps|
  {
    if |ps| > 0 {
      var init := ps[..|ps| - 1];
      var last := ps[|ps| - 1];
      OpportunitiesAreFailures(init);
      FailsOfIds(last.name, last.criteria);
      MapAppend(OpportunitiesOf(init), FailsOf(last.name, last.criteria), OpportunityId);
      FilterAppend(AllEntries(init), last.criteria, IsFailing);
      MapAppend(Filter(AllEntries(init), IsFailing), Filter(last.criteria, IsFailing), EntryId);
    }
  }

  /**
   * The selection keeps min(n, failures) opportunities, lowest level
   * first; no failure left out has a lower level than one kept; failures
   * of equal level keep their pillar and criterion order.
   */
  lemma TopOpportunitiesFacts(ps: seq<PillarEntry>, n: nat)
    ensures var o := OpportunitiesOf(ps);
      var s := StableSort(o, ByLevel);
      var t := Take(s, n);
      var r := TopOpportunitiesOf(ps, n);
      |r| == |t| == (if n < |o| then n else |o|) && t == s[..|t|] &&
      (forall i :: 0 <= i < |r| ==> r[i] == (t[i].id, t[i].reason, t[i].pillar)) &&
      (forall i, j :: 0 <= i < j < |t| ==> t[i].level <= t[j].level) &&
      (forall i, j :: 0 <= i < |t| <= j < |s| ==> t[i].level <= s[j].level) &&
      multiset(s) == multiset(o) &&
      (forall v :: WithKey(s, ByLevel, v) == WithKey(o, ByLevel, v))
  {
    var o := OpportunitiesOf(ps);
    StableSortFacts(o, ByLevel);
  }

  // ---------------------------------------------------------------------
  // The level table of generate_markdown_report
  // ---------------------------------------------------------------------

  /** One row of the level table. */
  datatype LevelRow =
    | Locked(need: int)           // "Locked (need 80% at L{need})"
    | Reached(pct: nat)           // "✓ Achieved"
    | Passed(pct: nat)            // "Passed"
    | ToGo(pct: nat, gap: nat)    // "{80 - score:.0f}% to go"

  /**
   * Level k is unlocked when it is level 1 or level k-1 scores at least
   * 80% (a missing level k-1 counts as 100%).
   */
  function LevelRowOf(ls: map<int, nat>, achieved: int, level: int): (r: LevelRow)
    ensures r.Locked? <==> level > 1 && ScoreAt(ls, level - 1, 1000) < Gate
    ensures r.Locked? ==> r.need == level - 1
    // an unlocked level shows its own score in whole percent
    ensures !r.Locked? ==> r.pct == WholePercent(ScoreAt(ls, level, 0))
    // achieved levels read "Achieved"; others pass or go by the 80% gate
    ensures !r.Locked? ==> (r.Reached? <==> achieved > 0 && level <= achieved)
    ensures r.Passed? ==> ScoreAt(ls, level, 0) >= Gate
    ensures r.ToGo? ==> ScoreAt(ls, level, 0) < Gate && r.gap == WholePercent(Gate - ScoreAt(ls, level, 0))
    ensures !r.Locked? && !r.Reached? && ScoreAt(ls, level, 0) >= Gate ==> r.Passed?
  {
    var score := ScoreAt(ls, level, 0);
    var prev := if level > 1 then ScoreAt(ls, level - 1, 1000) else 1000;
    if !(level == 1 || prev >= Gate) then Locked(level - 1)
    else if achieved > 0 && level <= achieved then Reached(WholePercent(score))
    else if score >= Gate then Passed(WholePercent(score))
    else ToGo(WholePercent(score), WholePercent(Gate - score))
  }

  method LevelTable(ls: map<int, nat>, achieved: int) returns (rows: seq<LevelRow>)
    ensures |rows| == 5 && forall i :: 0 <= i < 5 ==> rows[i] == LevelRowOf(ls, achieved, i + 1)
  {
    rows := [];
    for level := 1 to 6
      invariant |rows| == level - 1
      invariant forall i :: 0 <= i < level - 1 ==> rows[i] == LevelRowOf(ls, achieved, i + 1)
    {
      var score := ScoreAt(ls, level, 0);
      var prev := if level > 1 then ScoreAt(ls, level - 1, 1000) else 1000;
      var row;
      if !(level == 1 || prev >= Gate) {
        row := Locked(level - 1);
      } else if achieved > 0 && level <= achieved {
        row := Reached(WholePercent(score));
      } else if score >= Gate {
        row := Passed(WholePercent(score));
      } else {
        row := ToGo(WholePercent(score), WholePercent(Gate - score));
      }
      rows := rows + [row];
    }
  }

  /** A level above 1 is locked exactly when its predecessor scores below 80%; level 1 never is. */
  lemma LockedIff(ls: map<int, nat>, achieved: int, level: int)
    ensures LevelRowOf(ls, achieved, level).Locked? <==> level > 1 && ScoreAt(ls, level - 1, 1000) < Gate
  {
  }

  /** Only the immediate predecessor decides the lock: two score maps that agree on it lock alike. */
  lemma OnlyPredecessor(ls: map<int, nat>, ls': map<int, nat>, achieved: int, achieved': int, level: int)
    requires ScoreAt(ls, level - 1, 1000) == ScoreAt(ls', level - 1, 1000)
    ensures LevelRowOf(ls, achieved, level).Locked? == LevelRowOf(ls', achieved', level).Locked?
  {
  }

  /** A "to go" row is shown only below 80%, and its gap is the distance to 80% in whole percent. */
  lemma ToGoGap(ls: map<int, nat>, achieved: int, level: int)
    requires LevelRowOf(ls, achieved, level).ToGo?
    ensures ScoreAt(ls, level, 0) < Gate
    ensures var g := LevelRowOf(ls, achieved, level).gap;
      10 * g <= Gate - ScoreAt(ls, level, 0) + 5 && Gate - ScoreAt(ls, level, 0) <= 10 * g + 5
  {
  }

  /**
   * On the analyzer's own scores the table agrees with the achieved
   * level: exactly levels 1..achieved are shown as achieved, the next
   * level is never locked, and a locked level lies above that one.
   */
  lemma LevelTableForAnalysis(ls: map<int, nat>, achieved: int)
    requires forall k :: 1 <= k <= 5 ==> k in ls
    requires achieved == Achieved(ScoresOf(ls))
    ensures forall k :: 1 <= k <= 5 ==> (LevelRowOf(ls, achieved, k).Reached? <==> k <= achieved)
    ensures achieved < 5 ==> !LevelRowOf(ls, achieved, achieved + 1).Locked?
    ensures forall k :: 1 <= k <= 5 && LevelRowOf(ls, achieved, k).Locked? ==> k > achieved + 1
  {
    var scores := ScoresOf(ls);
    forall k | 1 <= k <= 5
      ensures (LevelRowOf(ls, achieved, k).Reached? <==> k <= achieved)
      ensures LevelRowOf(ls, achieved, k).Locked? ==> k > achieved + 1
    {
      if 1 < k <= achieved + 1 {
        assert scores[k - 2] == ls[k - 1];
      }
    }
  }

  // ---------------------------------------------------------------------
  // Header and recommendation of generate_markdown_report
  // ---------------------------------------------------------------------

  const NotYetL1: string := "Not yet L1"

  /** The achieved level in the header: `L{achieved}`, or "Not yet L1" when none is achieved. */
  function AchievedHeader(achieved: int): (r: string)
    ensures achieved <= 0 ==> r == NotYetL1
    ensures achieved > 0 ==> |r| >= 2 && r[0] == 'L' && r[1..] == NatToString(achieved)
  {
    if achieved > 0 then "L" + NatToString(achieved) else NotYetL1
  }

  /** A named level's header has a digit right after its "L"; "Not yet L1" has an 'o' there. */
  lemma HeaderDigit(a: int)
    requires a > 0
    ensures |AchievedHeader(a)| >= 2 && '0' <= AchievedHeader(a)[1] <= '9'
  {
    assert AchievedHeader(a)[1] == NatToString(a)[0];
  }

  /** The header names the achieved level unambiguously: different achieved levels read differently. */
  lemma AchievedHeaderReadsBack(a: int, b: int)
    requires AchievedHeader(a) == AchievedHeader(b)
    ensures a == b || (a <= 0 && b <= 0)
  {
    if a > 0 {
      HeaderDigit(a);
    }
    if b > 0 {
      HeaderDigit(b);
    }
    if a > 0 && b > 0 {
      assert NatToString(a) == AchievedHeader(a)[1..];
      assert NatToString(b) == AchievedHeader(b)[1..];
      NatToStringInjective(a, b);
    }
  }

  /** The three recommendation blocks. */
  datatype NextSteps = Foundations | ProductionReady | OptimizeL4

  function Recommendation(achieved: int): (r: NextSteps)
    ensures r == Foundations <==> achieved < 2
    ensures r == ProductionReady <==> achieved == 2
    ensures r == OptimizeL4 <==> achieved >= 3
  {
    if achieved < 2 then Foundations else if achieved < 3 then ProductionReady else OptimizeL4
  }

  function StepRank(n: NextSteps): nat
  {
    match n
    case Foundations => 0
    case ProductionReady => 1
    case OptimizeL4 => 2
  }

  /** A higher achieved level never gets an earlier block, and each block is reached. */
  lemma RecommendationMonotone(a: int, b: int)
    requires a <= b
    ensures StepRank(Recommendation(a)) <= StepRank(Recommendation(b))
    ensures Recommendation(1) == Foundations && Recommendation(2) == ProductionReady && Recommendation(3) == OptimizeL4
  {
  }

  // ---------------------------------------------------------------------
  // Detailed results rows of generate_markdown_report
  // ---------------------------------------------------------------------

  const FailingCut: string := " (failing:"

  /** The app detail: the reason cut before " (failing:", then the failing apps or "(all apps pass)". */
  function AppDetail(reason: string, d: Verdicts): string
  {
    var failing := FailingApps(d);
    CutAt(reason, FailingCut) +
      (if |failing| > 0 then " *(failing: " + Join(failing, ", ") + ")*" else " *(all apps pass)*")
  }

  /** The details cell: app-scoped rows with app results get the app detail, all others the reason. */
  function DetailText(e: Entry): (r: string)
    ensures !(e.scope == "app" && |e.appResults| > 0) ==> r == e.reason
    ensures e.scope == "app" && |e.appResults| > 0 ==> StartsWith(r, CutAt(e.reason, FailingCut))
    // after the cut reason: the failing apps, or "(all apps pass)" when there are none
    ensures e.scope == "app" && |e.appResults| > 0 ==>
      var failing := FailingApps(e.appResults);
      r[|CutAt(e.reason, FailingCut)|..] ==
        if |failing| > 0 then " *(failing: " + Join(failing, ", ") + ")*" else " *(all apps pass)*"
  {
    if e.scope == "app" && |e.appResults| > 0 then
      var r := AppDetail(e.reason, e.appResults);
      assert r[..|CutAt(e.reason, FailingCut)|] == CutAt(e.reason, FailingCut);
      r
    else e.reason
  }

  /** One row of the detailed results table: icon, id in backquotes, score, details. */
  function DetailRow(e: Entry): (r: string)
    ensures StartsWith(r, "| " + StatusIcon(e.status) + " | `" + e.id + "` | ")
    ensures var k := |"| " + StatusIcon(e.status) + " | `" + e.id + "` | "|;
      |r| >= k + |e.score| + 3 && r[k..k + |e.score| + 3] == e.score + " | "
    ensures |r| >= |DetailText(e)| + 2 && r[|r| - |DetailText(e)| - 2..] == DetailText(e) + " |"
  {
    var head := "| " + StatusIcon(e.status) + " | `" + e.id + "` | ";
    var cell := e.score + " | ";
    var tail := DetailText(e) + " |";
    var r := head + cell + tail;
    assert r[..|head|] == head;
    assert r[|head|..|head| + |cell|] == cell;
    assert r[|r| - |tail|..] == tail;
    r
  }

  /** "(all apps pass)" is shown exactly when no app's verdict is false. */
  lemma AllAppsPass(d: Verdicts)
    ensures |FailingApps(d)| == 0 <==> forall k :: 0 <= k < |d| ==> d[k].1
  {
    var p := (e: (string, bool)) => !e.1;
    assert FailingApps(d) == Map(Filter(d, p), (e: (string, bool)) => e.0);
    forall k | 0 <= k < |d| && !d[k].1 ensures |FailingApps(d)| > 0 {
      FilterMember(d, p, d[k]);
    }
    if |FailingApps(d)| > 0 {
      var x := Filter(d, p)[0];
      assert x in Filter(d, p);
      FilterMember(d, p, x);
      var k :| 0 <= k < |d| && d[k] == x;
    }
  }

  lemma {:induction false} NoParenNoMarker(s: string)
    requires '(' !in s
    ensures !Contains(s, FailingCut)
    decreases |s|
  {
    if |s| > 0 {
      assert forall k :: 0 <= k < |s| - 1 ==> s[1..][k] == s[k + 1];
      NoParenNoMarker(s[1..]);
      if |s| >= |FailingCut| {
        assert s[1] in s;
      }
    }
  }

  /**
   * An app-scoped result of the analyzer, read back: the details cell
   * shows the analyzer's own reason without its failing list, then the
   * failing list rebuilt from the app results, which is the one the
   * analyzer appended.
   */
  lemma AppDetailOfAnalyzer(id: string, pillar: string, level: int, d: Verdicts,
                            passReason: string, failReason: string)
    requires |d| > 0 && '(' !in passReason && '(' !in failReason
    ensures var c := MakeAppResult(id, pillar, level, d, passReason, failReason, None, true);
      DetailText(EntryOf(c)) ==
        (if c.status.Pass? then passReason else failReason) +
        (if |FailingApps(d)| > 0 then " *(failing: " + Join(FailingApps(d), ", ") + ")*" else " *(all apps pass)*")
  {
    var c := MakeAppResult(id, pillar, level, d, passReason, failReason, None, true);
    if c.status.Pass? {
      NoParenNoMarker(passReason);
      CutAtAbsent(passReason, FailingCut);
    } else {
      FailingReasonCut(failReason, d);
    }
  }
}
