/**
 * The Mermaid diagrams of the readiness report
 * (skills/readiness-report/scripts/diagrams.py): the pillar bar chart, the
 * level progress chart, the pass/fail/skip pie and the improvement
 * roadmap, and the visual summary that assembles them.
 *
 * A diagram is modelled by its structure, the data each line or axis
 * carries, and not by its template text: a chart is its axis labels and
 * bar values, a flowchart is its list of lines.
 */
module Diagrams {
  import opened Wrappers
  import opened Seqs
  import opened Text
  import opened Scoring
  import opened Analysis
  import opened ReportData
  import opened Report

  // ---------------------------------------------------------------------
  // Short pillar names
  // ---------------------------------------------------------------------

  const ShortNames: map<string, string> := map[
    "Style & Validation" := "Style",
    "Build System" := "Build",
    "Testing" := "Test",
    "Documentation" := "Docs",
    "Dev Environment" := "DevEnv",
    "Debugging & Observability" := "Debug",
    "Security" := "Security",
    "Task Discovery" := "Tasks",
    "Product & Analytics" := "Product"]

  /**
   * `_get_short_name`: a chart label of at most eight characters. A known
   * pillar gets its short name, any other name is cut to its first eight
   * characters, and a name of eight characters or fewer that is not in the
   * table is kept.
   */
  function ShortName(name: string): (r: string)
    ensures |r| <= 8
    ensures name in ShortNames ==> r == ShortNames[name]
    ensures name !in ShortNames ==> |r| <= |name| && r == name[..|r|]
    ensures name !in ShortNames && |name| <= 8 ==> r == name
    ensures name !in ShortNames && |name| > 8 ==> r == name[..8]
  {
    assert forall k :: k in ShortNames ==> |ShortNames[k]| <= 8;
    if name in ShortNames then ShortNames[name] else Take(name, 8)
  }

  /** The nine known pillars get nine different labels. */
  lemma ShortNamesDistinct(a: string, b: string)
    requires a in ShortNames && b in ShortNames && a != b
    ensures ShortName(a) != ShortName(b)
  {
  }

  // ---------------------------------------------------------------------
  // Charts
  // ---------------------------------------------------------------------

  /** An `xychart-beta` block: x-axis labels, bar values and an optional threshold line. */
  datatype XyChart = XyChart(title: string, labels: seq<string>, yAxis: string, bars: seq<string>, line: seq<nat>)

  function Quoted(s: string): string
  {
    "\"" + s + "\""
  }

  function BarLabel(p: PillarEntry): string
  {
    Quoted(ShortName(p.name))
  }

  /** `str(int(percentage))`; the percentage of the JSON is already whole. */
  function BarValue(p: PillarEntry): string
  {
    NatToString(p.percentage)
  }

  /** `pillar_bar_chart_mermaid`: one quoted label and one value per pillar, in pillar order. */
  method PillarBarChart(ps: seq<PillarEntry>) returns (chart: XyChart)
    ensures |chart.labels| == |chart.bars| == |ps|
    ensures chart.labels == Map(ps, BarLabel) && chart.bars == Map(ps, BarValue)
    ensures chart.line == []
  {
    var names: seq<string> := [];
    var scores: seq<string> := [];
    for i := 0 to |ps|
      invariant names == Map(ps[..i], BarLabel)
      invariant scores == Map(ps[..i], BarValue)
    {
      PrefixSnoc(ps, i);
      MapSnoc(ps[..i], ps[i], BarLabel);
      MapSnoc(ps[..i], ps[i], BarValue);
      names := names + [BarLabel(ps[i])];
      scores := scores + [BarValue(ps[i])];
    }
    assert ps[..|ps|] == ps;
    chart := XyChart("Pillar Scores (%)", names, "Score", scores, []);
  }

  /**
   * Each bar reads back: its label quotes the pillar's short name and its
   * value is the pillar's percentage, so pillars with different
   * percentages get different bars.
   */
  lemma BarsReadBack(ps: seq<PillarEntry>, i: nat, j: nat)
    requires i < |ps| && j < |ps|
    ensures var labels := Map(ps, BarLabel);
      |labels[i]| >= 2 && labels[i][1..|labels[i]| - 1] == ShortName(ps[i].name)
    ensures Map(ps, BarValue)[i] == Map(ps, BarValue)[j] ==> ps[i].percentage == ps[j].percentage
  {
    var l := Map(ps, BarLabel)[i];
    assert l[1..|l| - 1] == ShortName(ps[i].name);
    if Map(ps, BarValue)[i] == Map(ps, BarValue)[j] {
      NatToStringInjective(ps[i].percentage, ps[j].percentage);
    }
  }

  const Marker: string := " *"

  /** `"L{level}{marker}"` with the marker on every achieved level. */
  function LevelLabel(level: nat, achieved: int): string
  {
    Quoted("L" + NatToString(level) + (if level <= achieved then Marker else ""))
  }

  /** `str(int(score))`: a score in tenths of a percent truncated to whole percent; a missing level scores 0. */
  function LevelValue(ls: map<int, nat>, level: nat): string
  {
    NatToString(ScoreAt(ls, level, 0) / 10)
  }

  predicate Marked(text: string)
  {
    |text| >= 3 && text[|text| - 3..] == Marker + "\""
  }

  /** `level_progress_mermaid`: levels 1..5 with their scores and a threshold line at 80. */
  method LevelProgress(ls: map<int, nat>, achieved: int) returns (chart: XyChart)
    ensures |chart.labels| == |chart.bars| == 5
    ensures forall k :: 0 <= k < 5 ==> chart.labels[k] == LevelLabel(k + 1, achieved)
    ensures forall k :: 0 <= k < 5 ==> chart.bars[k] == LevelValue(ls, k + 1)
    ensures chart.line == [80, 80, 80, 80, 80]
  {
    var levels: seq<string> := [];
    var scores: seq<string> := [];
    for level := 1 to 6
      invariant |levels| == |scores| == level - 1
      invariant forall k :: 0 <= k < level - 1 ==> levels[k] == LevelLabel(k + 1, achieved)
      invariant forall k :: 0 <= k < level - 1 ==> scores[k] == LevelValue(ls, k + 1)
    {
      var score := ScoreAt(ls, level, 0);
      var marker := if level <= achieved then Marker else "";
      levels := levels + [Quoted("L" + NatToString(level) + marker)];
      scores := scores + [NatToString(score / 10)];
    }
    chart := XyChart("Maturity Level Progress", levels, "Completion %", scores, [80, 80, 80, 80, 80]);
  }

  /** The marker sits on level k exactly when k is at most the achieved level. */
  lemma MarkedIff(level: nat, achieved: int)
    ensures Marked(LevelLabel(level, achieved)) <==> level <= achieved
  {
    var digits := NatToString(level);
    var l := LevelLabel(level, achieved);
    if level > achieved {
      assert l == "\"L" + digits + "\"";
      assert l[|l| - 2] == digits[|digits| - 1];
    } else {
      assert l == "\"L" + digits + Marker + "\"";
      assert l[|l| - 3..] == Marker + "\"";
    }
  }

  /**
   * On the analyzer's own scores the marked labels are exactly levels
   * 1..achieved, each marked level scores at least 80%, and a level whose
   * bar stays below 80 is never marked.
   */
  lemma LevelProgressForAnalysis(ls: map<int, nat>, achieved: int)
    requires forall k :: 1 <= k <= 5 ==> k in ls
    requires achieved == Achieved(ScoresOf(ls))
    ensures forall k :: 1 <= k <= 5 ==> (Marked(LevelLabel(k, achieved)) <==> k <= achieved)
    ensures forall k :: 1 <= k <= 5 && Marked(LevelLabel(k, achieved)) ==> ls[k] / 10 >= 80
    ensures forall k :: 1 <= k <= 5 && ls[k] / 10 < 80 ==> !Marked(LevelLabel(k, achieved))
  {
    var scores := ScoresOf(ls);
    forall k | 1 <= k <= 5
      ensures Marked(LevelLabel(k, achieved)) <==> k <= achieved
      ensures k <= achieved ==> ls[k] >= Gate
    {
      MarkedIff(k, achieved);
      if k <= achieved {
        assert scores[k - 1] == ls[k];
      }
    }
  }

  /** One slice of the pie: its label and its value. */
  datatype Slice = Slice(text: string, value: nat)

  function SliceOf(name: string, n: nat): Slice
  {
    Slice(name + " (" + NatToString(n) + ")", n)
  }

  /** `distribution_pie_mermaid`: a Pass, a Fail and a Skip slice, each labelled with its count. */
  function DistributionPie(passed: nat, failed: nat, skipped: nat): (r: seq<Slice>)
    ensures |r| == 3
    ensures r[0].value == passed && r[1].value == failed && r[2].value == skipped
    ensures forall k :: 0 <= k < 3 ==> StartsWith(r[k].text, ["Pass", "Fail", "Skip"][k])
  {
    var r := [SliceOf("Pass", passed), SliceOf("Fail", failed), SliceOf("Skip", skipped)];
    assert r[0].text[..4] == "Pass" && r[1].text[..4] == "Fail" && r[2].text[..4] == "Skip";
    r
  }

  /** A slice's label shows its own value, and only that value. */
  lemma SliceLabelReadsBack(name: string, a: nat, b: nat)
    requires SliceOf(name, a).text == SliceOf(name, b).text
    ensures a == b
  {
    var la := SliceOf(name, a).text;
    var da := NatToString(a);
    var db := NatToString(b);
    assert la[|name| + 2..|la| - 1] == da;
    assert SliceOf(name, b).text[|name| + 2..|la| - 1] == db;
    NatToStringInjective(a, b);
  }

  // ---------------------------------------------------------------------
  // Roadmap flowchart
  // ---------------------------------------------------------------------

  /** One line of the flowchart. */
  datatype FlowLine =
    | Open                              // ```mermaid
    | Kind                              // flowchart LR
    | Node(id: char, text: string)     // X["text"]
    | Goal(id: char, text: string)     // X(["text"])
    | Edge(src: char, dst: char)        // X --> Y
    | Style(id: char, fill: string)     // style X fill:...
    | Close                             // ```

  /** `(node letter, criterion id, shortened reason)` */
  datatype Step = Step(node: char, id: string, shortReason: string)

  /** `chr(ord("B") + i)` */
  function NodeId(i: nat): (r: char)
    requires i < 30
    ensures r as int == 'B' as int + i
  {
    ('B' as int + i) as char
  }

  /** Later steps get later letters, and no step takes the start node's letter 'A'. */
  lemma NodeIdOrder(i: nat, j: nat)
    requires i < j < 30
    ensures NodeId(i) < NodeId(j)
    ensures NodeId(i) != 'A' && NodeId(j) != 'A'
  {
  }

  /** A reason longer than 30 characters is cut to 30 and marked with "...". */
  function ShortReason(reason: string): (r: string)
    ensures |r| <= 33
    ensures |reason| <= 30 ==> r == reason
    ensures |reason| > 30 ==> |r| == 33 && StartsWith(reason, r[..30]) && r[30..] == "..."
  {
    if |reason| > 30 then reason[..30] + "..." else reason
  }

  /** `f"L{n}"` for any integer. */
  function LevelText(n: int): string
  {
    "L" + (if n >= 0 then NatToString(n) else "-" + NatToString(-n))
  }

  function CurrentLabel(current: int): string
  {
    if current > 0 then LevelText(current) else "Pre-L1"
  }

  const StartFill: string := "#f9f"
  const GoalFill: string := "#9f9"

  /** The (at most four) steps the roadmap shows. */
  function StepsOf(opps: seq<(string, string, string)>): (r: seq<Step>)
    ensures |r| == |Take(opps, 4)| <= 4
    ensures forall i :: 0 <= i < |r| ==> r[i] == Step(NodeId(i), opps[i].0, ShortReason(opps[i].1))
  {
    var o := Take(opps, 4);
    seq(|o|, i requires 0 <= i < |o| => Step(NodeId(i), o[i].0, ShortReason(o[i].1)))
  }

  /** The node the next edge starts from: the last step's, or the start node A. */
  function LastNode(steps: seq<Step>): char
  {
    if |steps| == 0 then 'A' else steps[|steps| - 1].node
  }

  /** A node line and an edge from the previous node, per step. */
  function StepLines(steps: seq<Step>): seq<FlowLine>
    decreases |steps|
  {
    if |steps| == 0 then []
    else
      var init := steps[..|steps| - 1];
      var s := steps[|steps| - 1];
      StepLines(init) + [Node(s.node, s.id), Edge(LastNode(init), s.node)]
  }

  /** The lines of `roadmap_flowchart_mermaid`. */
  function RoadmapLines(current: int, target: int, opps: seq<(string, string, string)>): seq<FlowLine>
  {
    var steps := StepsOf(opps);
    var final := NodeId(|steps|);
    [Open, Kind, Node('A', CurrentLabel(current))] + StepLines(steps) +
      [Goal(final, LevelText(target)), Edge(LastNode(steps), final), Style('A', StartFill), Style(final, GoalFill), Close]
  }

  lemma StepLinesSnoc(steps: seq<Step>, i: nat)
    requires i < |steps|
    ensures StepLines(steps[..i + 1]) == StepLines(steps[..i]) + [Node(steps[i].node, steps[i].id), Edge(LastNode(steps[..i]), steps[i].node)]
  {
    assert steps[..i + 1][..i] == steps[..i];
  }

  /** The loop over `enumerate(opportunities[:4])` that builds the steps. */
  method BuildSteps(opps: seq<(string, string, string)>) returns (steps: seq<Step>)
    ensures steps == StepsOf(opps)
  {
    var o := Take(opps, 4);
    steps := [];
    for i := 0 to |o|
      invariant steps == StepsOf(opps)[..i]
    {
      steps := steps + [Step(NodeId(i), o[i].0, ShortReason(o[i].1))];
    }
  }

  /** The loop that emits a node and an edge per step, threading `prev`; returns the last `prev`. */
  method ChainSteps(steps: seq<Step>) returns (lines: seq<FlowLine>, prev: char)
    ensures lines == StepLines(steps) && prev == LastNode(steps)
  {
    lines := [];
    prev := 'A';
    for i := 0 to |steps|
      invariant lines == StepLines(steps[..i])
      invariant prev == LastNode(steps[..i])
    {
      StepLinesSnoc(steps, i);
      lines := lines + [Node(steps[i].node, steps[i].id), Edge(prev, steps[i].node)];
      prev := steps[i].node;
      assert steps[..i + 1][i] == steps[i];
    }
    assert steps[..|steps|] == steps;
  }

  /** `roadmap_flowchart_mermaid` */
  method Roadmap(current: int, target: int, opps: seq<(string, string, string)>) returns (lines: seq<FlowLine>)
    ensures lines == RoadmapLines(current, target, opps)
  {
    var currentStr := CurrentLabel(current);
    var targetStr := LevelText(target);
    var steps := BuildSteps(opps);
    var chain, prev := ChainSteps(steps);
    var finalNode := NodeId(|steps|);
    lines := [Open, Kind, Node('A', currentStr)] + chain;
    lines := lines + [Goal(finalNode, targetStr), Edge(prev, finalNode)];
    lines := lines + [Style('A', StartFill), Style(finalNode, GoalFill), Close];
  }

  lemma {:induction false} StepLinesLength(steps: seq<Step>)
    ensures |StepLines(steps)| == 2 * |steps|
    decreases |steps|
  {
    if |steps| > 0 {
      StepLinesLength(steps[..|steps| - 1]);
    }
  }

  /** Step j contributes its node and the edge into it from the node before it (or A). */
  lemma {:induction false} StepLinesAt(steps: seq<Step>, j: nat)
    requires j < |steps|
    ensures |StepLines(steps)| == 2 * |steps|
    ensures StepLines(steps)[2 * j] == Node(steps[j].node, steps[j].id)
    ensures StepLines(steps)[2 * j + 1] == Edge(LastNode(steps[..j]), steps[j].node)
    decreases |steps|
  {
    var init := steps[..|steps| - 1];
    StepLinesLength(steps);
    StepLinesLength(init);
    if j < |init| {
      StepLinesAt(init, j);
      assert init[..j] == steps[..j];
    }
  }

  /** The number of steps: at most four. */
  function StepCount(opps: seq<(string, string, string)>): nat
  {
    if |opps| < 4 then |opps| else 4
  }

  /** The frame of the roadmap: start node, goal node and styles around the steps. */
  lemma RoadmapFrame(current: int, target: int, opps: seq<(string, string, string)>)
    ensures var n := StepCount(opps);
      var lines := RoadmapLines(current, target, opps);
      |lines| == 8 + 2 * n &&
      lines[2] == Node('A', CurrentLabel(current)) &&
      lines[3 + 2 * n] == Goal(NodeId(n), LevelText(target)) &&
      lines[4 + 2 * n] == Edge(if n == 0 then 'A' else NodeId(n - 1), NodeId(n)) &&
      lines[5 + 2 * n] == Style('A', StartFill) && lines[6 + 2 * n] == Style(NodeId(n), GoalFill)
  {
    var steps := StepsOf(opps);
    var n := |steps|;
    StepLinesLength(steps);
    var head := [Open, Kind, Node('A', CurrentLabel(current))];
    var tail := [Goal(NodeId(n), LevelText(target)), Edge(LastNode(steps), NodeId(n)), Style('A', StartFill), Style(NodeId(n), GoalFill), Close];
    assert RoadmapLines(current, target, opps) == head + StepLines(steps) + tail;
    assert LastNode(steps) == if n == 0 then 'A' else NodeId(n - 1);
  }

  /** Step j of the roadmap: node chr('B' + j) labelled with its criterion id, entered from the node before. */
  lemma RoadmapStep(current: int, target: int, opps: seq<(string, string, string)>, j: nat)
    requires j < StepCount(opps)
    ensures var lines := RoadmapLines(current, target, opps);
      |lines| == 8 + 2 * StepCount(opps) &&
      lines[3 + 2 * j] == Node(NodeId(j), opps[j].0) &&
      lines[4 + 2 * j] == Edge(if j == 0 then 'A' else NodeId(j - 1), NodeId(j))
  {
    var steps := StepsOf(opps);
    StepLinesAt(steps, j);
    var head := [Open, Kind, Node('A', CurrentLabel(current))];
    var lines := RoadmapLines(current, target, opps);
    var sl := StepLines(steps);
    assert lines[3 + 2 * j] == sl[2 * j] && lines[4 + 2 * j] == sl[2 * j + 1];
    assert LastNode(steps[..j]) == if j == 0 then 'A' else NodeId(j - 1);
  }

  /**
   * The roadmap has 8 + 2·steps lines with at most four steps. The start
   * node A shows the current level ("Pre-L1" below level 1); step j is
   * node chr('B' + j) labelled with its criterion id alone, entered from
   * the node before it; the goal node chr('B' + steps) is entered from
   * the last step (or A), so the edges form one chain A -> B -> ... -> goal.
   */
  lemma RoadmapShape(current: int, target: int, opps: seq<(string, string, string)>)
    ensures StepCount(opps) <= 4
    ensures |RoadmapLines(current, target, opps)| == 8 + 2 * StepCount(opps)
    ensures current <= 0 ==> RoadmapLines(current, target, opps)[2] == Node('A', "Pre-L1")
    ensures current > 0 ==> RoadmapLines(current, target, opps)[2] == Node('A', LevelText(current))
    ensures forall j :: 0 <= j < StepCount(opps) ==>
      RoadmapLines(current, target, opps)[3 + 2 * j] == Node(NodeId(j), opps[j].0) &&
      RoadmapLines(current, target, opps)[4 + 2 * j] == Edge(if j == 0 then 'A' else NodeId(j - 1), NodeId(j))
    ensures var n := StepCount(opps);
      RoadmapLines(current, target, opps)[3 + 2 * n] == Goal(NodeId(n), LevelText(target)) &&
      RoadmapLines(current, target, opps)[4 + 2 * n] == Edge(if n == 0 then 'A' else NodeId(n - 1), NodeId(n))
  {
    RoadmapFrame(current, target, opps);
    forall j | 0 <= j < StepCount(opps)
      ensures RoadmapLines(current, target, opps)[3 + 2 * j] == Node(NodeId(j), opps[j].0)
      ensures RoadmapLines(current, target, opps)[4 + 2 * j] == Edge(if j == 0 then 'A' else NodeId(j - 1), NodeId(j))
    {
      RoadmapStep(current, target, opps, j);
    }
  }

  /** Step lines depend on the steps' nodes and ids only. */
  lemma {:induction false} StepLinesIgnoreReasons(s1: seq<Step>, s2: seq<Step>)
    requires |s1| == |s2|
    requires forall j :: 0 <= j < |s1| ==> s1[j].node == s2[j].node && s1[j].id == s2[j].id
    ensures StepLines(s1) == StepLines(s2)
    decreases |s1|
  {
    if |s1| > 0 {
      var k := |s1| - 1;
      StepLinesIgnoreReasons(s1[..k], s2[..k]);
      assert LastNode(s1[..k]) == LastNode(s2[..k]);
    }
  }

  /** The roadmap depends on the opportunities only through their first four ids: reasons and pillars never show. */
  lemma RoadmapIgnoresReasons(current: int, target: int, o1: seq<(string, string, string)>, o2: seq<(string, string, string)>)
    requires StepCount(o1) == StepCount(o2)
    requires forall j :: 0 <= j < StepCount(o1) ==> o1[j].0 == o2[j].0
    ensures RoadmapLines(current, target, o1) == RoadmapLines(current, target, o2)
  {
    StepLinesIgnoreReasons(StepsOf(o1), StepsOf(o2));
  }

  // ---------------------------------------------------------------------
  // generate_visual_summary_mermaid
  // ---------------------------------------------------------------------

  function IsPassing(e: Entry): bool
  {
    e.status == "pass"
  }

  function IsSkipped(e: Entry): bool
  {
    e.status == "skip"
  }

  /**
   * The three counts never exceed the number of criteria, and add up to
   * it when every status is one of the three.
   */
  lemma {:induction false} StatusCounts(all: seq<Entry>)
    ensures Count(all, IsPassing) + Count(all, IsFailing) + Count(all, IsSkipped) <= |all|
    ensures (forall e :: e in all ==> KnownStatus(e)) ==>
      Count(all, IsPassing) + Count(all, IsFailing) + Count(all, IsSkipped) == |all|
    decreases |all|
  {
    if |all| > 0 {
      var init := all[..|all| - 1];
      var e := all[|all| - 1];
      assert all == init + [e];
      assert forall x :: x in init ==> x in all;
      StatusCounts(init);
      FilterSnoc(init, e, IsPassing);
      FilterSnoc(init, e, IsFailing);
      FilterSnoc(init, e, IsSkipped);
      assert Count(all, IsPassing) == Count(init, IsPassing) + (if IsPassing(e) then 1 else 0);
      assert Count(all, IsFailing) == Count(init, IsFailing) + (if IsFailing(e) then 1 else 0);
      assert Count(all, IsSkipped) == Count(init, IsSkipped) + (if IsSkipped(e) then 1 else 0);
      assert e in all;
    }
  }

  /**
   * The level of the first criterion, in pillar and criterion order, with
   * the given id; 99 when there is none.
   */
  function FirstLevel(all: seq<Entry>, id: string): (r: int)
    decreases |all|
  {
    if |all| == 0 then 99
    else if all[0].id == id then all[0].level
    else FirstLevel(all[1..], id)
  }

  /** The sort key of the visual summary's opportunities. */
  function LevelKey(all: seq<Entry>): ((string, string, string)) -> int
  {
    (o: (string, string, string)) => FirstLevel(all, o.0)
  }

  /** The summary's opportunities: failures as (id, reason, pillar), stably sorted by first level. */
  function SummaryOpportunitiesOf(ps: seq<PillarEntry>): seq<(string, string, string)>
  {
    StableSort(Map(OpportunitiesOf(ps), Brief), LevelKey(AllEntries(ps)))
  }

  /** `min(achieved + 1, 5) if achieved < 5 else 5` */
  function TargetLevel(achieved: int): (r: int)
    ensures 0 <= achieved < 5 ==> r == achieved + 1
    ensures achieved >= 5 ==> r == 5
    ensures achieved >= 0 ==> 1 <= r <= 5
  {
    if achieved < 5 then (if achieved + 1 < 5 then achieved + 1 else 5) else 5
  }

  /** The visual summary: three charts and, when something failed, the roadmap. */
  datatype Summary = Summary(bars: XyChart, progress: XyChart, pie: seq<Slice>, roadmap: Option<seq<FlowLine>>)

  /** Collects the failures pillar by pillar and sorts them in place by first level. */
  method SummaryOpportunities(ps: seq<PillarEntry>) returns (opps: seq<(string, string, string)>)
    ensures opps == SummaryOpportunitiesOf(ps)
  {
    opps := [];
    for i := 0 to |ps|
      invariant opps == Map(OpportunitiesOf(ps[..i]), Brief)
    {
      var p := ps[i];
      ghost var before := OpportunitiesOf(ps[..i]);
      for j := 0 to |p.criteria|
        invariant opps == Map(before + FailsOf(p.name, p.criteria[..j]), Brief)
      {
        var c := p.criteria[j];
        FailsOfStep(p.name, p.criteria, j);
        ghost var found := if c.status == "fail" then [Opportunity(c.id, c.level, c.reason, p.name)] else [];
        MapAppend(before + FailsOf(p.name, p.criteria[..j]), found, Brief);
        if c.status == "fail" {
          opps := opps + [(c.id, c.reason, p.name)];
        }
        assert before + FailsOf(p.name, p.criteria[..j + 1]) == before + FailsOf(p.name, p.criteria[..j]) + found;
      }
      assert p.criteria[..|p.criteria|] == p.criteria;
      OpportunitiesStep(ps, i);
    }
    assert ps[..|ps|] == ps;
    opps := StableSort(opps, LevelKey(AllEntries(ps)));
  }

  /** `generate_visual_summary_mermaid` */
  method VisualSummary(ls: map<int, nat>, achieved: int, ps: seq<PillarEntry>) returns (s: Summary)
    ensures s.bars.labels == Map(ps, BarLabel) && s.bars.bars == Map(ps, BarValue)
    ensures |s.progress.labels| == 5 && forall k :: 0 <= k < 5 ==> s.progress.labels[k] == LevelLabel(k + 1, achieved)
    ensures |s.progress.bars| == 5 && forall k :: 0 <= k < 5 ==> s.progress.bars[k] == LevelValue(ls, k + 1)
    ensures s.progress.line == [80, 80, 80, 80, 80]
    ensures s.pie == DistributionPie(Count(AllEntries(ps), IsPassing), Count(AllEntries(ps), IsFailing), Count(AllEntries(ps), IsSkipped))
    ensures s.roadmap.Some? <==> |SummaryOpportunitiesOf(ps)| > 0
    ensures s.roadmap.Some? ==> s.roadmap.value == RoadmapLines(achieved, TargetLevel(achieved), SummaryOpportunitiesOf(ps))
  {
    var all := AllEntries(ps);
    var passed := Count(all, IsPassing);
    var failed := Count(all, IsFailing);
    var skipped := Count(all, IsSkipped);
    var opps := SummaryOpportunities(ps);
    var target := TargetLevel(achieved);
    var bars := PillarBarChart(ps);
    var progress := LevelProgress(ls, achieved);
    var roadmap: Option<seq<FlowLine>> := None;
    if |opps| > 0 {
      var lines := Roadmap(achieved, target, opps);
      roadmap := Some(lines);
    }
    s := Summary(bars, progress, DistributionPie(passed, failed, skipped), roadmap);
  }

  /** The roadmap section appears exactly when some criterion failed. */
  lemma RoadmapIffFailure(ps: seq<PillarEntry>)
    ensures |SummaryOpportunitiesOf(ps)| > 0 <==> exists e :: e in AllEntries(ps) && e.status == "fail"
  {
    var o := Map(OpportunitiesOf(ps), Brief);
    StableSortFacts(o, LevelKey(AllEntries(ps)));
    OpportunitiesAreFailures(ps);
    var f := Filter(AllEntries(ps), IsFailing);
    assert |OpportunitiesOf(ps)| == |f|;
    if exists e :: e in AllEntries(ps) && e.status == "fail" {
      var e :| e in AllEntries(ps) && e.status == "fail";
      FilterMember(AllEntries(ps), IsFailing, e);
    } else if |f| > 0 {
      FilterMember(AllEntries(ps), IsFailing, f[0]);
    }
  }

  /**
   * On an analysis the pie counts every criterion once: the three slices
   * add up to the number of criteria.
   */
  lemma PieCountsAll(a: AnalysisResult)
    ensures var all := AllEntries(PillarEntries(a));
      var pie := DistributionPie(Count(all, IsPassing), Count(all, IsFailing), Count(all, IsSkipped));
      pie[0].value + pie[1].value + pie[2].value == |all|
  {
    AnalyzerStatuses(a);
    StatusCounts(AllEntries(PillarEntries(a)));
  }

  /**
   * On the analyzer's own scores, below level 5 the roadmap's target is the
   * first level not reached: every level below it passes the gate and it
   * does not.
   */
  lemma TargetIsFirstUnreached(ls: map<int, nat>, achieved: int)
    requires forall k :: 1 <= k <= 5 ==> k in ls
    requires achieved == Achieved(ScoresOf(ls))
    requires achieved < 5
    ensures 1 <= TargetLevel(achieved) <= 5 && ls[TargetLevel(achieved)] < Gate
    ensures forall k :: 1 <= k < TargetLevel(achieved) ==> ls[k] >= Gate
  {
    var scores := ScoresOf(ls);
    assert scores[achieved] == ls[achieved + 1];
    forall k | 1 <= k < TargetLevel(achieved) ensures ls[k] >= Gate {
      assert scores[k - 1] == ls[k];
    }
  }

  /** The first criterion with the id of criterion k is k itself when ids are distinct. */
  lemma {:induction false} FirstLevelDistinct(all: seq<Entry>, k: nat)
    requires k < |all|
    requires Distinct(Map(all, EntryId))
    ensures FirstLevel(all, all[k].id) == all[k].level
    decreases k
  {
    if k > 0 {
      assert Map(all, EntryId)[0] != Map(all, EntryId)[k];
      var rest := all[1..];
      assert Map(rest, EntryId) == Map(all, EntryId)[1..];
      assert rest[k - 1] == all[k];
      FirstLevelDistinct(rest, k - 1);
    }
  }

  lemma {:induction false} AllEntriesMember(ps: seq<PillarEntry>, p: PillarEntry, e: Entry)
    requires p in ps && e in p.criteria
    ensures e in AllEntries(ps)
    decreases |ps|
  {
    if ps[|ps| - 1] != p {
      var init := ps[..|ps| - 1];
      assert ps == init + [ps[|ps| - 1]];
      AllEntriesMember(init, p, e);
    }
  }

  /**
   * When criterion ids are distinct, sorting by the first level carrying
   * an id is sorting by each failure's own level: the summary lists the
   * failures in the markdown report's order, so the roadmap's steps are
   * the report's first four opportunities.
   */
  lemma SummaryOrderAgrees(ps: seq<PillarEntry>)
    requires Distinct(Map(AllEntries(ps), EntryId))
    ensures SummaryOpportunitiesOf(ps) == Map(StableSort(OpportunitiesOf(ps), ByLevel), Brief)
    ensures Take(SummaryOpportunitiesOf(ps), 4) == TopOpportunitiesOf(ps, 4)
  {
    var all := AllEntries(ps);
    var o := OpportunitiesOf(ps);
    forall y | y in o ensures LevelKey(all)(Brief(y)) == ByLevel(y) {
      OpportunitiesMember(ps, y);
      var p, e :| p in ps && e in p.criteria && e.status == "fail" && y == Opportunity(e.id, e.level, e.reason, p.name);
      AllEntriesMember(ps, p, e);
      var k :| 0 <= k < |all| && all[k] == e;
      FirstLevelDistinct(all, k);
    }
    SortMap(o, Brief, ByLevel, LevelKey(all));
    var s := StableSort(o, ByLevel);
    assert Take(Map(s, Brief), 4) == Map(Take(s, 4), Brief);
  }
}
