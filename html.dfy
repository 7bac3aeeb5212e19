/**
 * The HTML report (skills/readiness-report/scripts/html_report.py): HTML
 * escaping, status indicators, the five level bars, the achieved-level
 * statistic and the per-pillar criteria sections. The strengths and
 * opportunities it shows are selected exactly as in the Markdown report
 * (Report.TopStrengths, Report.TopOpportunities). Markup, styles and the
 * embedded logo are not modelled.
 */
module Html {
  import opened Seqs
  import opened Text
  import opened Scoring
  import opened Analysis
  import opened ReportData
  import opened Report

  // ---------------------------------------------------------------------
  // _escape_html
  // ---------------------------------------------------------------------

  const Amp: string := "&amp;"
  const Lt: string := "&lt;"
  const Gt: string := "&gt;"
  const Quot: string := "&quot;"

  /** `&` first, then `<`, `>` and `"`; the single quote is left alone. */
  function EscapeHtml(s: string): (r: string)
    ensures '&' !in s && '<' !in s && '>' !in s && '"' !in s ==> r == s
  {
    ReplaceChar(ReplaceChar(ReplaceChar(ReplaceChar(s, '&', Amp), '<', Lt), '>', Gt), '"', Quot)
  }

  /** What one character escapes to. */
  function EscapeChar(c: char): string
  {
    if c == '&' then Amp
    else if c == '<' then Lt
    else if c == '>' then Gt
    else if c == '"' then Quot
    else [c]
  }

  lemma EscapeAppend(a: string, b: string)
    ensures EscapeHtml(a + b) == EscapeHtml(a) + EscapeHtml(b)
  {
    ReplaceCharAppend(a, b, '&', Amp);
    var a1 := ReplaceChar(a, '&', Amp);
    var b1 := ReplaceChar(b, '&', Amp);
    ReplaceCharAppend(a1, b1, '<', Lt);
    var a2 := ReplaceChar(a1, '<', Lt);
    var b2 := ReplaceChar(b1, '<', Lt);
    ReplaceCharAppend(a2, b2, '>', Gt);
    var a3 := ReplaceChar(a2, '>', Gt);
    var b3 := ReplaceChar(b2, '>', Gt);
    ReplaceCharAppend(a3, b3, '"', Quot);
  }

  /** An entity is left alone by the replacements that follow the one producing it. */
  lemma EntitiesPlain()
    ensures '<' !in Amp && '>' !in Amp && '"' !in Amp
    ensures '>' !in Lt && '"' !in Lt
    ensures '"' !in Gt
  {
  }

  /** Escaping one character gives its escape: the chained replacements do not interfere. */
  lemma EscapeOne(c: char)
    ensures EscapeHtml([c]) == EscapeChar(c)
  {
    EntitiesPlain();
    ReplaceCharOne(c, '&', Amp);
    var s1 := ReplaceChar([c], '&', Amp);
    var s2 := ReplaceChar(s1, '<', Lt);
    var s3 := ReplaceChar(s2, '>', Gt);
    if c == '&' {
      assert s1 == Amp && s2 == Amp && s3 == Amp;
    } else {
      ReplaceCharOne(c, '<', Lt);
      if c == '<' {
        assert s2 == Lt && s3 == Lt;
      } else {
        ReplaceCharOne(c, '>', Gt);
        if c != '>' {
          ReplaceCharOne(c, '"', Quot);
        }
      }
    }
  }

  /** Escaping works character by character. */
  lemma EscapeCons(c: char, t: string)
    ensures EscapeHtml([c] + t) == EscapeChar(c) + EscapeHtml(t)
  {
    EscapeAppend([c], t);
    EscapeOne(c);
  }

  lemma EscapeSnoc(t: string, c: char)
    ensures EscapeHtml(t + [c]) == EscapeHtml(t) + EscapeChar(c)
  {
    EscapeAppend(t, [c]);
    EscapeOne(c);
  }

  /** One of the four entities begins at i. */
  predicate EntityAt(s: string, i: int)
  {
    OccursAt(s, Amp, i) || OccursAt(s, Lt, i) || OccursAt(s, Gt, i) || OccursAt(s, Quot, i)
  }

  /** Every `&` of s begins an entity. */
  predicate AmpsEscaped(s: string)
  {
    forall i :: 0 <= i < |s| && s[i] == '&' ==> EntityAt(s, i)
  }

  lemma AmpsEscapedAppend(a: string, b: string)
    requires AmpsEscaped(a) && AmpsEscaped(b)
    ensures AmpsEscaped(a + b)
  {
    forall i | 0 <= i < |a + b| && (a + b)[i] == '&'
      ensures EntityAt(a + b, i)
    {
      if i < |a| {
        assert a[i] == '&';
        if OccursAt(a, Amp, i) { OccursAtLeft(a, b, Amp, i); }
        else if OccursAt(a, Lt, i) { OccursAtLeft(a, b, Lt, i); }
        else if OccursAt(a, Gt, i) { OccursAtLeft(a, b, Gt, i); }
        else { OccursAtLeft(a, b, Quot, i); }
      } else {
        var j := i - |a|;
        assert b[j] == '&';
        if OccursAt(b, Amp, j) { OccursAtRight(a, b, Amp, j); }
        else if OccursAt(b, Lt, j) { OccursAtRight(a, b, Lt, j); }
        else if OccursAt(b, Gt, j) { OccursAtRight(a, b, Gt, j); }
        else { OccursAtRight(a, b, Quot, j); }
      }
    }
  }

  lemma EscapeCharSafe(c: char)
    ensures var e := EscapeChar(c);
      '<' !in e && '>' !in e && '"' !in e && AmpsEscaped(e) && ('\'' in e <==> c == '\'')
  {
    var e := EscapeChar(c);
    if c == '&' || c == '<' || c == '>' || c == '"' {
      assert forall i :: 0 < i < |e| ==> e[i] != '&';
      assert OccursAt(e, e, 0);
    }
  }

  /**
   * Escaped text holds no `<`, `>` or `"`; every `&` in it begins one of
   * the four entities; and it holds a single quote exactly when the input
   * does, since the single quote is not escaped.
   */
  lemma {:induction false} EscapeSafe(s: string)
    ensures var r := EscapeHtml(s);
      '<' !in r && '>' !in r && '"' !in r && AmpsEscaped(r) && ('\'' in r <==> '\'' in s)
    decreases |s|
  {
    if |s| == 0 {
      assert EscapeHtml(s) == "";
    } else {
      var init := s[..|s| - 1];
      var c := s[|s| - 1];
      assert s == init + [c];
      EscapeSafe(init);
      EscapeSnoc(init, c);
      EscapeCharSafe(c);
      AmpsEscapedAppend(EscapeHtml(init), EscapeChar(c));
    }
  }

  /** The reference decoder of the four entities (what a browser shows). */
  function Unescape(s: string): string
    decreases |s|
  {
    if |s| == 0 then ""
    else if StartsWith(s, Amp) then "&" + Unescape(s[|Amp|..])
    else if StartsWith(s, Lt) then "<" + Unescape(s[|Lt|..])
    else if StartsWith(s, Gt) then ">" + Unescape(s[|Gt|..])
    else if StartsWith(s, Quot) then "\"" + Unescape(s[|Quot|..])
    else [s[0]] + Unescape(s[1..])
  }

  // Decoding one entity, or one plain character, at the front: each
  // entity differs from the others in its second character.

  lemma UnescapeAmp(t: string)
    ensures Unescape(Amp + t) == "&" + Unescape(t)
  {
    var s := Amp + t;
    assert s[..|Amp|] == Amp && s[|Amp|..] == t;
  }

  lemma UnescapeLt(t: string)
    ensures Unescape(Lt + t) == "<" + Unescape(t)
  {
    var s := Lt + t;
    assert s[1] == 'l' != Amp[1];
    assert s[..|Lt|] == Lt && s[|Lt|..] == t;
  }

  lemma UnescapeGt(t: string)
    ensures Unescape(Gt + t) == ">" + Unescape(t)
  {
    var s := Gt + t;
    assert s[1] == 'g' != Amp[1] && s[1] != Lt[1];
    assert s[..|Gt|] == Gt && s[|Gt|..] == t;
  }

  lemma UnescapeQuot(t: string)
    ensures Unescape(Quot + t) == "\"" + Unescape(t)
  {
    var s := Quot + t;
    assert s[1] == 'q' != Amp[1] && s[1] != Lt[1] && s[1] != Gt[1];
    assert s[..|Quot|] == Quot && s[|Quot|..] == t;
  }

  lemma UnescapePlain(c: char, t: string)
    requires c != '&'
    ensures Unescape([c] + t) == [c] + Unescape(t)
  {
    var s := [c] + t;
    assert s[0] == c && s[1..] == t;
  }

  lemma UnescapeChar(c: char, t: string)
    ensures Unescape(EscapeChar(c) + t) == [c] + Unescape(t)
  {
    if c == '&' {
      UnescapeAmp(t);
    } else if c == '<' {
      UnescapeLt(t);
    } else if c == '>' {
      UnescapeGt(t);
    } else if c == '"' {
      UnescapeQuot(t);
    } else {
      UnescapePlain(c, t);
    }
  }

  /** Escaping loses nothing: decoding the escaped text gives the input back. */
  lemma {:induction false} UnescapeEscape(s: string)
    ensures Unescape(EscapeHtml(s)) == s
    decreases |s|
  {
    if |s| == 0 {
      assert EscapeHtml(s) == "";
    } else {
      assert s == [s[0]] + s[1..];
      EscapeCons(s[0], s[1..]);
      UnescapeChar(s[0], EscapeHtml(s[1..]));
      UnescapeEscape(s[1..]);
    }
  }

  // ---------------------------------------------------------------------
  // _get_status_html
  // ---------------------------------------------------------------------

  const PassSpan: string := "<span class=\"status pass\">&#x2713;</span>"
  const FailSpan: string := "<span class=\"status fail\">&#x2717;</span>"
  const SkipSpan: string := "<span class=\"status skip\">&#x2014;</span>"

  /** Three outcomes: pass, fail, and the skip indicator for every other status. */
  function StatusHtml(status: string): (r: string)
    ensures r == PassSpan <==> status == "pass"
    ensures r == FailSpan <==> status == "fail"
    ensures r == SkipSpan <==> status != "pass" && status != "fail"
  {
    if status == "pass" then PassSpan else if status == "fail" then FailSpan else SkipSpan
  }

  /** The HTML indicator and the Markdown icon make the same three-way choice. */
  lemma StatusAgrees(status: string)
    ensures StatusHtml(status) == PassSpan <==> StatusIcon(status) == "✓"
    ensures StatusHtml(status) == FailSpan <==> StatusIcon(status) == "✗"
    ensures StatusHtml(status) == SkipSpan <==> StatusIcon(status) == "—"
  {
  }

  // ---------------------------------------------------------------------
  // Level bars and the achieved statistic of generate_html_report
  // ---------------------------------------------------------------------

  datatype LevelBar = LevelBar(level: nat, cls: string, percent: string)

  /** "achieved" for levels 1..achieved, else "passed" at 80% or more, else no class. */
  function LevelClass(score: nat, achieved: int, level: int): (r: string)
    ensures r == "achieved" <==> achieved > 0 && level <= achieved
    ensures r == "passed" <==> !(achieved > 0 && level <= achieved) && score >= Gate
    ensures r == "" <==> !(achieved > 0 && level <= achieved) && score < Gate
  {
    if achieved > 0 && level <= achieved then "achieved" else if score >= Gate then "passed" else ""
  }

  function LevelBarOf(ls: map<int, nat>, achieved: int, level: nat): LevelBar
  {
    var score := ScoreAt(ls, level, 0);
    LevelBar(level, LevelClass(score, achieved, level), PercentText(score))
  }

  method LevelBars(ls: map<int, nat>, achieved: int) returns (bars: seq<LevelBar>)
    ensures |bars| == 5 && forall i :: 0 <= i < 5 ==> bars[i] == LevelBarOf(ls, achieved, i + 1)
  {
    bars := [];
    for level := 1 to 6
      invariant |bars| == level - 1
      invariant forall i :: 0 <= i < level - 1 ==> bars[i] == LevelBarOf(ls, achieved, i + 1)
    {
      var score := ScoreAt(ls, level, 0);
      var isAchieved := achieved > 0 && level <= achieved;
      var levelClass := if isAchieved then "achieved" else (if score >= Gate then "passed" else "");
      bars := bars + [LevelBar(level, levelClass, PercentText(score))];
    }
  }

  /**
   * On the analyzer's own scores the HTML bars agree with the Markdown
   * table: a bar is "achieved" exactly when its row is, and a "passed" bar
   * is a row shown as passed or locked.
   */
  lemma BarsAgreeWithTable(ls: map<int, nat>, achieved: int)
    requires forall k :: 1 <= k <= 5 ==> k in ls
    requires achieved == Achieved(ScoresOf(ls))
    ensures forall k :: 1 <= k <= 5 ==>
      (LevelBarOf(ls, achieved, k).cls == "achieved" <==> LevelRowOf(ls, achieved, k).Reached?)
    ensures forall k :: 1 <= k <= 5 && LevelBarOf(ls, achieved, k).cls == "passed" ==>
      LevelRowOf(ls, achieved, k).Passed? || LevelRowOf(ls, achieved, k).Locked?
  {
    LevelTableForAnalysis(ls, achieved);
  }

  /** The achieved-level statistic: `L{achieved}`, or "L—" when none is achieved. */
  function AchievedStat(achieved: int): (r: string)
    ensures achieved <= 0 ==> r == "L—"
    ensures achieved > 0 ==> r == AchievedHeader(achieved)
  {
    "L" + (if achieved > 0 then NatToString(achieved) else "—")
  }

  /** "L—" appears exactly when no level is achieved; otherwise the statistic is the Markdown header. */
  lemma AchievedStatFacts(achieved: int)
    ensures AchievedStat(achieved) == "L—" <==> achieved <= 0
    ensures achieved > 0 ==> AchievedStat(achieved) == AchievedHeader(achieved)
  {
    if achieved > 0 {
      assert AchievedStat(achieved)[1] == NatToString(achieved)[0];
    }
  }

  // ---------------------------------------------------------------------
  // Criteria sections of generate_html_report
  // ---------------------------------------------------------------------

  /** One criterion line: status indicator, escaped id, score as given, escaped reason. */
  datatype CriterionRow = CriterionRow(status: string, id: string, score: string, reason: string)

  /** One pillar section: escaped name, `passed/total (pct%)`, and its criterion lines. */
  datatype PillarSection = PillarSection(name: string, passed: nat, total: nat, pct: string, rows: seq<CriterionRow>)

  function RowOf(e: Entry): CriterionRow
  {
    CriterionRow(StatusHtml(e.status), EscapeHtml(e.id), e.score, EscapeHtml(e.reason))
  }

  function SectionOf(p: PillarEntry): PillarSection
  {
    PillarSection(EscapeHtml(p.name), p.passed, p.total, NatToString(p.percentage) + "%", Map(p.criteria, RowOf))
  }

  function RowsOf(s: PillarSection): seq<CriterionRow>
  {
    s.rows
  }

  method CriteriaSections(ps: seq<PillarEntry>) returns (sections: seq<PillarSection>)
    ensures sections == Map(ps, SectionOf)
  {
    sections := [];
    for i := 0 to |ps|
      invariant sections == Map(ps[..i], SectionOf)
    {
      var p := ps[i];
      var rows: seq<CriterionRow> := [];
      for j := 0 to |p.criteria|
        invariant rows == Map(p.criteria[..j], RowOf)
      {
        var c := p.criteria[j];
        rows := rows + [CriterionRow(StatusHtml(c.status), EscapeHtml(c.id), c.score, EscapeHtml(c.reason))];
        PrefixSnoc(p.criteria, j);
        MapSnoc(p.criteria[..j], c, RowOf);
      }
      assert p.criteria[..|p.criteria|] == p.criteria;
      sections := sections + [PillarSection(EscapeHtml(p.name), p.passed, p.total, NatToString(p.percentage) + "%", rows)];
      PrefixSnoc(ps, i);
      MapSnoc(ps[..i], p, SectionOf);
    }
    assert ps[..|ps|] == ps;
  }

  /** A pillar appended to the report appends its criteria. */
  lemma EntriesSnoc(ps: seq<PillarEntry>)
    requires |ps| > 0
    ensures AllEntries(ps) == AllEntries(ps[..|ps| - 1]) + ps[|ps| - 1].criteria
  {
  }

  /** A pillar appended to the report appends one section, holding its rows. */
  lemma SectionsSnoc(ps: seq<PillarEntry>)
    requires |ps| > 0
    ensures Map(Map(ps, SectionOf), RowsOf) ==
      Map(Map(ps[..|ps| - 1], SectionOf), RowsOf) + [Map(ps[|ps| - 1].criteria, RowOf)]
  {
    var init := ps[..|ps| - 1];
    var last := ps[|ps| - 1];
    assert ps == init + [last];
    MapSnoc(init, last, SectionOf);
    MapSnoc(Map(init, SectionOf), SectionOf(last), RowsOf);
  }

  lemma {:induction false} SectionRowsInOrder(ps: seq<PillarEntry>)
    ensures Flatten(Map(Map(ps, SectionOf), RowsOf)) == Map(AllEntries(ps), RowOf)
    decreases |ps|
  {
    if |ps| > 0 {
      var init := ps[..|ps| - 1];
      var last := ps[|ps| - 1];
      var before := Map(Map(init, SectionOf), RowsOf);
      var rows := Map(last.criteria, RowOf);
      SectionRowsInOrder(init);
      SectionsSnoc(ps);
      FlattenSnoc(before, rows);
      EntriesSnoc(ps);
      MapAppend(AllEntries(init), last.criteria, RowOf);
    }
  }

  /**
   * Every criterion of every pillar is shown exactly once and in order:
   * the sections' lines, read in turn, are the report's criteria one for
   * one, each line's id and reason decoding back to the criterion's own.
   */
  lemma EveryCriterionOnce(ps: seq<PillarEntry>)
    ensures var rows := Flatten(Map(Map(ps, SectionOf), RowsOf));
      var all := AllEntries(ps);
      |rows| == |all| &&
      forall k :: 0 <= k < |rows| ==>
        rows[k] == RowOf(all[k]) &&
        Unescape(rows[k].id) == all[k].id && Unescape(rows[k].reason) == all[k].reason
  {
    SectionRowsInOrder(ps);
    var all := AllEntries(ps);
    forall k | 0 <= k < |all|
      ensures Unescape(RowOf(all[k]).id) == all[k].id && Unescape(RowOf(all[k]).reason) == all[k].reason
    {
      UnescapeEscape(all[k].id);
      UnescapeEscape(all[k].reason);
    }
  }
}
