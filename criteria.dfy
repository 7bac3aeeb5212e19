/**
 * The analyzer's result records and the rules that build one criterion
 * result: which criteria a repository type skips, the repo-scoped
 * pass/fail result, and the app-scoped result with its 80% threshold
 * (skills/readiness-report/scripts/analyze_repo.py).
 */
module Criteria {
  import opened Wrappers
  import opened Seqs
  import opened Text

  datatype Status = Pass | Fail | Skip

  /** The lower-case value the status serialises to. */
  function StatusName(s: Status): (r: string)
    ensures r in {"pass", "fail", "skip"}
    ensures (r == "pass" <==> s.Pass?) && (r == "fail" <==> s.Fail?)
  {
    match s
    case Pass => "pass"
    case Fail => "fail"
    case Skip => "skip"
  }

  /** A criterion's score: "—/—" when skipped, otherwise passed/checked. */
  datatype Score = NotScored | Ratio(num: nat, den: nat)

  const Dashes: string := "—/—"

  function ScoreText(sc: Score): (r: string)
    ensures sc.NotScored? <==> r == Dashes
    // a scored criterion reads "passed/checked" in decimal
    ensures sc.Ratio? ==>
      var n := NatToString(sc.num);
      |r| > |n| && r[..|n|] == n && r[|n|] == '/' && r[|n| + 1..] == NatToString(sc.den)
  {
    match sc
    case NotScored => Dashes
    case Ratio(n, d) =>
      var r := NatToString(n) + "/" + NatToString(d);
      assert r[0] != Dashes[0];
      r
  }

  datatype Scope = RepoScope | AppScope

  function ScopeName(s: Scope): string
  {
    if s.RepoScope? then "repo" else "app"
  }

  /**
   * A Python `dict[str, bool]` keeps its keys in insertion order; it is
   * modelled as the sequence of its items.
   */
  type Verdicts = seq<(string, bool)>

  predicate KeysDistinct(d: Verdicts)
  {
    forall i, j :: 0 <= i < j < |d| ==> d[i].0 != d[j].0
  }

  /** Position of key k among d's items, or -1. */
  function KeyIndex(d: Verdicts, k: string): (r: int)
    ensures -1 <= r < |d|
    ensures r >= 0 ==> d[r].0 == k && forall j :: 0 <= j < r ==> d[j].0 != k
    ensures r < 0 ==> forall j :: 0 <= j < |d| ==> d[j].0 != k
    decreases |d|
  {
    if |d| == 0 then -1
    else
      var i := KeyIndex(d[..|d| - 1], k);
      if i >= 0 then i else if d[|d| - 1].0 == k then |d| - 1 else -1
  }

  /** `d.get(k, default)`. */
  function DictGet(d: Verdicts, k: string, default: bool): (r: bool)
    ensures !HasKey(d, k) ==> r == default
    // with distinct keys, the value stored under k
    ensures KeysDistinct(d) ==> forall j :: 0 <= j < |d| && d[j].0 == k ==> r == d[j].1
  {
    var i := KeyIndex(d, k);
    if i >= 0 then d[i].1 else default
  }

  /** `d[k] = v`: overwrite in place when k is present, append otherwise. */
  function DictPut(d: Verdicts, k: string, v: bool): (r: Verdicts)
    ensures KeysDistinct(d) ==> KeysDistinct(r)
    ensures (k, v) in r
    ensures forall e :: e in r && e.0 != k ==> e in d
    ensures forall e :: e in d && e.0 != k ==> e in r
  {
    var i := KeyIndex(d, k);
    if i >= 0 then
      var r := d[i := (k, v)];
      assert forall j :: 0 <= j < |d| && j != i ==> r[j] == d[j];
      assert forall j :: 0 <= j < |d| ==> r[j].0 == d[j].0;
      assert r[i] == (k, v);
      r
    else d + [(k, v)]
  }

  /** The languages the analyzer recognises; Unknown stands in when none is found. */
  datatype Language = Python | TypeScript | JavaScript | Go | Rust | Java | Ruby | Cpp | Unknown

  /** The name a language is reported under. */
  function LanguageName(l: Language): string
  {
    match l
    case Python => "Python"
    case TypeScript => "TypeScript"
    case JavaScript => "JavaScript"
    case Go => "Go"
    case Rust => "Rust"
    case Java => "Java"
    case Ruby => "Ruby"
    case Cpp => "C++"
    case Unknown => "Unknown"
  }

  datatype AppInfo = AppInfo(name: string, path: string, languages: seq<Language>)

  /** `{app.name: verdict(app) for app in apps}`. */
  function AppVerdicts(apps: seq<AppInfo>, verdict: AppInfo -> bool): (r: Verdicts)
    ensures KeysDistinct(r)
    ensures |r| <= |apps|
    decreases |apps|
  {
    if |apps| == 0 then []
    else
      var last := apps[|apps| - 1];
      DictPut(AppVerdicts(apps[..|apps| - 1], verdict), last.name, verdict(last))
  }

  predicate NamesDistinct(apps: seq<AppInfo>)
  {
    forall i, j :: 0 <= i < j < |apps| ==> apps[i].name != apps[j].name
  }

  /**
   * With distinct app names the dictionary holds one item per app, in
   * the apps' order.
   */
  lemma {:induction false} AppVerdictsDistinct(apps: seq<AppInfo>, verdict: AppInfo -> bool)
    requires NamesDistinct(apps)
    ensures |AppVerdicts(apps, verdict)| == |apps|
    ensures forall i :: 0 <= i < |apps| ==> AppVerdicts(apps, verdict)[i] == (apps[i].name, verdict(apps[i]))
    decreases |apps|
  {
    if |apps| > 0 {
      var init := apps[..|apps| - 1];
      var last := apps[|apps| - 1];
      assert forall i :: 0 <= i < |init| ==> init[i] == apps[i];
      AppVerdictsDistinct(init, verdict);
      var d := AppVerdicts(init, verdict);
      assert KeyIndex(d, last.name) < 0 by {
        forall j | 0 <= j < |d| ensures d[j].0 != last.name {
          assert d[j].0 == apps[j].name;
        }
      }
      assert AppVerdicts(apps, verdict) == d + [(last.name, verdict(last))];
    }
  }

  /** Whether k is a key of the dictionary. */
  predicate HasKey(d: Verdicts, k: string)
  {
    exists i :: 0 <= i < |d| && d[i].0 == k
  }

  /** Whether some app carries the name n. */
  predicate HasName(apps: seq<AppInfo>, n: string)
  {
    exists j :: 0 <= j < |apps| && apps[j].name == n
  }

  /** `d[k] = v` adds k to the keys and keeps every other key. */
  lemma DictPutKeys(d: Verdicts, k: string, v: bool, n: string)
    ensures HasKey(DictPut(d, k, v), n) <==> HasKey(d, n) || n == k
  {
    var r := DictPut(d, k, v);
    if HasKey(r, n) && n != k {
      var i :| 0 <= i < |r| && r[i].0 == n;
      assert r[i] in d;
    }
    if n == k {
      assert (k, v) in r;
    } else if HasKey(d, n) {
      var i :| 0 <= i < |d| && d[i].0 == n;
      assert d[i] in r;
    }
  }

  lemma HasNameSnoc(apps: seq<AppInfo>, n: string)
    requires |apps| > 0
    ensures HasName(apps, n) <==> HasName(apps[..|apps| - 1], n) || apps[|apps| - 1].name == n
  {
    var init := apps[..|apps| - 1];
    if HasName(apps, n) && apps[|apps| - 1].name != n {
      var j :| 0 <= j < |apps| && apps[j].name == n;
      assert init[j].name == n;
    }
    if HasName(init, n) {
      var j :| 0 <= j < |init| && init[j].name == n;
      assert apps[j].name == n;
    }
  }

  /** Every app's name is a key, and every key is some app's name. */
  lemma {:induction false} AppVerdictsKeys(apps: seq<AppInfo>, verdict: AppInfo -> bool, n: string)
    ensures HasKey(AppVerdicts(apps, verdict), n) <==> HasName(apps, n)
    decreases |apps|
  {
    if |apps| > 0 {
      var last := apps[|apps| - 1];
      AppVerdictsKeys(apps[..|apps| - 1], verdict, n);
      DictPutKeys(AppVerdicts(apps[..|apps| - 1], verdict), last.name, verdict(last), n);
      HasNameSnoc(apps, n);
    }
  }

  /** Number of apps that pass. */
  function PassCount(d: Verdicts): nat
  {
    Count(d, (e: (string, bool)) => e.1)
  }

  /** Names of the failing apps, in the dictionary's order. */
  function FailingApps(d: Verdicts): (r: seq<string>)
    ensures |r| <= |d|
  {
    Map(Filter(d, (e: (string, bool)) => !e.1), (e: (string, bool)) => e.0)
  }

  /** An app is listed as failing exactly when its verdict is false. */
  lemma FailingAppsMember(d: Verdicts, n: string)
    requires KeysDistinct(d)
    ensures n in FailingApps(d) <==> (n, false) in d
  {
    var f := Filter(d, (e: (string, bool)) => !e.1);
    FilterMember(d, (e: (string, bool)) => !e.1, (n, false));
    if n in FailingApps(d) {
      var i :| 0 <= i < |f| && FailingApps(d)[i] == n;
      assert f[i] in f;
    }
    if (n, false) in d {
      var i :| 0 <= i < |f| && f[i] == (n, false);
      assert FailingApps(d)[i] == n;
    }
  }

  /** Passing and failing apps together account for all of them. */
  lemma PassFailPartition(d: Verdicts)
    ensures PassCount(d) + |FailingApps(d)| == |d|
  {
    CountSplit(d, (e: (string, bool)) => e.1, (e: (string, bool)) => !e.1);
  }

  /** The 80% threshold in exact arithmetic: passed/total >= 0.8 with total > 0. */
  predicate MeetsThreshold(passed: nat, total: nat)
    // no apps never meet it; otherwise at least 80 of every 100 apps pass
    ensures total == 0 ==> !MeetsThreshold(passed, total)
    ensures total > 0 ==> (MeetsThreshold(passed, total) <==> 100 * passed >= 80 * total)
  {
    total > 0 && 5 * passed >= 4 * total
  }

  datatype CriterionResult = CriterionResult(
    id: string,
    pillar: string,
    level: int,
    status: Status,
    score: Score,
    reason: string,
    scope: Scope,
    appVerdicts: Verdicts)

  /**
   * The status/score agreement every result keeps: a skipped criterion has
   * no score; otherwise the score counts passes among at least one check and
   * the status is PASS exactly when the passes reach 80%.
   */
  predicate ScoreConsistent(c: CriterionResult)
  {
    match c.status
    case Skip => c.score.NotScored?
    case _ =>
      c.score.Ratio? && c.score.num <= c.score.den &&
      (c.status.Pass? <==> MeetsThreshold(c.score.num, c.score.den))
  }

  datatype RepoType = Library | Cli | Database | Monorepo | Application

  function RepoTypeName(t: RepoType): string
  {
    match t
    case Library => "library"
    case Cli => "cli"
    case Database => "database"
    case Monorepo => "monorepo"
    case Application => "application"
  }

  /** Criteria a repository type does not apply, each with its reason. */
  function SkipRules(t: RepoType): (r: seq<(string, string)>)
    // only libraries, CLI tools and database projects have a table
    ensures t == Monorepo || t == Application ==> r == []
    ensures t == Library ==> |r| == 15
    ensures t == Database ==> |r| == 2
    ensures t == Cli ==> |r| == 3
    // every type with a table skips DAST scanning
    ensures r != [] ==> exists k :: 0 <= k < |r| && r[k].0 == "dast_scanning"
  {
    var rules := match t
      case Library => [
        ("health_checks", "Library, not a deployed service"),
        ("progressive_rollout", "Not applicable for a library"),
        ("rollback_automation", "Not applicable for a library"),
        ("dast_scanning", "Library, not a web service"),
        ("alerting_configured", "Library without runtime"),
        ("deployment_observability", "Library without deployments"),
        ("metrics_collection", "Library without runtime"),
        ("profiling_instrumentation", "Library where profiling not meaningful"),
        ("circuit_breakers", "Library without external dependencies"),
        ("distributed_tracing", "Library without runtime"),
        ("local_services_setup", "Library without external dependencies"),
        ("database_schema", "Library without database"),
        ("n_plus_one_detection", "Library without database/ORM"),
        ("privacy_compliance", "Library without user data"),
        ("pii_handling", "Library without user data")]
      case Database => [
        ("n_plus_one_detection", "Database project IS the database layer"),
        ("dast_scanning", "Database server, not web application")]
      case Cli => [
        ("dast_scanning", "CLI tool, not web application"),
        ("health_checks", "CLI tool, not a service"),
        ("progressive_rollout", "CLI tool without deployments")]
      case _ => [];
    assert t == Library ==> rules[3].0 == "dast_scanning";
    assert t == Database ==> rules[1].0 == "dast_scanning";
    assert t == Cli ==> rules[0].0 == "dast_scanning";
    rules
  }

  /** The reason of the first rule for id. */
  function FindRule(rules: seq<(string, string)>, id: string): (r: Option<string>)
    ensures r.Some? <==> exists k :: 0 <= k < |rules| && rules[k].0 == id
    ensures r.Some? ==> (id, r.value) in rules
    decreases |rules|
  {
    if |rules| == 0 then None
    else if rules[0].0 == id then Some(rules[0].1)
    else
      var r := FindRule(rules[1..], id);
      assert forall k :: 1 <= k < |rules| ==> rules[k] == rules[1..][k - 1];
      r
  }

  /** The rule FindRule reports is the first one for id. */
  lemma {:induction false} FindRuleFirst(rules: seq<(string, string)>, id: string, k: nat)
    requires k < |rules| && rules[k].0 == id
    requires forall j :: 0 <= j < k ==> rules[j].0 != id
    ensures FindRule(rules, id) == Some(rules[k].1)
    decreases k
  {
    if k > 0 {
      FindRuleFirst(rules[1..], id, k - 1);
    }
  }

  const MonorepoOnly: seq<string> := ["monorepo_tooling", "version_drift_detection"]
  const NotMonorepoReason: string := "Single-application repository, not a monorepo"
  const NoDevcontainerReason: string := "No devcontainer to test (prerequisite failed)"
  const NoAgentsDocReason: string := "No AGENTS.md exists (prerequisite failed)"
  const NoFlagsReason: string := "No feature flag infrastructure (prerequisite failed)"

  /** The three facts about the repository that a prerequisite skip looks at. */
  datatype Prerequisites = Prerequisites(
    devcontainerConfig: bool,  // .devcontainer/devcontainer.json exists
    agentsDoc: bool,           // AGENTS.md or CLAUDE.md exists
    featureFlags: bool)        // a manifest names a feature-flag service

  /** Every criterion any skip rule can name. */
  const Skippable: set<string> := {
    "health_checks", "progressive_rollout", "rollback_automation", "dast_scanning",
    "alerting_configured", "deployment_observability", "metrics_collection",
    "profiling_instrumentation", "circuit_breakers", "distributed_tracing",
    "local_services_setup", "database_schema", "n_plus_one_detection",
    "privacy_compliance", "pii_handling", "monorepo_tooling", "version_drift_detection",
    "devcontainer_runnable", "agents_md_validation", "dead_feature_flag_detection"}

  /**
   * Whether criterion id is skipped, and why: the repository type's own
   * table first, then the monorepo-only criteria outside a monorepo, then the
   * three prerequisite checks.
   */
  function SkipFor(id: string, t: RepoType, pre: Prerequisites): (r: Option<string>)
    // the type's table has precedence over every other rule
    ensures FindRule(SkipRules(t), id).Some? ==> r == FindRule(SkipRules(t), id)
    // outside a monorepo the monorepo-only criteria always skip
    ensures t != Monorepo && id in MonorepoOnly ==> r.Some?
    // a monorepo meeting every prerequisite evaluates every criterion
    ensures t == Monorepo && pre.devcontainerConfig && pre.agentsDoc && pre.featureFlags ==> r.None?
    // without a table entry, each later rule gives its own reason
    ensures FindRule(SkipRules(t), id).None? && t != Monorepo && id in MonorepoOnly ==>
      r == Some(NotMonorepoReason)
    ensures FindRule(SkipRules(t), id).None? && id == "devcontainer_runnable" && !pre.devcontainerConfig ==>
      r == Some(NoDevcontainerReason)
    ensures FindRule(SkipRules(t), id).None? && id == "agents_md_validation" && !pre.agentsDoc ==>
      r == Some(NoAgentsDocReason)
    ensures FindRule(SkipRules(t), id).None? && id == "dead_feature_flag_detection" && !pre.featureFlags ==>
      r == Some(NoFlagsReason)
    // a criterion is evaluated exactly when no rule fires
    ensures r.None? <==>
      FindRule(SkipRules(t), id).None? && (t == Monorepo || id !in MonorepoOnly) &&
      (id == "devcontainer_runnable" ==> pre.devcontainerConfig) &&
      (id == "agents_md_validation" ==> pre.agentsDoc) &&
      (id == "dead_feature_flag_detection" ==> pre.featureFlags)
  {
    var rule := FindRule(SkipRules(t), id);
    if rule.Some? then rule
    else if t != Monorepo && id in MonorepoOnly then Some(NotMonorepoReason)
    else if id == "devcontainer_runnable" && !pre.devcontainerConfig then Some(NoDevcontainerReason)
    else if id == "agents_md_validation" && !pre.agentsDoc then Some(NoAgentsDocReason)
    else if id == "dead_feature_flag_detection" && !pre.featureFlags then Some(NoFlagsReason)
    else None
  }

  /** Every criterion a repository type's table names is skippable. */
  lemma RulesSkippable(t: RepoType, k: nat)
    requires k < |SkipRules(t)|
    ensures SkipRules(t)[k].0 in Skippable
  {
  }

  /** No rule names a criterion outside the skippable set. */
  lemma SkipOnlySkippable(id: string, t: RepoType, pre: Prerequisites)
    ensures SkipFor(id, t, pre).Some? ==> id in Skippable
  {
    var rules := SkipRules(t);
    if FindRule(rules, id).Some? {
      var k :| 0 <= k < |rules| && rules[k].0 == id;
      RulesSkippable(t, k);
    }
  }

  /**
   * A library and a command-line tool skip the health-check criterion for
   * different reasons; an application evaluates it.
   */
  lemma HealthCheckSkipReasons(pre: Prerequisites)
    ensures SkipFor("health_checks", Library, pre) == Some("Library, not a deployed service")
    ensures SkipFor("health_checks", Cli, pre) == Some("CLI tool, not a service")
    ensures SkipFor("health_checks", Application, pre).None?
  {
    FindRuleFirst(SkipRules(Library), "health_checks", 0);
    FindRuleFirst(SkipRules(Cli), "health_checks", 1);
  }

  /** A repo-scoped result: skipped, or passed/failed out of one check. */
  function MakeResult(id: string, pillar: string, level: int, passed: bool, reason: string,
                      skip: Option<string>): (r: CriterionResult)
    ensures ScoreConsistent(r)
    ensures r.id == id && r.pillar == pillar && r.level == level
    ensures r.scope == RepoScope && r.appVerdicts == []
    ensures r.status.Skip? <==> skip.Some?
    ensures skip.Some? ==> r.reason == skip.value
    ensures skip.None? ==> (r.status.Pass? <==> passed) && r.reason == reason && r.score.den == 1
  {
    if skip.Some? then
      CriterionResult(id, pillar, level, Skip, NotScored, skip.value, RepoScope, [])
    else
      CriterionResult(id, pillar, level, if passed then Pass else Fail,
                      Ratio(if passed then 1 else 0, 1), reason, RepoScope, [])
  }

  const FailingMarker: string := " (failing: "

  /** The fail reason with the failing apps appended. */
  function FailingReason(failReason: string, d: Verdicts): (r: string)
    // the fail reason, the marker, the failing apps joined by ", ", then ")"
    ensures StartsWith(r, failReason + FailingMarker) && r[|r| - 1] == ')'
    ensures r[|failReason + FailingMarker|..|r| - 1] == Join(FailingApps(d), ", ")
  {
    failReason + FailingMarker + Join(FailingApps(d), ", ") + ")"
  }

  /**
   * An app-scoped result. `perApp` holds when the repository is a monorepo
   * with detected apps; otherwise the result falls back to the repo-scoped
   * verdict stored under the key "__repo__".
   */
  function MakeAppResult(id: string, pillar: string, level: int, d: Verdicts,
                         passReason: string, failReason: string,
                         skip: Option<string>, perApp: bool): (r: CriterionResult)
    ensures ScoreConsistent(r)
    ensures r.id == id && r.pillar == pillar && r.level == level
    ensures r.status.Skip? <==> skip.Some?
    ensures skip.Some? ==> r.reason == skip.value && r.scope == AppScope && r.appVerdicts == []
    ensures skip.None? && !perApp ==>
      r.scope == RepoScope && r.score.den == 1 && (r.status.Pass? <==> DictGet(d, "__repo__", false))
    ensures skip.None? && perApp ==>
      r.scope == AppScope && r.appVerdicts == d &&
      r.score == Ratio(PassCount(d), |d|) &&
      (r.status.Pass? <==> MeetsThreshold(PassCount(d), |d|)) &&
      r.reason == (if r.status.Pass? then passReason else FailingReason(failReason, d))
  {
    if skip.Some? then
      CriterionResult(id, pillar, level, Skip, NotScored, skip.value, AppScope, [])
    else if !perApp then
      var passed := DictGet(d, "__repo__", false);
      CriterionResult(id, pillar, level, if passed then Pass else Fail,
                      Ratio(if passed then 1 else 0, 1),
                      if passed then passReason else failReason, RepoScope, [])
    else
      var p := PassCount(d);
      assert p <= |d| by {
        PassFailPartition(d);
      }
      var ok := MeetsThreshold(p, |d|);
      CriterionResult(id, pillar, level, if ok then Pass else Fail, Ratio(p, |d|),
                      if ok then passReason else FailingReason(failReason, d), AppScope, d)
  }

  /**
   * Over app verdicts, the threshold holds exactly when there is an app and
   * at most one failing app for every four passing ones; adding a passing
   * app never turns a met threshold into a missed one.
   */
  lemma ThresholdByFailures(d: Verdicts, k: string)
    ensures MeetsThreshold(PassCount(d), |d|) <==> |d| > 0 && 4 * |FailingApps(d)| <= PassCount(d)
    ensures MeetsThreshold(PassCount(d), |d|) ==>
      MeetsThreshold(PassCount(d + [(k, true)]), |d + [(k, true)]|)
  {
    PassFailPartition(d);
    CountAppend(d, [(k, true)], (e: (string, bool)) => e.1);
    assert Count([(k, true)], (e: (string, bool)) => e.1) == 1;
  }

  /**
   * A failing app-scoped result keeps its fail reason in front of the list
   * of failing apps, so cutting its reason at the marker gives that fail
   * reason back whenever it holds no '('.
   */
  lemma {:induction false} FailingReasonCut(failReason: string, d: Verdicts)
    requires '(' !in failReason
    ensures CutAt(FailingReason(failReason, d), " (failing:") == failReason
  {
    var rest := Join(FailingApps(d), ", ") + ")";
    var sep := " (failing:";
    assert FailingReason(failReason, d) == failReason + sep + (" " + rest);
    CutAtJoined(failReason, sep, " " + rest);
  }

  /** Manifests whose text may name a feature-flag service. */
  const FlagManifests: seq<string> := ["package.json", "requirements.txt", "go.mod", "Gemfile"]

  /** Service names whose mention, in any case, marks feature-flag infrastructure. */
  const FlagPatterns: seq<string> :=
    ["launchdarkly", "statsig", "unleash", "growthbook", "feature.flag", "featureflag", "feature_flag"]

  /** Whether one manifest text names a feature-flag service. */
  predicate NamesFlagService(content: string)
  {
    exists k :: 0 <= k < |FlagPatterns| && Contains(Lower(content), FlagPatterns[k])
  }
}
