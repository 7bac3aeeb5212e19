/**
 * The RepoAnalyzer class of skills/readiness-report/scripts/analyze_repo.py:
 * an analyzer over one repository that caches file-existence answers and
 * file contents and fills in its result record stage by stage. Each method
 * is proved to leave the record exactly as the matching stage function of
 * module Analysis says.
 */
module Analyzer {
  import opened Wrappers
  import opened Seqs
  import opened Text
  import opened Files
  import opened Criteria
  import opened Catalog
  import opened Scoring
  import opened Classify
  import opened Analysis

  /** Index of the first pattern that matches, or the number of patterns when none does. */
  function FirstHit(t: FileTree, patterns: seq<string>): (r: nat)
    ensures r <= |patterns|
    ensures forall k :: 0 <= k < r ==> patterns[k] !in t.matches
    ensures r < |patterns| ==> patterns[r] in t.matches
    ensures r < |patterns| <==> AnyMatch(t, patterns)
    decreases |patterns|
  {
    if |patterns| == 0 then 0
    else if patterns[0] in t.matches then 0
    else
      var r := 1 + FirstHit(t, patterns[1..]);
      assert forall k :: 1 <= k < |patterns| ==> patterns[k] == patterns[1..][k - 1];
      r
  }

  /** How many patterns a lookup decides: those up to and including the first hit. */
  function Decided(t: FileTree, patterns: seq<string>): (n: nat)
    ensures n <= |patterns|
    // a hit ends the lookup: it is the last decided pattern and none before it matches
    ensures AnyMatch(t, patterns) ==>
      n > 0 && patterns[n - 1] in t.matches && forall k :: 0 <= k < n - 1 ==> patterns[k] !in t.matches
    ensures !AnyMatch(t, patterns) ==> n == |patterns|
  {
    if FirstHit(t, patterns) < |patterns| then FirstHit(t, patterns) + 1 else |patterns|
  }

  /**
   * The bucketing step of `_calculate_levels`: every criterion that was not
   * skipped, pillar by pillar, appended to the bucket of its level. A level
   * outside 1..5 would be a missing key in the source, hence the requirement.
   */
  method BucketByLevel(ps: seq<PillarResult>) returns (buckets: map<int, seq<CriterionResult>>)
    requires LevelsKnown(ps)
    ensures forall k :: 1 <= k <= 5 ==> k in buckets && buckets[k] == AtLevel(AllResults(ps), k)
  {
    buckets := map[1 := [], 2 := [], 3 := [], 4 := [], 5 := []];
    var pi := 0;
    while pi < |ps|
      invariant 0 <= pi <= |ps|
      invariant forall k :: 1 <= k <= 5 ==> k in buckets && buckets[k] == AtLevel(AllResults(ps[..pi]), k)
    {
      var criteria := ps[pi].criteria;
      ghost var done := AllResults(ps[..pi]);
      assert done + criteria[..0] == done;
      var ci := 0;
      while ci < |criteria|
        invariant 0 <= ci <= |criteria|
        invariant forall k :: 1 <= k <= 5 ==> k in buckets && buckets[k] == AtLevel(done + criteria[..ci], k)
      {
        var c := criteria[ci];
        assert done + criteria[..ci + 1] == (done + criteria[..ci]) + [c];
        AtLevelSnoc(done + criteria[..ci], c);
        if c.status != Skip {
          LevelsKnownAt(ps, pi, ci);
          buckets := buckets[c.level := buckets[c.level] + [c]];
        }
        ci := ci + 1;
      }
      assert criteria[..ci] == criteria;
      AllResultsSnoc(ps[..pi], ps[pi]);
      assert ps[..pi + 1] == ps[..pi] + [ps[pi]];
      pi := pi + 1;
    }
    assert ps[..pi] == ps;
  }

  /**
   * The last step of `_calculate_levels`: levels 1..5 in order, stopping at
   * the first one below 80.
   */
  method LeadingLevels(levelScores: map<int, nat>) returns (achieved: nat)
    requires forall k :: 1 <= k <= 5 ==> k in levelScores
    ensures achieved == Achieved(ScoresOf(levelScores))
  {
    ghost var scores := ScoresOf(levelScores);
    achieved := 0;
    var level := 1;
    while level <= 5
      invariant 1 <= level <= 6 && achieved == level - 1
      invariant forall j :: 0 <= j < achieved ==> scores[j] >= Gate
    {
      if levelScores[level] >= 800 {
        achieved := level;
      } else {
        break;
      }
      level := level + 1;
    }
    AchievedUnique(scores, achieved);
  }

  /** The lookup of a criterion in a repository type's skip table: the first rule that names it. */
  method LookupRule(rules: seq<(string, string)>, id: string) returns (rule: Option<string>)
    ensures rule == FindRule(rules, id)
  {
    var i := 0;
    while i < |rules|
      invariant 0 <= i <= |rules|
      invariant forall j :: 0 <= j < i ==> rules[j].0 != id
    {
      if rules[i].0 == id {
        FindRuleFirst(rules, id, i);
        return Some(rules[i].1);
      }
      i := i + 1;
    }
    return None;
  }

  class RepoAnalyzer {
    const tree: FileTree
    const evidence: Evidence
    const catalog: seq<PillarSpec>          // the pillars' evaluators, in order
    var fileCache: map<string, bool>       // pattern -> whether it matched
    var contentCache: map<string, string>  // relative path -> text read
    var result: AnalysisResult

    /** Both caches agree with the tree, and every catalogued criterion has a level 1..5. */
    predicate Valid()
      reads this`fileCache, this`contentCache
    {
      CatalogLevels(catalog) &&
      (forall p :: p in fileCache ==> fileCache[p] == (p in tree.matches)) &&
      (forall p :: p in contentCache ==> p in tree.contents && contentCache[p] == tree.contents[p])
    }

    constructor (path: string, name: string, t: FileTree, ev: Evidence)
      ensures Valid()
      ensures tree == t && evidence == ev && catalog == Pillars
      ensures result == Initial(path, name)
      ensures fileCache == map[] && contentCache == map[]
    {
      tree := t;
      evidence := ev;
      catalog := Pillars;
      PillarsCatalogLevels();
      fileCache := map[];
      contentCache := map[];
      result := Initial(path, name);
    }

    /**
     * `_file_exists`: whether any pattern matches, deciding the patterns in
     * order, answering from the cache when it can, and stopping at the first
     * hit. Exactly the patterns up to that hit end up in the cache.
     */
    method FileExists(patterns: seq<string>) returns (found: bool)
      requires Valid()
      modifies this`fileCache
      ensures Valid()
      ensures found == AnyMatch(tree, patterns)
      ensures forall p :: p in fileCache <==> p in old(fileCache) || p in patterns[..Decided(tree, patterns)]
    {
      var i := 0;
      while i < |patterns|
        invariant 0 <= i <= |patterns| && i <= FirstHit(tree, patterns)
        invariant Valid()
        invariant forall p :: p in fileCache <==> p in old(fileCache) || p in patterns[..i]
        invariant contentCache == old(contentCache) && result == old(result)
      {
        var pattern := patterns[i];
        if pattern in fileCache {
          if fileCache[pattern] {
            assert patterns[..i + 1] == patterns[..i] + [pattern];
            return true;
          }
        } else {
          // a glob and a plain path are both answered by the tree
          var hit := pattern in tree.matches;
          fileCache := fileCache[pattern := hit];
          if hit {
            assert patterns[..i + 1] == patterns[..i] + [pattern];
            return true;
          }
        }
        assert patterns[..i + 1] == patterns[..i] + [pattern];
        i := i + 1;
      }
      return false;
    }

    /**
     * `_read_file`: the text of a readable file, or None; a successful read
     * is cached, a failed one is not.
     */
    method ReadFile(path: string) returns (content: Option<string>)
      requires Valid()
      modifies this`contentCache
      ensures Valid()
      ensures content == ReadSpec(tree, path)
      ensures forall p :: p in contentCache <==> p in old(contentCache) || (p == path && path in tree.contents)
    {
      if path in contentCache {
        return Some(contentCache[path]);
      }
      if path !in tree.contents {
        return None;
      }
      var text := tree.contents[path];
      contentCache := contentCache[path := text];
      return Some(text);
    }

    /** The setup-script library rule, asked in the order the analyzer asks it. */
    method SetupSaysLibrary() returns (b: bool)
      requires Valid()
      modifies this`fileCache, this`contentCache
      ensures Valid()
      ensures b == LibraryBySetup(tree)
    {
      var setup := FileExists(["setup.py", "setup.cfg"]);
      if !setup {
        return false;
      }
      var docker := FileExists(["Dockerfile"]);
      if docker {
        return false;
      }
      var text := ReadFile("setup.py");
      return Contains(Lower(text.GetOr("")), "library");
    }

    /** The pyproject.toml library rule. */
    method PyprojectSaysLibrary() returns (b: bool)
      requires Valid()
      modifies this`fileCache, this`contentCache
      ensures Valid()
      ensures b == LibraryByPyproject(tree)
    {
      var pyproject := FileExists(["pyproject.toml"]);
      if !pyproject {
        return false;
      }
      var content := ReadFile("pyproject.toml");
      if !Contains(content.GetOr(""), "[project]") || "Dockerfile" in Listing(tree, "") {
        return false;
      }
      var readme := ReadFile("README.md");
      var low := Lower(readme.GetOr(""));
      return Contains(low, "pip install") && !Contains(low, "docker");
    }

    /** The command-line tool rule. */
    method ReadmeSaysCli() returns (b: bool)
      requires Valid()
      modifies this`fileCache, this`contentCache
      ensures Valid()
      ensures b == CliTool(tree)
    {
      var entry := FileExists(["**/cli.py", "**/main.py", "**/cmd/**"]);
      if !entry {
        return false;
      }
      var readme := ReadFile("README.md");
      var low := Lower(readme.GetOr(""));
      return exists k :: 0 <= k < |CliWords| && Contains(low, CliWords[k]);
    }

    /** `_detect_repo_type`: the first of library, cli, database, monorepo that fires, else application. */
    method DetectRepoType()
      requires Valid()
      modifies this`fileCache, this`contentCache, this`result
      ensures Valid()
      ensures result == WithRepoType(old(result), tree)
    {
      var library := SetupSaysLibrary();
      if library {
        result := result.(repoType := Library);
        return;
      }
      library := PyprojectSaysLibrary();
      if library {
        result := result.(repoType := Library);
        return;
      }
      var cli := ReadmeSaysCli();
      if cli {
        result := result.(repoType := Cli);
        return;
      }
      if Contains(Lower(result.repoName), "database") || Contains(Lower(result.repoName), "db") {
        result := result.(repoType := Database);
        return;
      }
      var layout := FileExists(["packages/*", "apps/*", "lerna.json", "pnpm-workspace.yaml"]);
      if layout {
        result := result.(repoType := Monorepo);
        return;
      }
      result := result.(repoType := Application);
    }

    /**
     * One lookup of `_detect_languages`: the language is appended when one
     * of its patterns matches, JavaScript only when TypeScript is not listed.
     */
    method AddLanguage(langs: seq<Language>, l: Language) returns (next: seq<Language>)
      requires Valid()
      requires l == JavaScript ==> (TypeScript in langs <==> AnyMatch(tree, LanguagePatterns(TypeScript)))
      modifies this`fileCache
      ensures Valid()
      ensures next == langs + Part(Detects(tree, l), l)
    {
      var hit := FileExists(LanguagePatterns(l));
      if hit && (l != JavaScript || TypeScript !in langs) {
        return langs + [l];
      }
      return langs;
    }

    /** The eight lookups of `_detect_languages` in their fixed order. */
    method ScanLanguages() returns (langs: seq<Language>)
      requires Valid()
      modifies this`fileCache
      ensures Valid()
      ensures langs == Found(tree)
    {
      langs := AddLanguage([], Python);
      assert langs == Part(Detects(tree, Python), Python);
      langs := AddLanguage(langs, TypeScript);
      langs := AddLanguage(langs, JavaScript);
      langs := AddLanguage(langs, Go);
      langs := AddLanguage(langs, Rust);
      langs := AddLanguage(langs, Java);
      langs := AddLanguage(langs, Ruby);
      langs := AddLanguage(langs, Cpp);
    }

    /** `_detect_languages`: the eight lookups; "Unknown" when none matches. */
    method DetectLanguages()
      requires Valid()
      modifies this`fileCache, this`result
      ensures Valid()
      ensures result == WithLanguages(old(result), tree)
    {
      var langs := ScanLanguages();
      result := result.(languages := if |langs| > 0 then langs else [Unknown]);
    }

    /** `_detect_app_languages`: five direct lookups inside one app's directory; nothing is cached. */
    method DetectAppLanguages(app: string) returns (langs: seq<Language>)
      ensures langs == AppLanguages(tree, app)
    {
      langs := [];
      if Child(app, "*.py") in tree.matches || Child(app, "pyproject.toml") in tree.matches {
        langs := langs + [Python];
      }
      assert langs == Part(AppDetects(tree, app, Python), Python);
      if Child(app, "*.ts") in tree.matches || Child(app, "tsconfig.json") in tree.matches {
        langs := langs + [TypeScript];
      }
      ghost var seen := langs;
      assert seen == Part(AppDetects(tree, app, Python), Python) + Part(AppDetects(tree, app, TypeScript), TypeScript);
      if Child(app, "*.js") in tree.matches || Child(app, "package.json") in tree.matches {
        if TypeScript !in langs {
          langs := langs + [JavaScript];
        }
      }
      assert langs == seen + Part(AppDetects(tree, app, JavaScript), JavaScript);
      seen := langs;
      if Child(app, "*.go") in tree.matches || Child(app, "go.mod") in tree.matches {
        langs := langs + [Go];
      }
      assert langs == seen + Part(AppDetects(tree, app, Go), Go);
      seen := langs;
      if Child(app, "*.rs") in tree.matches || Child(app, "Cargo.toml") in tree.matches {
        langs := langs + [Rust];
      }
      assert langs == seen + Part(AppDetects(tree, app, Rust), Rust);
      if |langs| == 0 {
        langs := [Unknown];
      }
    }

    /** One sub-folder of a group folder: an app, a folder without a manifest, or nothing. */
    method ScanFolder(group: string, name: string) returns (apps: seq<AppInfo>, folders: seq<string>)
      ensures (apps, folders) == ScanName(tree, group, name)
    {
      var dir := Child(group, name);
      apps, folders := [], [];
      if dir in tree.dirs && !StartsWith(name, ".") && name != "node_modules" && name != "__pycache__" {
        if exists k :: 0 <= k < |Manifests| && Child(dir, Manifests[k]) in tree.matches {
          var langs := DetectAppLanguages(dir);
          apps := [AppInfo(name, dir, langs)];
        } else {
          folders := [group + "/" + name];
        }
      }
    }

    /** The sub-folders of one group folder, in sorted order; nothing when the group is absent. */
    method ScanGroupFolders(group: string) returns (apps: seq<AppInfo>, folders: seq<string>)
      ensures (apps, folders) == ScanGroup(tree, group)
    {
      apps, folders := [], [];
      if !(group in tree.matches && group in tree.dirs) {
        return;
      }
      var names := SortNames(Listing(tree, group));
      var i := 0;
      while i < |names|
        invariant 0 <= i <= |names|
        invariant (apps, folders) == ScanNames(tree, group, names[..i])
      {
        var a, f := ScanFolder(group, names[i]);
        assert names[..i + 1][..i] == names[..i];
        apps, folders := apps + a, folders + f;
        i := i + 1;
      }
      assert names[..i] == names;
    }

    /** The group folders in order, each contributing its apps and its folders without a manifest. */
    method ScanGroupList(groups: seq<string>) returns (apps: seq<AppInfo>, folders: seq<string>)
      ensures (apps, folders) == ScanGroups(tree, groups)
    {
      apps, folders := [], [];
      var g := 0;
      while g < |groups|
        invariant 0 <= g <= |groups|
        invariant (apps, folders) == ScanGroups(tree, groups[..g])
      {
        var a, f := ScanGroupFolders(groups[g]);
        assert groups[..g + 1][..g] == groups[..g];
        apps, folders := apps + a, folders + f;
        g := g + 1;
      }
      assert groups[..g] == groups;
    }

    /**
     * `_detect_apps`: in a monorepo, the group folders packages, apps,
     * services and modules in that order; a sub-folder with a manifest
     * becomes an app, any other eligible one is reported as "group/name".
     */
    method DetectApps()
      modifies this`result
      ensures result == WithApps(old(result), tree)
    {
      if result.repoType != Monorepo {
        return;
      }
      var apps, folders := ScanGroupList(AppGroups);
      result := result.(detectedApps := result.detectedApps + apps,
                        undetectedAppFolders := result.undetectedAppFolders + folders);
    }

    /** `_check_feature_flags`: whether one of four manifests names a feature-flag service. */
    method CheckFeatureFlags() returns (found: bool)
      requires Valid()
      modifies this`contentCache
      ensures Valid()
      ensures found == FlagsIn(tree)
    {
      var m := 0;
      while m < |FlagManifests|
        invariant 0 <= m <= |FlagManifests|
        invariant Valid()
        invariant forall k :: 0 <= k < m ==> !ManifestNamesFlags(tree, FlagManifests[k])
      {
        var content := ReadFile(FlagManifests[m]);
        var text := content.GetOr("");
        if text != "" {
          var j := 0;
          while j < |FlagPatterns|
            invariant 0 <= j <= |FlagPatterns|
            invariant forall q :: 0 <= q < j ==> !Contains(Lower(text), FlagPatterns[q])
          {
            if Contains(Lower(text), FlagPatterns[j]) {
              assert ManifestNamesFlags(tree, FlagManifests[m]);
              return true;
            }
            j := j + 1;
          }
        }
        m := m + 1;
      }
      return false;
    }

    /**
     * `_should_skip`: the repository type's own rules, then the monorepo-only
     * criteria, then the three prerequisite lookups.
     */
    method ShouldSkip(id: string) returns (skip: Option<string>)
      requires Valid()
      modifies this`fileCache, this`contentCache
      ensures Valid()
      ensures skip == SkipFor(id, result.repoType, PrereqsOf(tree))
    {
      var rule := LookupRule(SkipRules(result.repoType), id);
      if rule.Some? {
        return rule;
      }
      if result.repoType != Monorepo && id in MonorepoOnly {
        return Some(NotMonorepoReason);
      }
      if id == "devcontainer_runnable" {
        var present := FileExists([DevcontainerConfig]);
        if !present {
          return Some(NoDevcontainerReason);
        }
      }
      if id == "agents_md_validation" {
        var present := FileExists(AgentDocs);
        if !present {
          return Some(NoAgentsDocReason);
        }
      }
      if id == "dead_feature_flag_detection" {
        var present := CheckFeatureFlags();
        if !present {
          return Some(NoFlagsReason);
        }
      }
      return None;
    }

    /** One criterion of a pillar's evaluator, with its skip decided first. */
    method EvaluateCriterion(c: CriterionSpec, pillar: string) returns (r: CriterionResult)
      requires Valid()
      modifies this`fileCache, this`contentCache
      ensures Valid()
      ensures r == Evaluate(c, pillar, FactsOf(result, tree), evidence)
    {
      match c.check {
        case NeverPasses =>
          var skip := ShouldSkip(c.id);
          r := MakeResult(c.id, pillar, c.level, false, evidence.reason(c.id, false), skip);
        case Probe =>
          var ok := evidence.repoCheck(c.id);
          var skip := ShouldSkip(c.id);
          r := MakeResult(c.id, pillar, c.level, ok, evidence.reason(c.id, ok), skip);
        case PerApp(passReason, failReason) =>
          if result.repoType == Monorepo && |result.detectedApps| > 0 {
            var verdicts := AppVerdicts(result.detectedApps, AppCheck(evidence, c.id));
            var skip := ShouldSkip(c.id);
            r := MakeAppResult(c.id, pillar, c.level, verdicts, passReason, failReason, skip,
                               result.repoType == Monorepo && |result.detectedApps| > 0);
          } else {
            var ok := evidence.repoCheck(c.id);
            var skip := ShouldSkip(c.id);
            r := MakeResult(c.id, pillar, c.level, ok, evidence.reason(c.id, ok), skip);
          }
      }
    }

    /** One pillar's evaluator: each criterion of the pillar in order. */
    method EvaluatePillar(p: PillarSpec) returns (results: seq<CriterionResult>)
      requires Valid()
      modifies this`fileCache, this`contentCache
      ensures Valid()
      ensures results == Catalog.EvaluatePillar(p, FactsOf(result, tree), evidence)
    {
      ghost var rs := Catalog.EvaluatePillar(p, FactsOf(result, tree), evidence);
      results := [];
      var i := 0;
      while i < |p.criteria|
        invariant 0 <= i <= |p.criteria|
        invariant Valid()
        invariant results == rs[..i]
      {
        var r := EvaluateCriterion(p.criteria[i], p.name);
        assert r == rs[i];
        PrefixSnoc(rs, i);
        results := results + [r];
        i := i + 1;
      }
      assert rs[..i] == rs;
    }

    /** One round of `_evaluate_all_pillars`: a pillar's evaluator and the counts of its results. */
    method TallyOne(p: PillarSpec) returns (pr: PillarResult)
      requires Valid()
      modifies this`fileCache, this`contentCache
      ensures Valid()
      ensures pr == TallyPillar(p, FactsOf(result, tree), evidence)
    {
      var criteria := EvaluatePillar(p);
      var passed := Count(criteria, IsPass);
      var total := Count(criteria, IsCounted);
      pr := PillarResult(p.name, passed, total, criteria);
    }

    /**
     * The loop of `_evaluate_all_pillars`: the nine evaluators in order, each
     * pillar's record appended and its counts added to the run's totals.
     */
    method AccumulatePillars()
      requires Valid()
      modifies this`fileCache, this`contentCache, this`result
      ensures Valid()
      ensures result == Accumulate(old(result), PillarTallies(catalog, FactsOf(old(result), tree), evidence))
    {
      ghost var f := FactsOf(result, tree);
      ghost var ps := PillarTallies(catalog, f, evidence);
      var i := 0;
      while i < |catalog|
        invariant 0 <= i <= |catalog|
        invariant Valid()
        invariant result == Accumulate(old(result), ps[..i])
      {
        assert FactsOf(result, tree) == f;
        var pr := TallyOne(catalog[i]);
        assert pr == ps[i];
        AccumulatePrefix(old(result), ps, i);
        result := result.(pillars := result.pillars + [pr],
                          totalPassed := result.totalPassed + pr.passed,
                          totalCriteria := result.totalCriteria + pr.total);
        i := i + 1;
      }
      assert ps[..i] == ps;
    }

    /**
     * `_evaluate_all_pillars`: the pillars accumulated, then the pass rate
     * written only when some criterion was counted.
     */
    method EvaluateAllPillars()
      requires Valid()
      modifies this`fileCache, this`contentCache, this`result
      ensures Valid()
      ensures result == WithPillars(old(result), tree, evidence, catalog)
      ensures LevelsKnown(old(result).pillars) ==> LevelsKnown(result.pillars)
    {
      ghost var f := FactsOf(result, tree);
      AccumulatePillars();
      if LevelsKnown(old(result).pillars) {
        TalliesWellFormed(catalog, f, evidence);
        LevelsKnownAppend(old(result).pillars, PillarTallies(catalog, f, evidence));
      }
      if result.totalCriteria > 0 {
        result := result.(passRate := RoundTenths(result.totalPassed, result.totalCriteria));
      }
    }

    /**
     * `_calculate_levels`: the counted criteria bucketed by level, one score
     * per level (100.0 for an empty one), then the number of leading levels
     * at or above 80%.
     */
    method CalculateLevels()
      modifies this`result
      requires LevelsKnown(result.pillars)
      ensures result == WithLevels(old(result))
    {
      ghost var cs := AllResults(result.pillars);
      var buckets := BucketByLevel(result.pillars);
      var level := 1;
      while level <= 5
        invariant 1 <= level <= 6
        invariant result == old(result).(levelScores := WriteScores(old(result).levelScores, cs, level))
      {
        var criteria := buckets[level];
        var score: nat;
        if |criteria| == 0 {
          score := 1000;
        } else {
          score := RoundTenths(Count(criteria, IsPass), |criteria|);
        }
        result := result.(levelScores := result.levelScores[level := score]);
        level := level + 1;
      }

      var achieved := LeadingLevels(result.levelScores);
      result := result.(achievedLevel := if achieved > 0 then achieved else 0);
    }

    /** `analyze()`: the five stages in order; the record is also returned. */
    method Analyze() returns (r: AnalysisResult)
      requires Valid() && LevelsKnown(result.pillars)
      modifies this`fileCache, this`contentCache, this`result
      ensures Valid()
      ensures r == result == AnalyzeFrom(old(result), tree, evidence, catalog)
    {
      DetectRepoType();
      DetectLanguages();
      DetectApps();
      EvaluateAllPillars();
      CalculateLevels();
      r := result;
    }
  }
}
