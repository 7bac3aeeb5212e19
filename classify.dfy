/**
 * Classification of a repository from its file tree
 * (skills/readiness-report/scripts/analyze_repo.py): the repository type,
 * the languages of the repository and of one app, and the split of a
 * monorepo's sub-folders into detected apps and folders without a manifest.
 * These are the reference definitions the analyzer's methods are proved
 * against.
 */
module Classify {
  import opened Wrappers
  import opened Seqs
  import opened Text
  import opened Files
  import opened Criteria

  // ---------------------------------------------------------------------
  // Repository type: the first rule that fires wins.
  // ---------------------------------------------------------------------

  /** The README's text, or "" when it cannot be read. */
  function Readme(t: FileTree): string
  {
    ReadSpec(t, "README.md").GetOr("")
  }

  /** A setup script that calls itself a library, without a Dockerfile. */
  predicate LibraryBySetup(t: FileTree)
  {
    AnyMatch(t, ["setup.py", "setup.cfg"]) && !AnyMatch(t, ["Dockerfile"]) &&
    Contains(Lower(ReadSpec(t, "setup.py").GetOr("")), "library")
  }

  /**
   * A `[project]` table in pyproject.toml, no Dockerfile listed at the root,
   * and a README that mentions `pip install` but not docker.
   */
  predicate LibraryByPyproject(t: FileTree)
  {
    AnyMatch(t, ["pyproject.toml"]) &&
    Contains(ReadSpec(t, "pyproject.toml").GetOr(""), "[project]") &&
    "Dockerfile" !in Listing(t, "") &&
    Contains(Lower(Readme(t)), "pip install") && !Contains(Lower(Readme(t)), "docker")
  }

  const CliWords: seq<string> := ["command line", "cli", "usage:"]

  /** An entry-point script and a README that talks about command-line use. */
  predicate CliTool(t: FileTree)
  {
    AnyMatch(t, ["**/cli.py", "**/main.py", "**/cmd/**"]) &&
    exists k :: 0 <= k < |CliWords| && Contains(Lower(Readme(t)), CliWords[k])
  }

  predicate DatabaseName(name: string)
  {
    Contains(Lower(name), "database") || Contains(Lower(name), "db")
  }

  predicate MonorepoLayout(t: FileTree)
  {
    AnyMatch(t, ["packages/*", "apps/*", "lerna.json", "pnpm-workspace.yaml"])
  }

  predicate IsLibrary(t: FileTree)
  {
    LibraryBySetup(t) || LibraryByPyproject(t)
  }

  function RepoTypeOf(t: FileTree, name: string): (r: RepoType)
    ensures r == Library <==> IsLibrary(t)
    ensures r == Cli <==> !IsLibrary(t) && CliTool(t)
    ensures r == Database <==> !IsLibrary(t) && !CliTool(t) && DatabaseName(name)
    ensures r == Monorepo <==> !IsLibrary(t) && !CliTool(t) && !DatabaseName(name) && MonorepoLayout(t)
  {
    if IsLibrary(t) then Library
    else if CliTool(t) then Cli
    else if DatabaseName(name) then Database
    else if MonorepoLayout(t) then Monorepo
    else Application
  }

  /**
   * A name containing "db" outranks a monorepo layout: such a repository is
   * classified as a database and its apps are never detected.
   */
  lemma DatabaseOutranksMonorepo(t: FileTree, name: string)
    requires !IsLibrary(t) && !CliTool(t) && Contains(Lower(name), "db")
    ensures RepoTypeOf(t, name) == Database
  {
  }

  // ---------------------------------------------------------------------
  // Languages.
  // ---------------------------------------------------------------------

  /** The order in which the repository's languages are looked for and listed. */
  const LanguageOrder: seq<Language> := [Python, TypeScript, JavaScript, Go, Rust, Java, Ruby, Cpp]

  /** The patterns whose presence signals a language at the repository root. */
  function LanguagePatterns(l: Language): seq<string>
  {
    match l
    case Python => ["*.py", "**/*.py", "pyproject.toml", "setup.py"]
    case TypeScript => ["*.ts", "**/*.ts", "tsconfig.json"]
    case JavaScript => ["*.js", "**/*.js", "package.json"]
    case Go => ["*.go", "**/*.go", "go.mod"]
    case Rust => ["*.rs", "**/*.rs", "Cargo.toml"]
    case Java => ["*.java", "**/*.java", "pom.xml", "build.gradle"]
    case Ruby => ["*.rb", "**/*.rb", "Gemfile"]
    case Cpp => ["*.cpp", "*.cc", "**/*.cpp", "CMakeLists.txt"]
    case Unknown => []
  }

  /** Whether a language is listed: JavaScript only when TypeScript is not. */
  predicate Detects(t: FileTree, l: Language)
  {
    AnyMatch(t, LanguagePatterns(l)) &&
    (l == JavaScript ==> !AnyMatch(t, LanguagePatterns(TypeScript)))
  }

  function DetectsIn(t: FileTree): Language -> bool
  {
    l => Detects(t, l)
  }

  /** A one-element list when b holds, else the empty list. */
  function Part(b: bool, l: Language): seq<Language>
  {
    if b then [l] else []
  }

  /** A list of detected languages, or [Unknown] when it is empty. */
  function OrUnknown(found: seq<Language>): (r: seq<Language>)
    ensures |r| > 0
    ensures r == [Unknown] <==> |found| == 0 || found == [Unknown]
  {
    if |found| == 0 then [Unknown] else found
  }

  /** The eight lookups in their fixed order, each contributing its language or nothing. */
  function Found(t: FileTree): seq<Language>
  {
    Part(Detects(t, Python), Python) + Part(Detects(t, TypeScript), TypeScript) +
    Part(Detects(t, JavaScript), JavaScript) + Part(Detects(t, Go), Go) +
    Part(Detects(t, Rust), Rust) + Part(Detects(t, Java), Java) +
    Part(Detects(t, Ruby), Ruby) + Part(Detects(t, Cpp), Cpp)
  }

  /** The languages found, or Unknown when none is. */
  function Languages(t: FileTree): seq<Language>
  {
    OrUnknown(Found(t))
  }

  /** Deciding one more language of the fixed order extends the list by that language or by nothing. */
  lemma LanguageStep(t: FileTree, k: nat, l: Language)
    requires k < |LanguageOrder| && LanguageOrder[k] == l
    ensures Filter(LanguageOrder[..k + 1], DetectsIn(t)) == Filter(LanguageOrder[..k], DetectsIn(t)) + Part(Detects(t, l), l)
  {
    assert LanguageOrder[..k + 1] == LanguageOrder[..k] + [l];
    FilterSnoc(LanguageOrder[..k], l, DetectsIn(t));
  }

  lemma {:induction false} LanguagesUpTo1(t: FileTree)
    ensures Filter(LanguageOrder[..1], DetectsIn(t)) ==
      Part(Detects(t, Python), Python)
  {
    assert LanguageOrder[..0] == [];
    LanguageStep(t, 0, Python);
  }

  lemma {:induction false} LanguagesUpTo2(t: FileTree)
    ensures Filter(LanguageOrder[..2], DetectsIn(t)) ==
      Part(Detects(t, Python), Python) +
      Part(Detects(t, TypeScript), TypeScript)
  {
    LanguagesUpTo1(t);
    LanguageStep(t, 1, TypeScript);
  }

  lemma {:induction false} LanguagesUpTo3(t: FileTree)
    ensures Filter(LanguageOrder[..3], DetectsIn(t)) ==
      Part(Detects(t, Python), Python) +
      Part(Detects(t, TypeScript), TypeScript) +
      Part(Detects(t, JavaScript), JavaScript)
  {
    LanguagesUpTo2(t);
    LanguageStep(t, 2, JavaScript);
  }

  lemma {:induction false} LanguagesUpTo4(t: FileTree)
    ensures Filter(LanguageOrder[..4], DetectsIn(t)) ==
      Part(Detects(t, Python), Python) +
      Part(Detects(t, TypeScript), TypeScript) +
      Part(Detects(t, JavaScript), JavaScript) +
      Part(Detects(t, Go), Go)
  {
    LanguagesUpTo3(t);
    LanguageStep(t, 3, Go);
  }

  lemma {:induction false} LanguagesUpTo5(t: FileTree)
    ensures Filter(LanguageOrder[..5], DetectsIn(t)) ==
      Part(Detects(t, Python), Python) +
      Part(Detects(t, TypeScript), TypeScript) +
      Part(Detects(t, JavaScript), JavaScript) +
      Part(Detects(t, Go), Go) +
      Part(Detects(t, Rust), Rust)
  {
    LanguagesUpTo4(t);
    LanguageStep(t, 4, Rust);
  }

  lemma {:induction false} LanguagesUpTo6(t: FileTree)
    ensures Filter(LanguageOrder[..6], DetectsIn(t)) ==
      Part(Detects(t, Python), Python) +
      Part(Detects(t, TypeScript), TypeScript) +
      Part(Detects(t, JavaScript), JavaScript) +
      Part(Detects(t, Go), Go) +
      Part(Detects(t, Rust), Rust) +
      Part(Detects(t, Java), Java)
  {
    LanguagesUpTo5(t);
    LanguageStep(t, 5, Java);
  }

  lemma {:induction false} LanguagesUpTo7(t: FileTree)
    ensures Filter(LanguageOrder[..7], DetectsIn(t)) ==
      Part(Detects(t, Python), Python) +
      Part(Detects(t, TypeScript), TypeScript) +
      Part(Detects(t, JavaScript), JavaScript) +
      Part(Detects(t, Go), Go) +
      Part(Detects(t, Rust), Rust) +
      Part(Detects(t, Java), Java) +
      Part(Detects(t, Ruby), Ruby)
  {
    LanguagesUpTo6(t);
    LanguageStep(t, 6, Ruby);
  }

  /**
   * The eight lookups agree with filtering the fixed order by the detection
   * predicate: the list holds exactly the detected languages, in that order.
   */
  lemma {:induction false} LanguagesFiltered(t: FileTree)
    ensures Languages(t) == OrUnknown(Filter(LanguageOrder, DetectsIn(t)))
  {
    LanguagesUpTo7(t);
    LanguageStep(t, 7, Cpp);
    assert LanguageOrder[..8] == LanguageOrder;
  }

  /** Position of a language in the fixed order; Unknown comes last. */
  function LanguageRank(l: Language): int
  {
    match l
    case Python => 0
    case TypeScript => 1
    case JavaScript => 2
    case Go => 3
    case Rust => 4
    case Java => 5
    case Ruby => 6
    case Cpp => 7
    case Unknown => 8
  }

  lemma LanguageOrderRanked()
    ensures forall i :: 0 <= i < |LanguageOrder| ==> LanguageRank(LanguageOrder[i]) == i
  {
  }

  /** The languages come in the fixed order, hence without repetition. */
  lemma {:induction false} LanguagesOrdered(t: FileTree)
    ensures |Languages(t)| > 0
    ensures forall i, j :: 0 <= i < j < |Languages(t)| ==> LanguageRank(Languages(t)[i]) < LanguageRank(Languages(t)[j])
  {
    LanguagesFiltered(t);
    LanguageOrderRanked();
    FilterKeepsOrder(LanguageOrder, DetectsIn(t), LanguageRank);
  }

  /** A known language is listed exactly when its patterns match (JavaScript: and TypeScript's do not). */
  lemma {:induction false} LanguagesMembership(t: FileTree, l: Language)
    requires l != Unknown
    ensures l in Languages(t) <==> Detects(t, l)
  {
    LanguagesFiltered(t);
    FilterMember(LanguageOrder, DetectsIn(t), l);
  }

  /** JavaScript is never listed beside TypeScript. */
  lemma {:induction false} JavaScriptExcludesTypeScript(t: FileTree)
    ensures JavaScript in Languages(t) ==> TypeScript !in Languages(t)
  {
    LanguagesMembership(t, JavaScript);
    LanguagesMembership(t, TypeScript);
  }

  /** The list is [Unknown] exactly when no language was detected. */
  lemma {:induction false} LanguagesUnknown(t: FileTree)
    ensures Languages(t) == [Unknown] <==> forall l :: l in LanguageOrder ==> !Detects(t, l)
  {
    LanguagesFiltered(t);
    var found := Filter(LanguageOrder, DetectsIn(t));
    if |found| > 0 {
      assert found[0] in found;
      FilterMember(LanguageOrder, DetectsIn(t), found[0]);
    } else {
      forall l | l in LanguageOrder ensures !Detects(t, l) {
        FilterMember(LanguageOrder, DetectsIn(t), l);
      }
    }
  }

  /** The languages looked for inside one app, in order. */
  const AppLanguageOrder: seq<Language> := [Python, TypeScript, JavaScript, Go, Rust]

  /** The glob and the manifest that signal a language inside one app's directory. */
  function AppSignals(l: Language): (string, string)
  {
    match l
    case Python => ("*.py", "pyproject.toml")
    case TypeScript => ("*.ts", "tsconfig.json")
    case JavaScript => ("*.js", "package.json")
    case Go => ("*.go", "go.mod")
    case Rust => ("*.rs", "Cargo.toml")
    case _ => ("", "")  // not looked for inside an app
  }

  predicate AppHas(t: FileTree, app: string, l: Language)
  {
    Child(app, AppSignals(l).0) in t.matches || Child(app, AppSignals(l).1) in t.matches
  }

  predicate AppDetects(t: FileTree, app: string, l: Language)
  {
    AppHas(t, app, l) && (l == JavaScript ==> !AppHas(t, app, TypeScript))
  }

  function AppDetectsIn(t: FileTree, app: string): Language -> bool
  {
    l => AppDetects(t, app, l)
  }

  /** One app's five lookups in their fixed order, or [Unknown] when none succeeds. */
  function AppLanguages(t: FileTree, app: string): seq<Language>
  {
    OrUnknown(
      Part(AppDetects(t, app, Python), Python) + Part(AppDetects(t, app, TypeScript), TypeScript) +
      Part(AppDetects(t, app, JavaScript), JavaScript) + Part(AppDetects(t, app, Go), Go) +
      Part(AppDetects(t, app, Rust), Rust))
  }

  lemma AppLanguageStep(t: FileTree, app: string, k: nat, l: Language)
    requires k < |AppLanguageOrder| && AppLanguageOrder[k] == l
    ensures Filter(AppLanguageOrder[..k + 1], AppDetectsIn(t, app)) ==
            Filter(AppLanguageOrder[..k], AppDetectsIn(t, app)) + Part(AppDetects(t, app, l), l)
  {
    assert AppLanguageOrder[..k + 1] == AppLanguageOrder[..k] + [l];
    FilterSnoc(AppLanguageOrder[..k], l, AppDetectsIn(t, app));
  }

  lemma {:induction false} AppLanguagesUpTo1(t: FileTree, app: string)
    ensures Filter(AppLanguageOrder[..1], AppDetectsIn(t, app)) ==
      Part(AppDetects(t, app, Python), Python)
  {
    assert AppLanguageOrder[..0] == [];
    AppLanguageStep(t, app, 0, Python);
  }

  lemma {:induction false} AppLanguagesUpTo2(t: FileTree, app: string)
    ensures Filter(AppLanguageOrder[..2], AppDetectsIn(t, app)) ==
      Part(AppDetects(t, app, Python), Python) +
      Part(AppDetects(t, app, TypeScript), TypeScript)
  {
    AppLanguagesUpTo1(t, app);
    AppLanguageStep(t, app, 1, TypeScript);
  }

  lemma {:induction false} AppLanguagesUpTo3(t: FileTree, app: string)
    ensures Filter(AppLanguageOrder[..3], AppDetectsIn(t, app)) ==
      Part(AppDetects(t, app, Python), Python) +
      Part(AppDetects(t, app, TypeScript), TypeScript) +
      Part(AppDetects(t, app, JavaScript), JavaScript)
  {
    AppLanguagesUpTo2(t, app);
    AppLanguageStep(t, app, 2, JavaScript);
  }

  lemma {:induction false} AppLanguagesUpTo4(t: FileTree, app: string)
    ensures Filter(AppLanguageOrder[..4], AppDetectsIn(t, app)) ==
      Part(AppDetects(t, app, Python), Python) +
      Part(AppDetects(t, app, TypeScript), TypeScript) +
      Part(AppDetects(t, app, JavaScript), JavaScript) +
      Part(AppDetects(t, app, Go), Go)
  {
    AppLanguagesUpTo3(t, app);
    AppLanguageStep(t, app, 3, Go);
  }

  /** An app's lookups agree with filtering its five languages by the detection predicate. */
  lemma {:induction false} AppLanguagesFiltered(t: FileTree, app: string)
    ensures AppLanguages(t, app) == OrUnknown(Filter(AppLanguageOrder, AppDetectsIn(t, app)))
  {
    AppLanguagesUpTo4(t, app);
    AppLanguageStep(t, app, 4, Rust);
    assert AppLanguageOrder[..5] == AppLanguageOrder;
  }

  /** An app is never reported as Java, Ruby or C++, nor as JavaScript beside TypeScript. */
  lemma {:induction false} AppLanguagesFacts(t: FileTree, app: string)
    ensures forall l :: l in AppLanguages(t, app) ==> l in AppLanguageOrder || l == Unknown
    ensures JavaScript in AppLanguages(t, app) ==> TypeScript !in AppLanguages(t, app)
    ensures |AppLanguages(t, app)| > 0
  {
    AppLanguagesFiltered(t, app);
    var p := AppDetectsIn(t, app);
    forall l | l in Filter(AppLanguageOrder, p) ensures l in AppLanguageOrder {
      FilterMember(AppLanguageOrder, p, l);
    }
    if JavaScript in Filter(AppLanguageOrder, p) {
      FilterMember(AppLanguageOrder, p, JavaScript);
      FilterMember(AppLanguageOrder, p, TypeScript);
    }
  }

  // ---------------------------------------------------------------------
  // Apps of a monorepo.
  // ---------------------------------------------------------------------

  const AppGroups: seq<string> := ["packages", "apps", "services", "modules"]

  const Manifests: seq<string> :=
    ["package.json", "pyproject.toml", "setup.py", "Cargo.toml", "go.mod", "pom.xml", "build.gradle", "Gemfile"]

  /** A sub-folder that may hold an app: a directory, not hidden, not a dependency or cache folder. */
  predicate Eligible(t: FileTree, group: string, name: string)
  {
    Child(group, name) in t.dirs && !StartsWith(name, ".") &&
    name != "node_modules" && name != "__pycache__"
  }

  predicate HasManifest(t: FileTree, dir: string)
  {
    exists k :: 0 <= k < |Manifests| && Child(dir, Manifests[k]) in t.matches
  }

  /** What scanning one folder contributes: an app, a folder without manifest, or nothing. */
  function ScanName(t: FileTree, group: string, name: string): (seq<AppInfo>, seq<string>)
  {
    var dir := Child(group, name);
    if !Eligible(t, group, name) then ([], [])
    else if HasManifest(t, dir) then ([AppInfo(name, dir, AppLanguages(t, dir))], [])
    else ([], [group + "/" + name])
  }

  /** Scanning a group's folders in the given order. */
  function ScanNames(t: FileTree, group: string, names: seq<string>): (r: (seq<AppInfo>, seq<string>))
    decreases |names|
  {
    if |names| == 0 then ([], [])
    else
      var prev := ScanNames(t, group, names[..|names| - 1]);
      var step := ScanName(t, group, names[|names| - 1]);
      (prev.0 + step.0, prev.1 + step.1)
  }

  /** Whether a group folder exists as a directory. */
  predicate GroupPresent(t: FileTree, group: string)
  {
    group in t.matches && group in t.dirs
  }

  /** One group's contribution: its folders in sorted order, or nothing when it is absent. */
  function ScanGroup(t: FileTree, group: string): (seq<AppInfo>, seq<string>)
  {
    if GroupPresent(t, group) then ScanNames(t, group, SortNames(Listing(t, group))) else ([], [])
  }

  /** All groups, in the order packages, apps, services, modules. */
  function ScanGroups(t: FileTree, groups: seq<string>): (seq<AppInfo>, seq<string>)
    decreases |groups|
  {
    if |groups| == 0 then ([], [])
    else
      var prev := ScanGroups(t, groups[..|groups| - 1]);
      var step := ScanGroup(t, groups[|groups| - 1]);
      (prev.0 + step.0, prev.1 + step.1)
  }

  function AppScan(t: FileTree): (seq<AppInfo>, seq<string>)
  {
    ScanGroups(t, AppGroups)
  }

  /**
   * Every eligible folder lands in exactly one of the two lists: an app when
   * it has a manifest, "group/name" otherwise; ineligible folders land in
   * neither, and every app found is an eligible folder with a manifest.
   */
  lemma {:induction false} ScanPartition(t: FileTree, group: string, names: seq<string>)
    ensures |ScanNames(t, group, names).0| + |ScanNames(t, group, names).1| ==
            Count(names, n => Eligible(t, group, n))
    ensures forall n :: n in names && Eligible(t, group, n) && HasManifest(t, Child(group, n)) ==>
            AppInfo(n, Child(group, n), AppLanguages(t, Child(group, n))) in ScanNames(t, group, names).0
    ensures forall n :: n in names && Eligible(t, group, n) && !HasManifest(t, Child(group, n)) ==>
            group + "/" + n in ScanNames(t, group, names).1
    ensures forall a :: a in ScanNames(t, group, names).0 ==>
            a.name in names && Eligible(t, group, a.name) && a.path == Child(group, a.name) &&
            HasManifest(t, a.path)
    decreases |names|
  {
    if |names| > 0 {
      var init := names[..|names| - 1];
      var last := names[|names| - 1];
      ScanPartition(t, group, init);
      assert names == init + [last];
      FilterSnoc(init, last, n => Eligible(t, group, n));
    }
  }

  /** Within one group the apps come out in sorted name order. */
  lemma {:induction false} ScanKeepsOrder(t: FileTree, group: string, names: seq<string>)
    requires LexSorted(names)
    ensures forall i, j :: 0 <= i < j < |ScanNames(t, group, names).0| ==>
      LexLe(ScanNames(t, group, names).0[i].name, ScanNames(t, group, names).0[j].name)
    decreases |names|
  {
    if |names| > 0 {
      var init := names[..|names| - 1];
      var last := names[|names| - 1];
      assert LexSorted(init);
      ScanKeepsOrder(t, group, init);
      ScanPartition(t, group, init);
      var prev := ScanNames(t, group, init).0;
      forall a | a in prev ensures LexLe(a.name, last) {
        var k :| 0 <= k < |init| && init[k] == a.name;
        assert names[k] == a.name;
      }
    }
  }
}
