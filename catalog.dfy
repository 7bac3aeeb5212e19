/**
 * The nine pillars and their 81 criteria, in the order the analyzer
 * evaluates them, and the evaluation of one criterion from the facts the
 * analyzer has detected (skills/readiness-report/scripts/analyze_repo.py).
 */
module Catalog {
  import opened Wrappers
  import opened Seqs
  import opened Criteria

  /** How a criterion's verdict is obtained. */
  datatype Check =
    | Probe                                         // one check on the repository
    | PerApp(passReason: string, failReason: string) // one check per app in a monorepo
    | NeverPasses                                   // not implemented: the verdict is always false

  datatype CriterionSpec = CriterionSpec(id: string, level: nat, check: Check)

  datatype PillarSpec = PillarSpec(name: string, criteria: seq<CriterionSpec>)

  const StyleValidation: PillarSpec := PillarSpec("Style & Validation", [
      CriterionSpec("formatter", 1, PerApp("Formatter configured", "Add .prettierrc, ruff/black in pyproject.toml")),
      CriterionSpec("lint_config", 1, PerApp("Linter configured", "Add .eslintrc.js, ruff/pylint in pyproject.toml")),
      CriterionSpec("type_check", 1, PerApp("Type checking configured", "Add tsconfig.json or mypy in pyproject.toml")),
      CriterionSpec("strict_typing", 2, Probe),
      CriterionSpec("pre_commit_hooks", 2, Probe),
      CriterionSpec("naming_consistency", 2, Probe),
      CriterionSpec("large_file_detection", 2, Probe),
      CriterionSpec("code_modularization", 3, Probe),
      CriterionSpec("cyclomatic_complexity", 3, Probe),
      CriterionSpec("dead_code_detection", 3, Probe),
      CriterionSpec("duplicate_code_detection", 3, Probe),
      CriterionSpec("tech_debt_tracking", 4, Probe),
      CriterionSpec("n_plus_one_detection", 4, Probe)])

  const BuildSystem: PillarSpec := PillarSpec("Build System", [
      CriterionSpec("build_cmd_doc", 1, Probe),
      CriterionSpec("deps_pinned", 1, PerApp("Dependencies pinned with lockfile", "Add package-lock.json, uv.lock, or Cargo.lock")),
      CriterionSpec("vcs_cli_tools", 1, Probe),
      CriterionSpec("fast_ci_feedback", 2, Probe),
      CriterionSpec("single_command_setup", 2, Probe),
      CriterionSpec("release_automation", 2, Probe),
      CriterionSpec("deployment_frequency", 2, Probe),
      CriterionSpec("release_notes_automation", 3, Probe),
      CriterionSpec("agentic_development", 3, Probe),
      CriterionSpec("automated_pr_review", 3, Probe),
      CriterionSpec("feature_flag_infrastructure", 3, Probe),
      CriterionSpec("build_performance_tracking", 4, Probe),
      CriterionSpec("heavy_dependency_detection", 4, Probe),
      CriterionSpec("unused_dependencies_detection", 4, Probe),
      CriterionSpec("dead_feature_flag_detection", 4, NeverPasses),
      CriterionSpec("monorepo_tooling", 4, Probe),
      CriterionSpec("version_drift_detection", 4, NeverPasses),
      CriterionSpec("progressive_rollout", 5, Probe),
      CriterionSpec("rollback_automation", 5, NeverPasses)])

  const Testing: PillarSpec := PillarSpec("Testing", [
      CriterionSpec("unit_tests_exist", 1, PerApp("Unit tests found", "Add unit tests in tests/ directory")),
      CriterionSpec("unit_tests_runnable", 1, Probe),
      CriterionSpec("test_naming_conventions", 2, Probe),
      CriterionSpec("test_isolation", 2, Probe),
      CriterionSpec("integration_tests_exist", 3, Probe),
      CriterionSpec("test_coverage_thresholds", 3, Probe),
      CriterionSpec("flaky_test_detection", 4, Probe),
      CriterionSpec("test_performance_tracking", 4, Probe)])

  const Documentation: PillarSpec := PillarSpec("Documentation", [
      CriterionSpec("readme", 1, Probe),
      CriterionSpec("agents_md", 2, Probe),
      CriterionSpec("documentation_freshness", 2, Probe),
      CriterionSpec("api_schema_docs", 3, Probe),
      CriterionSpec("automated_doc_generation", 3, Probe),
      CriterionSpec("service_flow_documented", 3, Probe),
      CriterionSpec("skills", 3, Probe),
      CriterionSpec("agents_md_validation", 4, Probe)])

  const DevEnvironment: PillarSpec := PillarSpec("Dev Environment", [
      CriterionSpec("env_template", 2, Probe),
      CriterionSpec("devcontainer", 3, Probe),
      CriterionSpec("devcontainer_runnable", 3, Probe),
      CriterionSpec("database_schema", 3, Probe),
      CriterionSpec("local_services_setup", 3, Probe)])

  const Observability: PillarSpec := PillarSpec("Debugging & Observability", [
      CriterionSpec("structured_logging", 2, Probe),
      CriterionSpec("code_quality_metrics", 2, Probe),
      CriterionSpec("error_tracking_contextualized", 3, Probe),
      CriterionSpec("distributed_tracing", 3, Probe),
      CriterionSpec("metrics_collection", 3, Probe),
      CriterionSpec("health_checks", 3, Probe),
      CriterionSpec("profiling_instrumentation", 4, Probe),
      CriterionSpec("alerting_configured", 4, Probe),
      CriterionSpec("deployment_observability", 4, Probe),
      CriterionSpec("runbooks_documented", 4, Probe),
      CriterionSpec("circuit_breakers", 5, Probe)])

  const Security: PillarSpec := PillarSpec("Security", [
      CriterionSpec("gitignore_comprehensive", 1, Probe),
      CriterionSpec("secrets_management", 2, Probe),
      CriterionSpec("codeowners", 2, Probe),
      CriterionSpec("branch_protection", 2, Probe),
      CriterionSpec("dependency_update_automation", 3, Probe),
      CriterionSpec("log_scrubbing", 3, Probe),
      CriterionSpec("pii_handling", 3, Probe),
      CriterionSpec("automated_security_review", 4, Probe),
      CriterionSpec("secret_scanning", 4, Probe),
      CriterionSpec("dast_scanning", 5, Probe),
      CriterionSpec("privacy_compliance", 5, Probe)])

  const TaskDiscovery: PillarSpec := PillarSpec("Task Discovery", [
      CriterionSpec("issue_templates", 2, Probe),
      CriterionSpec("issue_labeling_system", 2, Probe),
      CriterionSpec("pr_templates", 2, Probe),
      CriterionSpec("backlog_health", 3, Probe)])

  const ProductAnalytics: PillarSpec := PillarSpec("Product & Analytics", [
      CriterionSpec("error_to_insight_pipeline", 5, Probe),
      CriterionSpec("product_analytics_instrumentation", 5, Probe)])

  const Pillars: seq<PillarSpec> := [
    StyleValidation, BuildSystem, Testing, Documentation, DevEnvironment,
    Observability, Security, TaskDiscovery, ProductAnalytics]

  function PillarCriteria(p: PillarSpec): seq<CriterionSpec>
  {
    p.criteria
  }

  /** Every criterion, pillar by pillar. */
  function AllCriteria(): seq<CriterionSpec>
  {
    StyleValidation.criteria + BuildSystem.criteria + Testing.criteria +
    Documentation.criteria + DevEnvironment.criteria + Observability.criteria +
    Security.criteria + TaskDiscovery.criteria + ProductAnalytics.criteria
  }

  function AllIds(): seq<string>
  {
    Map(AllCriteria(), SpecId)
  }

  function SpecId(c: CriterionSpec): string
  {
    c.id
  }

  /**
   * What the criterion checks report, which the model does not compute:
   * the check of a criterion on the repository root, the check of an
   * app-scoped criterion on one app's directory, and the reason text a
   * repo-scoped result carries for a verdict.
   */
  datatype Evidence = Evidence(
    repoCheck: string -> bool,
    appCheck: (string, AppInfo) -> bool,
    reason: (string, bool) -> string)

  /** What detection found before any criterion is evaluated. */
  datatype Facts = Facts(repoType: RepoType, apps: seq<AppInfo>, pre: Prerequisites)

  /** The per-app check of one criterion. */
  function AppCheck(ev: Evidence, id: string): AppInfo -> bool
  {
    a => ev.appCheck(id, a)
  }

  /** Whether app-scoped criteria are evaluated app by app. */
  predicate PerAppMode(f: Facts)
  {
    f.repoType == Monorepo && |f.apps| > 0
  }

  /** The result one criterion's evaluator appends to its pillar. */
  function Evaluate(c: CriterionSpec, pillar: string, f: Facts, ev: Evidence): (r: CriterionResult)
    ensures ScoreConsistent(r)
    ensures r.id == c.id && r.pillar == pillar && r.level == c.level
    ensures r.status.Skip? <==> SkipFor(c.id, f.repoType, f.pre).Some?
    ensures r.status.Skip? ==> r.reason == SkipFor(c.id, f.repoType, f.pre).value
    ensures c.check.NeverPasses? ==> !r.status.Pass?
    ensures r.scope.AppScope? ==> c.check.PerApp? && PerAppMode(f)
    ensures c.check.Probe? && !r.status.Skip? ==> (r.status.Pass? <==> ev.repoCheck(c.id))
    // outside per-app mode a per-app criterion falls back to the repository check
    ensures c.check.PerApp? && !PerAppMode(f) && !r.status.Skip? ==> (r.status.Pass? <==> ev.repoCheck(c.id))
    ensures c.check.PerApp? && PerAppMode(f) && !r.status.Skip? ==>
      r.appVerdicts == AppVerdicts(f.apps, AppCheck(ev, c.id)) &&
      r.score == Ratio(PassCount(r.appVerdicts), |r.appVerdicts|)
  {
    var skip := SkipFor(c.id, f.repoType, f.pre);
    match c.check
    case NeverPasses =>
      MakeResult(c.id, pillar, c.level, false, ev.reason(c.id, false), skip)
    case Probe =>
      var ok := ev.repoCheck(c.id);
      MakeResult(c.id, pillar, c.level, ok, ev.reason(c.id, ok), skip)
    case PerApp(passReason, failReason) =>
      if PerAppMode(f) then
        MakeAppResult(c.id, pillar, c.level, AppVerdicts(f.apps, AppCheck(ev, c.id)),
                      passReason, failReason, skip, true)
      else
        var ok := ev.repoCheck(c.id);
        MakeResult(c.id, pillar, c.level, ok, ev.reason(c.id, ok), skip)
  }

  /** One pillar's results, in its criteria's order. */
  function EvaluatePillar(p: PillarSpec, f: Facts, ev: Evidence): (r: seq<CriterionResult>)
    ensures |r| == |p.criteria|
    ensures forall i :: 0 <= i < |r| ==> r[i] == Evaluate(p.criteria[i], p.name, f, ev)
  {
    Map(p.criteria, c => Evaluate(c, p.name, f, ev))
  }

  /** The catalogue lists 81 criteria over nine pillars. */
  lemma CatalogShape()
    ensures |Pillars| == 9
    ensures |StyleValidation.criteria| == 13 && |BuildSystem.criteria| == 19
    ensures |Testing.criteria| == 8 && |Documentation.criteria| == 8
    ensures |DevEnvironment.criteria| == 5 && |Observability.criteria| == 11
    ensures |Security.criteria| == 11 && |TaskDiscovery.criteria| == 4
    ensures |ProductAnalytics.criteria| == 2
    ensures |AllCriteria()| == 81
  {
  }

  /**
   * Where a criterion may sit: on one of the five levels, and an
   * app-scoped one on level 1 among the five app-scoped checks.
   */
  predicate Placed(c: CriterionSpec)
  {
    1 <= c.level <= 5 &&
    (c.check.PerApp? ==>
      c.level == 1 && c.id in {"formatter", "lint_config", "type_check", "deps_pinned", "unit_tests_exist"})
  }

  predicate PillarPlaced(p: PillarSpec)
  {
    forall i :: 0 <= i < |p.criteria| ==> Placed(p.criteria[i])
  }

  lemma FirstPillarsPlaced()
    ensures PillarPlaced(StyleValidation) && PillarPlaced(BuildSystem) && PillarPlaced(Testing)
  {
  }

  lemma MiddlePillarsPlaced()
    ensures PillarPlaced(Documentation) && PillarPlaced(DevEnvironment) && PillarPlaced(Observability)
  {
  }

  lemma LastPillarsPlaced()
    ensures PillarPlaced(Security) && PillarPlaced(TaskDiscovery) && PillarPlaced(ProductAnalytics)
  {
  }

  /** Every criterion of the catalogue is placed. */
  lemma CatalogPlaced(p: PillarSpec)
    requires p in Pillars
    ensures PillarPlaced(p)
  {
    FirstPillarsPlaced();
    MiddlePillarsPlaced();
    LastPillarsPlaced();
  }

  /** Every criterion sits on one of the five levels. */
  lemma LevelsInRange(p: PillarSpec, i: nat)
    requires p in Pillars && i < |p.criteria|
    ensures 1 <= p.criteria[i].level <= 5
  {
    CatalogPlaced(p);
  }

  /** The five app-scoped criteria, all on level 1. */
  lemma AppScopedCriteria(p: PillarSpec, i: nat)
    requires p in Pillars && i < |p.criteria| && p.criteria[i].check.PerApp?
    ensures p.criteria[i].level == 1
    ensures p.criteria[i].id in {"formatter", "lint_config", "type_check", "deps_pinned", "unit_tests_exist"}
  {
    CatalogPlaced(p);
  }
}
