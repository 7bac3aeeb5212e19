# Agent-readiness analyzer and SonarQube fetcher: a Dafny model

This project models the core of the agent-readiness skill. It has two parts.

**The readiness report.** Four scripts make it up:
- The repository analyzer (`analyze_repo.py`):
  - classifies a repository and detects its languages and the apps of a monorepo;
  - evaluates 81 criteria over nine pillars, skipping criteria that do not apply;
  - scores five maturity levels and finds the achieved level.
- The renderers that read its analysis:
  - the Markdown report (`generate_report.py`);
  - the HTML report (`html_report.py`);
  - the Mermaid diagrams (`diagrams.py`).

**The SonarQube issue fetcher** (`analyze_sonarqube.py`). It builds request parameters and pages through the issue search. It buckets issues by severity, searches upward for the project root and reads the project key.

Modules follow the program:

| module | models |
|---|---|
| `Criteria` | result records, skip table, result builders |
| `Scoring` | tallies, percentages, pass rate, level scores, achieved level |
| `Classify` | repository type, language and app detection, over a file-tree oracle (`Files`) |
| `Catalog` | each evaluator's fixed (id, level) emission order, and each criterion's evaluation |
| `Analysis` | the stages of a run, as functions on the analysis record |
| `Analyzer` | `RepoAnalyzer` as a class: its result record and its two caches are fields updated in place |
| `ReportData` | the analysis as the renderers read it |
| `Report`, `Html`, `Diagrams` | the three renderers |
| `Sonar` | the fetcher |
| `Seqs`, `Text`, `Wrappers` | Python list, string and `Optional` behaviour the above rely on |

Representation choices:
- **Scores in tenths.** Scores that Python keeps as floats rounded to one decimal are whole tenths of a percent: 80.0% is 800. `round(x, 1)` is the nearest tenth with ties to even. `f"{x:.0f}"` is the nearest whole percent, and `int(x)` truncates.
- **The file system is an oracle** (`Files.FileTree`). It holds:
  - the patterns and paths that match;
  - the text of each readable file;
  - the directories;
  - each directory's listing.
- **Criterion checks are an oracle** (`Catalog.Evidence`). Each criterion's check answers for the repository, or for one app.
- **Mermaid output is structured lines.** The roadmap is a sequence of `FlowLine`s, and the charts are records of their labels and values.
- **A finite page source.** The SonarQube service is a sequence of responses, one per page. A request past its end fails like a request error.
- **Paths are component lists.** Directories in the project-root search are sequences of path components; `[]` is "/".

## Model

| member | source | states |
|---|---|---|
| Criteria.StatusName | skills/readiness-report/scripts/analyze_repo.py:25-28 | PASS serialises as "pass", FAIL as "fail" and SKIP as "skip" |
| Criteria.ScoreText | skills/readiness-report/scripts/analyze_repo.py:420 | "—/—" exactly when the criterion was not scored; otherwise the passed count, "/", and the checked count, both in decimal |
| Criteria.KeyIndex | skills/readiness-report/scripts/analyze_repo.py:457 | the position of a key in an insertion-ordered dict is its first occurrence, or -1 when absent |
| Criteria.DictGet | skills/readiness-report/scripts/analyze_repo.py:457 | the default exactly reaches the caller when the key is missing; with distinct keys, the value stored under the key |
| Criteria.DictPut | skills/readiness-report/scripts/analyze_repo.py:601 | assigning a key keeps keys distinct; the new pair is present and every other pair is kept |
| Criteria.DictPutKeys | skills/readiness-report/scripts/analyze_repo.py:601 | after assigning k, the keys are the old keys plus k |
| Criteria.AppVerdicts | skills/readiness-report/scripts/analyze_repo.py:601 | the per-app dict has distinct keys and at most one item per app |
| Criteria.AppVerdictsDistinct | skills/readiness-report/scripts/analyze_repo.py:601 | with distinct app names, the dict holds one item per app, in app order, each with that app's verdict |
| Criteria.AppVerdictsKeys | skills/readiness-report/scripts/analyze_repo.py:601 | a name is a key exactly when some app carries it |
| Criteria.HasNameSnoc | skills/readiness-report/scripts/analyze_repo.py:601 | a name occurs among apps + [a] iff it occurs among apps or is a's name |
| Criteria.FailingApps | skills/readiness-report/scripts/analyze_repo.py:477 | the failing list is no longer than the dict |
| Criteria.FailingAppsMember | skills/readiness-report/scripts/analyze_repo.py:477 | an app is listed as failing exactly when its verdict is false |
| Criteria.PassFailPartition | skills/readiness-report/scripts/analyze_repo.py:467-477 | passing and failing apps together number the apps |
| Criteria.FindRule | skills/readiness-report/scripts/analyze_repo.py:326-330 | a rule is found iff some rule names the criterion, and the reason found belongs to such a rule |
| Criteria.FindRuleFirst | skills/readiness-report/scripts/analyze_repo.py:326-330 | the first rule naming the criterion decides its reason |
| Criteria.SkipRules | skills/readiness-report/scripts/analyze_repo.py:297-324 | libraries have 15 rules, database projects 2, CLI tools 3, monorepos and applications none; every type with rules skips DAST scanning |
| Criteria.SkipFor | skills/readiness-report/scripts/analyze_repo.py:293-351 | the repo-type table takes precedence; without a table entry, a monorepo-only criterion outside a monorepo skips as "not a monorepo", and each of the three prerequisite criteria skips with its own reason when its prerequisite is missing; no skip exactly when none of these rules fires |
| Criteria.RulesSkippable | skills/readiness-report/scripts/analyze_repo.py:297-324 | every id in the three repo-type tables is a skippable criterion |
| Criteria.SkipOnlySkippable | skills/readiness-report/scripts/analyze_repo.py:293-351 | only skippable criteria are ever skipped |
| Criteria.HealthCheckSkipReasons | skills/readiness-report/scripts/analyze_repo.py:297-324 | a library and a CLI skip health checks for their own reasons; an application evaluates them |
| Criteria.MakeResult | skills/readiness-report/scripts/analyze_repo.py:403-431 | status and score stay consistent; SKIP iff a skip fired, with its reason; otherwise PASS iff passed, out of one check, with the given reason |
| Criteria.MakeAppResult | skills/readiness-report/scripts/analyze_repo.py:433-489 | a skip gives SKIP in app scope; without apps, the verdict under "__repo__" (default false) decides; per app, the score is passes over apps, PASS iff 5·passes ≥ 4·apps, and a failing reason lists exactly the failing apps |
| Criteria.MeetsThreshold | skills/readiness-report/scripts/analyze_repo.py:469-472 | no apps never meet the threshold; otherwise it holds iff at least 80 in 100 apps pass |
| Criteria.ThresholdByFailures | skills/readiness-report/scripts/analyze_repo.py:467-472 | the threshold holds iff there is an app and at most one failing app per four passing ones; one more passing app keeps a met threshold met |
| Criteria.FailingReason | skills/readiness-report/scripts/analyze_repo.py:478 | the fail reason, then " (failing: ", then exactly the failing apps joined by ", ", then ")" |
| Criteria.FailingReasonCut | skills/readiness-report/scripts/analyze_repo.py:478 | when the fail reason holds no "(", cutting the failing reason at " (failing:" gives it back |
| Scoring.Tally | skills/readiness-report/scripts/analyze_repo.py:383-393 | a pillar counts its PASS criteria and its non-skipped criteria, so passed ≤ total ≤ criteria |
| Scoring.RoundTenths | skills/readiness-report/scripts/analyze_repo.py:398-401 | 1000·passed/total rounded down or up to whole tenths: exact ratios kept, a tie to the even tenth |
| Scoring.Percentage | skills/readiness-report/scripts/analyze_repo.py:58-62 | 100 for an empty pillar, else floor(100·passed/total), which is at most 100 |
| Scoring.RoundTenthsNearest | skills/readiness-report/scripts/analyze_repo.py:398-401 | the rounded score is within half a tenth of the exact ratio |
| Scoring.RoundTenthsAtMost | skills/readiness-report/scripts/analyze_repo.py:398-401 | a ratio of at most one rounds to at most 100.0% |
| Scoring.RoundTenthsGate | skills/readiness-report/scripts/analyze_repo.py:1565-1569 | below 400 criteria, a rounded score ≥ 80.0 iff 5·passed ≥ 4·total |
| Scoring.RoundTenthsFull | skills/readiness-report/scripts/analyze_repo.py:1558-1565 | below 2000 criteria, a non-empty level scores 100.0 iff every criterion passes |
| Scoring.PassRate | skills/readiness-report/scripts/analyze_repo.py:397-401 | the pass rate stays 0 when nothing was counted, else it is the rounded ratio |
| Scoring.PassedCountsAll | skills/readiness-report/scripts/analyze_repo.py:395 | the run's passed total is the number of passing criteria over all pillars |
| Scoring.TotalCountsAll | skills/readiness-report/scripts/analyze_repo.py:396 | the run's total is the number of non-skipped criteria over all pillars |
| Scoring.RunPassedAtMostTotal | skills/readiness-report/scripts/analyze_repo.py:395-396 | a run never passes more criteria than it counts |
| Scoring.AtLevelSnoc | skills/readiness-report/scripts/analyze_repo.py:1553-1556 | one more criterion joins its own level's bucket only, and only when it is not skipped |
| Scoring.BucketScoreBounds | skills/readiness-report/scripts/analyze_repo.py:1558-1565 | a level scores at most 100.0; a non-empty one scores 100.0 exactly when all its criteria pass |
| Scoring.Achieved | skills/readiness-report/scripts/analyze_repo.py:1567-1575 | every level below the achieved one meets 80%, and the next one (if any) falls short |
| Scoring.AchievedUnique | skills/readiness-report/scripts/analyze_repo.py:1567-1575 | that property determines the achieved level |
| Scoring.GateCaps | skills/readiness-report/scripts/analyze_repo.py:1567-1575 | a level below 80% caps the achieved level below it |
| Scoring.GateLifts | skills/readiness-report/scripts/analyze_repo.py:1567-1575 | levels 1..k all at 80% or more lift the achieved level to at least k |
| Classify.RepoTypeOf | skills/readiness-report/scripts/analyze_repo.py:181-215 | exactly one type: library, else cli, else database, else monorepo, else application, each rule tried only when the earlier ones fail |
| Classify.DatabaseOutranksMonorepo | skills/readiness-report/scripts/analyze_repo.py:205-213 | a database-named repository is a database even with a monorepo layout |
| Classify.OrUnknown | skills/readiness-report/scripts/analyze_repo.py:239 | the list is never empty, and is [Unknown] exactly when nothing was found |
| Classify.LanguageStep | skills/readiness-report/scripts/analyze_repo.py:221-237 | each lookup adds its language or nothing |
| Classify.LanguagesFiltered | skills/readiness-report/scripts/analyze_repo.py:217-239 | the eight lookups equal filtering the fixed order by the detection predicate |
| Classify.LanguageOrderRanked | skills/readiness-report/scripts/analyze_repo.py:221-237 | the rank of each language is its place in the fixed order |
| Classify.LanguagesOrdered | skills/readiness-report/scripts/analyze_repo.py:217-239 | languages are listed in the fixed order, hence without repetition |
| Classify.LanguagesMembership | skills/readiness-report/scripts/analyze_repo.py:221-237 | a language is listed exactly when it is detected |
| Classify.JavaScriptExcludesTypeScript | skills/readiness-report/scripts/analyze_repo.py:225-227 | JavaScript is never listed beside TypeScript |
| Classify.LanguagesUnknown | skills/readiness-report/scripts/analyze_repo.py:239 | the list is [Unknown] exactly when no language is detected |
| Classify.AppLanguageStep | skills/readiness-report/scripts/analyze_repo.py:280-290 | each of an app's lookups adds its language or nothing |
| Classify.AppLanguagesFiltered | skills/readiness-report/scripts/analyze_repo.py:277-291 | an app's five lookups equal filtering its five languages by detection |
| Classify.AppLanguagesFacts | skills/readiness-report/scripts/analyze_repo.py:277-291 | an app's list is non-empty, has only its five languages or Unknown, and never JavaScript beside TypeScript |
| Classify.ScanPartition | skills/readiness-report/scripts/analyze_repo.py:257-275 | each eligible sub-folder lands in exactly one list: apps if it has a manifest, else undetected folders |
| Classify.ScanKeepsOrder | skills/readiness-report/scripts/analyze_repo.py:257 | within a group, apps come out in sorted name order |
| Catalog.Evaluate | skills/readiness-report/scripts/analyze_repo.py:594-1547 | each evaluated criterion keeps its id, pillar and level, skips iff the skip rules say so, and otherwise follows its check's verdict, the repository check for a per-app criterion outside a monorepo with apps; app scope only for per-app criteria of a monorepo with apps |
| Catalog.EvaluatePillar | skills/readiness-report/scripts/analyze_repo.py:594-1547 | a pillar's results follow its criteria one for one, in order |
| Catalog.CatalogShape | skills/readiness-report/scripts/analyze_repo.py:594-1547 | nine pillars emit 13, 19, 8, 8, 5, 11, 11, 4 and 2 criteria, 81 in all |
| Catalog.FirstPillarsPlaced | skills/readiness-report/scripts/analyze_repo.py:594-1080 | every criterion of the first three pillars is on a level 1..5, and app-scoped ones are on level 1 |
| Catalog.MiddlePillarsPlaced | skills/readiness-report/scripts/analyze_repo.py:1081-1341 | the same for the next three pillars |
| Catalog.LastPillarsPlaced | skills/readiness-report/scripts/analyze_repo.py:1342-1547 | the same for the last three pillars |
| Catalog.CatalogPlaced | skills/readiness-report/scripts/analyze_repo.py:594-1547 | every pillar of the catalogue is placed |
| Catalog.LevelsInRange | skills/readiness-report/scripts/analyze_repo.py:594-1547 | every catalogued criterion has a level 1..5 |
| Catalog.AppScopedCriteria | skills/readiness-report/scripts/analyze_repo.py:594-983 | an app-scoped criterion is one of formatter, lint_config, type_check, deps_pinned and unit_tests_exist, and sits on level 1 |
| Analysis.PillarTallies | skills/readiness-report/scripts/analyze_repo.py:369-393 | one pillar record per catalogue entry, in evaluation order |
| Analysis.PillarsCatalogLevels | skills/readiness-report/scripts/analyze_repo.py:594-1547 | every catalogued criterion sits on a level 1..5 |
| Analysis.AccumulateSnoc | skills/readiness-report/scripts/analyze_repo.py:388-396 | recording one more pillar appends it and adds its two counts to the totals |
| Analysis.AccumulatePrefix | skills/readiness-report/scripts/analyze_repo.py:382-396 | the same step over a prefix of the pillars |
| Analysis.WriteScores | skills/readiness-report/scripts/analyze_repo.py:1558-1565 | the loop writes a score for each level written so far and leaves other keys alone |
| Analysis.ScoresOf | skills/readiness-report/scripts/analyze_repo.py:1567-1572 | the five level scores, level k at index k-1 |
| Analysis.AllResultsSnoc | skills/readiness-report/scripts/analyze_repo.py:1553-1556 | one more pillar appends its criteria to the run's criteria |
| Analysis.TalliesTallied | skills/readiness-report/scripts/analyze_repo.py:383-393 | every pillar record counts its own criteria |
| Analysis.TalliesWellFormed | skills/readiness-report/scripts/analyze_repo.py:383-393 | every evaluated criterion is consistent and on a level 1..5 |
| Analysis.DetectedFresh | skills/readiness-report/scripts/analyze_repo.py:94-108 | detection leaves pillars, totals and pass rate at their start values |
| Analysis.PillarStageTotals | skills/readiness-report/scripts/analyze_repo.py:369-401 | from an empty record the totals count exactly the passing and the non-skipped criteria, passed ≤ total, and the pass rate stays 0 when nothing was counted |
| Analysis.LevelsKeepTotals | skills/readiness-report/scripts/analyze_repo.py:1549-1575 | level scoring leaves pillars, totals and pass rate alone |
| Analysis.FreshRunTotals | skills/readiness-report/scripts/analyze_repo.py:103-110 | a fresh run records one pillar per catalogue entry and counts exactly the passing and non-skipped criteria; the pass rate is 0 when nothing was counted |
| Analysis.LevelStageFacts | skills/readiness-report/scripts/analyze_repo.py:1549-1575 | all five levels get their score; a level below 80% caps the achieved level; every achieved level scores at least 80% |
| Analysis.FiveLevelsGate | skills/readiness-report/scripts/analyze_repo.py:1567-1575 | the achieved level is at most 5 and below every level under 80% |
| Analyzer.FirstHit | skills/readiness-report/scripts/analyze_repo.py:114-131 | the first matching pattern; none before it matches, and it exists iff some pattern matches |
| Analyzer.Decided | skills/readiness-report/scripts/analyze_repo.py:114-131 | a lookup decides every pattern up to and including the first that matches (and none before it matches), or all of them when none matches |
| Analyzer.BucketByLevel | skills/readiness-report/scripts/analyze_repo.py:1551-1556 | the loop puts each level's non-skipped criteria in its bucket, in order |
| Analyzer.LeadingLevels | skills/readiness-report/scripts/analyze_repo.py:1567-1575 | the loop's achieved level is the number of leading levels at 80% |
| Analyzer.LookupRule | skills/readiness-report/scripts/analyze_repo.py:326-330 | the table loop finds the first rule for the criterion |
| Analyzer.RepoAnalyzer.constructor | skills/readiness-report/scripts/analyze_repo.py:94-101 | a new analyzer has the initial record and empty caches |
| Analyzer.RepoAnalyzer.FileExists | skills/readiness-report/scripts/analyze_repo.py:112-131 | true iff some pattern matches; it caches exactly the patterns up to the first hit, and every cached answer agrees with the tree |
| Analyzer.RepoAnalyzer.ReadFile | skills/readiness-report/scripts/analyze_repo.py:133-147 | the file's text or None; only a successful read is cached |
| Analyzer.RepoAnalyzer.SetupSaysLibrary | skills/readiness-report/scripts/analyze_repo.py:184-185 | the setup-script library rule through the caches |
| Analyzer.RepoAnalyzer.PyprojectSaysLibrary | skills/readiness-report/scripts/analyze_repo.py:189-194 | the pyproject library rule through the caches |
| Analyzer.RepoAnalyzer.ReadmeSaysCli | skills/readiness-report/scripts/analyze_repo.py:199-201 | the CLI rule through the caches |
| Analyzer.RepoAnalyzer.DetectRepoType | skills/readiness-report/scripts/analyze_repo.py:181-215 | the record gets the classified repository type, and nothing else changes |
| Analyzer.RepoAnalyzer.AddLanguage | skills/readiness-report/scripts/analyze_repo.py:221-237 | one lookup appends its language exactly when it is detected |
| Analyzer.RepoAnalyzer.ScanLanguages | skills/readiness-report/scripts/analyze_repo.py:219-237 | the eight lookups produce the detected languages in order |
| Analyzer.RepoAnalyzer.DetectLanguages | skills/readiness-report/scripts/analyze_repo.py:217-239 | the record gets the detected languages, or [Unknown] |
| Analyzer.RepoAnalyzer.DetectAppLanguages | skills/readiness-report/scripts/analyze_repo.py:277-291 | one app's languages are its five lookups, or [Unknown] |
| Analyzer.RepoAnalyzer.ScanFolder | skills/readiness-report/scripts/analyze_repo.py:258-275 | one sub-folder yields an app, a folder without a manifest, or nothing |
| Analyzer.RepoAnalyzer.ScanGroupFolders | skills/readiness-report/scripts/analyze_repo.py:253-275 | one group's sorted sub-folders, nothing when the group is absent |
| Analyzer.RepoAnalyzer.ScanGroupList | skills/readiness-report/scripts/analyze_repo.py:252-275 | the groups in order, each adding its apps and folders |
| Analyzer.RepoAnalyzer.DetectApps | skills/readiness-report/scripts/analyze_repo.py:241-275 | outside a monorepo nothing changes; otherwise the scan of packages, apps, services and modules is appended |
| Analyzer.RepoAnalyzer.CheckFeatureFlags | skills/readiness-report/scripts/analyze_repo.py:353-367 | true iff one of the four manifests names a feature-flag service, in any case |
| Analyzer.RepoAnalyzer.ShouldSkip | skills/readiness-report/scripts/analyze_repo.py:293-351 | the skip decided by the table, the monorepo rule and the prerequisites the tree shows |
| Analyzer.RepoAnalyzer.EvaluateCriterion | skills/readiness-report/scripts/analyze_repo.py:403-489 | one criterion's result, decided against the current record and tree |
| Analyzer.RepoAnalyzer.EvaluatePillar | skills/readiness-report/scripts/analyze_repo.py:594-1547 | one evaluator's results, in its criteria's order |
| Analyzer.RepoAnalyzer.TallyOne | skills/readiness-report/scripts/analyze_repo.py:382-393 | one pillar's record with its counts |
| Analyzer.RepoAnalyzer.AccumulatePillars | skills/readiness-report/scripts/analyze_repo.py:382-396 | all pillar records appended and their counts added to the totals |
| Analyzer.RepoAnalyzer.EvaluateAllPillars | skills/readiness-report/scripts/analyze_repo.py:369-401 | the pillar stage; pass rate written only when some criterion was counted; levels stay in 1..5 |
| Analyzer.RepoAnalyzer.CalculateLevels | skills/readiness-report/scripts/analyze_repo.py:1549-1575 | the level stage: five scores written and the achieved level set |
| Analyzer.RepoAnalyzer.Analyze | skills/readiness-report/scripts/analyze_repo.py:103-110 | the five stages in order; the returned record is the analyzer's |
| ReportData.AllEntriesOf | skills/readiness-report/scripts/generate_report.py:184-195 | the analysis, read back, lists exactly its criteria in order |
| ReportData.AnalyzerStatuses | skills/readiness-report/scripts/generate_report.py:196-202 | every criterion the analyzer writes has one of the three known statuses |
| Report.WholePercent | skills/readiness-report/scripts/generate_report.py:28 | `:.0f` of a tenths score is the nearest whole percent, ties to even, exact on whole values |
| Report.FormatLevelBar | skills/readiness-report/scripts/generate_report.py:22-34 | the bar is the five segments joined by " \| " (the program defines this helper but never calls it) |
| Report.LevelBarShape | skills/readiness-report/scripts/generate_report.py:22-34 | five segments; segment k starts with the filled block iff k ≤ achieved, else with the empty block |
| Report.SegmentStart | skills/readiness-report/scripts/generate_report.py:26-32 | a segment starts with exactly one of the two blocks, chosen by the achieved level |
| Report.StatusIcon | skills/readiness-report/scripts/generate_report.py:44-49 | ✓ iff "pass", ✗ iff "fail", — for any other status |
| Report.FormatCriterionRow | skills/readiness-report/scripts/generate_report.py:37-51 | a row is the status icon, the id in backquotes, the score and the reason, in that order (the program defines this helper but never calls it; the report builds its rows inline) |
| Report.PassingIdsMember | skills/readiness-report/scripts/generate_report.py:60 | an id is listed iff some passing criterion has it |
| Report.StrengthOf | skills/readiness-report/scripts/generate_report.py:58-61 | a strength keeps the pillar's name and percentage and its first passing ids: three of them, or all when fewer than three pass |
| Report.StrengthCandidatesStep | skills/readiness-report/scripts/generate_report.py:57-61 | each pillar adds its strength iff it counted some criterion |
| Report.TopStrengths | skills/readiness-report/scripts/generate_report.py:54-65 | the loop, sort and cut equal the stable descending sort of the candidates, cut to n |
| Report.StrengthCandidatesMember | skills/readiness-report/scripts/generate_report.py:57-61 | candidates are exactly the strengths of pillars with a counted criterion |
| Report.TopStrengthsFacts | skills/readiness-report/scripts/generate_report.py:64-65 | min(n, candidates) strengths are kept, highest first; none left out beats one kept; ties keep pillar order |
| Report.FailsOfStep | skills/readiness-report/scripts/generate_report.py:73-82 | each criterion adds an opportunity iff it failed |
| Report.OpportunitiesStep | skills/readiness-report/scripts/generate_report.py:73-82 | each pillar adds its failing criteria |
| Report.TopOpportunities | skills/readiness-report/scripts/generate_report.py:68-85 | the loop, sort and cut equal the stable sort of the failures by level, cut to n |
| Report.FailsOfMember | skills/readiness-report/scripts/generate_report.py:73-82 | an opportunity of a pillar is exactly one of its failing criteria |
| Report.OpportunitiesMember | skills/readiness-report/scripts/generate_report.py:73-82 | an opportunity is exactly a failing criterion of some pillar, labelled with that pillar |
| Report.FailsOfIds | skills/readiness-report/scripts/generate_report.py:73-82 | a pillar's opportunities are its failing criteria, in order |
| Report.OpportunitiesAreFailures | skills/readiness-report/scripts/generate_report.py:73-82 | before sorting, the opportunities are the report's failing criteria in order |
| Report.TopOpportunitiesFacts | skills/readiness-report/scripts/generate_report.py:84-85 | min(n, failures) are kept, lowest level first; none left out has a lower level than one kept; ties keep report order |
| Report.LevelTable | skills/readiness-report/scripts/generate_report.py:132-144 | five rows, level k at index k-1 |
| Report.LevelRowOf | skills/readiness-report/scripts/generate_report.py:132-144 | locked iff above level 1 with the predecessor below 80%, naming the predecessor; otherwise the level's own whole percent, "achieved" iff achieved > 0 and level ≤ achieved, else "passed" iff it reaches 80%, else the gap to 80% |
| Report.LockedIff | skills/readiness-report/scripts/generate_report.py:134-138 | a level is locked iff it is above 1 and its predecessor scores below 80% |
| Report.OnlyPredecessor | skills/readiness-report/scripts/generate_report.py:134-135 | only the predecessor's score decides the lock |
| Report.ToGoGap | skills/readiness-report/scripts/generate_report.py:143-144 | "to go" only below 80%, with the gap to 80% in whole percent |
| Report.AchievedHeader | skills/readiness-report/scripts/generate_report.py:107-110 | "Not yet L1" for no achieved level; otherwise "L" followed by the level's decimal digits |
| Report.LevelTableForAnalysis | skills/readiness-report/scripts/generate_report.py:132-144 | on the analyzer's scores, exactly levels 1..achieved show as achieved, the next level is unlocked, and only later levels can be locked |
| Report.HeaderDigit | skills/readiness-report/scripts/generate_report.py:107-110 | a named level's header has a digit after its "L" |
| Report.AchievedHeaderReadsBack | skills/readiness-report/scripts/generate_report.py:107-110 | different achieved levels get different headers; all levels ≤ 0 read "Not yet L1" |
| Report.Recommendation | skills/readiness-report/scripts/generate_report.py:229-246 | the foundations block below level 2, the production block at level 2, the optimisation block from level 3 |
| Report.RecommendationMonotone | skills/readiness-report/scripts/generate_report.py:229-246 | a higher achieved level never gets an earlier block; levels 1, 2 and 3 reach the three blocks |
| Report.DetailText | skills/readiness-report/scripts/generate_report.py:211-221 | the reason as is; for an app row with app results, the reason cut before " (failing:" followed by " *(failing: …)*" listing exactly the failing apps, or " *(all apps pass)*" when none fails |
| Report.DetailRow | skills/readiness-report/scripts/generate_report.py:219-221 | a row opens with the status icon and the id in backquotes, then the score cell, and closes with the details cell |
| Report.AllAppsPass | skills/readiness-report/scripts/generate_report.py:215-218 | "(all apps pass)" shows exactly when no app's verdict is false |
| Report.NoParenNoMarker | skills/readiness-report/scripts/generate_report.py:214 | text without "(" holds no failing marker |
| Report.AppDetailOfAnalyzer | skills/readiness-report/scripts/generate_report.py:211-219 | on the analyzer's own app result (reasons without "("), the cell shows its reason without the analyzer's failing list, then the failing apps rebuilt from the verdicts |
| Html.EscapeHtml | skills/readiness-report/scripts/html_report.py:20-27 | text without the four special characters comes back unchanged |
| Html.EscapeAppend | skills/readiness-report/scripts/html_report.py:20-27 | escaping distributes over concatenation |
| Html.EscapeOne | skills/readiness-report/scripts/html_report.py:22-27 | one character escapes to its own entity: the chained replacements do not interfere |
| Html.EscapeSafe | skills/readiness-report/scripts/html_report.py:20-27 | escaped text has no <, > or "; every & begins an entity; single quotes are kept |
| Html.UnescapeEscape | skills/readiness-report/scripts/html_report.py:20-27 | decoding the four entities gives the input back |
| Html.StatusHtml | skills/readiness-report/scripts/html_report.py:30-37 | three outcomes: pass, fail, and the skip span for any other status |
| Html.StatusAgrees | skills/readiness-report/scripts/html_report.py:30-37 | the HTML indicator makes the same three-way choice as the Markdown icon |
| Html.LevelClass | skills/readiness-report/scripts/html_report.py:80-81 | "achieved" iff achieved > 0 and level ≤ achieved; otherwise "passed" iff the score reaches 80%, else empty |
| Html.LevelBars | skills/readiness-report/scripts/html_report.py:76-90 | five bars, level k at index k-1 |
| Html.AchievedStat | skills/readiness-report/scripts/html_report.py:411 | "L—" when no level is achieved; otherwise the same text as the Markdown header |
| Html.BarsAgreeWithTable | skills/readiness-report/scripts/html_report.py:76-90 | on the analyzer's scores, a bar is "achieved" exactly when its table row is |
| Html.AchievedStatFacts | skills/readiness-report/scripts/html_report.py:411 | "L—" exactly when no level is achieved; otherwise the Markdown header's level |
| Html.CriteriaSections | skills/readiness-report/scripts/html_report.py:118-147 | one section per pillar, in order |
| Html.SectionRowsInOrder | skills/readiness-report/scripts/html_report.py:120-135 | the sections' rows, read in turn, are the report's criteria |
| Html.EveryCriterionOnce | skills/readiness-report/scripts/html_report.py:120-135 | every criterion appears once, in order, with its id and reason escaped and decodable |
| Diagrams.ShortName | skills/readiness-report/scripts/diagrams.py:18-33 | a label is at most 8 characters: the table's name for a known pillar; any other name kept whole when it has 8 characters or fewer, else cut to its first 8 |
| Diagrams.ShortNamesDistinct | skills/readiness-report/scripts/diagrams.py:18-28 | the nine pillars get nine different labels |
| Diagrams.PillarBarChart | skills/readiness-report/scripts/diagrams.py:36-62 | one quoted label and one value per pillar, in pillar order |
| Diagrams.BarsReadBack | skills/readiness-report/scripts/diagrams.py:49-51 | a label quotes the short name; equal values mean equal percentages |
| Diagrams.LevelProgress | skills/readiness-report/scripts/diagrams.py:65-95 | five labels and values, and a threshold line of five 80s |
| Diagrams.MarkedIff | skills/readiness-report/scripts/diagrams.py:81-82 | the marker is on level k iff k ≤ achieved |
| Diagrams.LevelProgressForAnalysis | skills/readiness-report/scripts/diagrams.py:79-83 | on the analyzer's scores, marked levels are 1..achieved and each scores at least 80% |
| Diagrams.DistributionPie | skills/readiness-report/scripts/diagrams.py:98-116 | three slices labelled Pass, Fail and Skip carrying the passed, failed and skipped counts |
| Diagrams.SliceLabelReadsBack | skills/readiness-report/scripts/diagrams.py:113-115 | a slice's label shows its own value and no other |
| Diagrams.NodeIdOrder | skills/readiness-report/scripts/diagrams.py:143 | later steps get later node letters, none of them the start node's "A" |
| Diagrams.ShortReason | skills/readiness-report/scripts/diagrams.py:142 | a reason of at most 30 characters is kept; a longer one becomes its first 30 characters followed by "..." |
| Diagrams.StepsOf | skills/readiness-report/scripts/diagrams.py:139-143 | at most four steps, step i from opportunity i |
| Diagrams.BuildSteps | skills/readiness-report/scripts/diagrams.py:139-143 | the loop builds those steps |
| Diagrams.ChainSteps | skills/readiness-report/scripts/diagrams.py:149-153 | the loop emits a node and an edge per step and ends at the last step's node |
| Diagrams.Roadmap | skills/readiness-report/scripts/diagrams.py:119-164 | the roadmap's lines |
| Diagrams.StepLinesAt | skills/readiness-report/scripts/diagrams.py:150-153 | step j adds its node and the edge into it from the previous node |
| Diagrams.RoadmapFrame | skills/readiness-report/scripts/diagrams.py:146-162 | start node, goal node and styles surround the steps |
| Diagrams.RoadmapStep | skills/readiness-report/scripts/diagrams.py:150-153 | step j's node holds its criterion id and is entered from the node before |
| Diagrams.RoadmapShape | skills/readiness-report/scripts/diagrams.py:135-164 | 8 + 2·steps lines, at most four steps; start shows "Pre-L1" at level ≤ 0; the goal node comes after the last step and is entered from it |
| Diagrams.RoadmapIgnoresReasons | skills/readiness-report/scripts/diagrams.py:140-153 | the roadmap depends on the opportunities only through their first four ids |
| Diagrams.StatusCounts | skills/readiness-report/scripts/diagrams.py:182-190 | the three counts sum to at most the criteria, and to all of them when every status is known |
| Diagrams.TargetLevel | skills/readiness-report/scripts/diagrams.py:213 | the next level up to 5, so within 1..5 for any achieved level ≥ 0 |
| Diagrams.SummaryOpportunities | skills/readiness-report/scripts/diagrams.py:193-211 | the failures pillar by pillar, stably sorted by the first level carrying their id |
| Diagrams.VisualSummary | skills/readiness-report/scripts/diagrams.py:167-243 | bars from the pillars; the progress chart shows each level's score with a threshold line of five 80s; the pie holds the passed, failed and skipped counts; a roadmap iff there is an opportunity, from the achieved level to the target |
| Diagrams.RoadmapIffFailure | skills/readiness-report/scripts/diagrams.py:233-241 | the roadmap appears exactly when some criterion failed |
| Diagrams.PieCountsAll | skills/readiness-report/scripts/diagrams.py:182-190 | on an analysis the pie's slices add up to the number of criteria |
| Diagrams.TargetIsFirstUnreached | skills/readiness-report/scripts/diagrams.py:213 | below level 5 the target is the first level not reached |
| Diagrams.FirstLevelDistinct | skills/readiness-report/scripts/diagrams.py:202-210 | with distinct ids, an id's first level is its own criterion's level |
| Diagrams.SummaryOrderAgrees | skills/readiness-report/scripts/diagrams.py:193-211 | with distinct ids, the summary's order is the report's order by level, and its first four are the report's top four |
| Sonar.RStrip | scripts/analyze_sonarqube.py:18 | a prefix of the input ending in no slash; only slashes are removed |
| Sonar.NewAnalyzer | scripts/analyze_sonarqube.py:17-21 | the URL loses its trailing slashes; key and token are kept; the header carries the bearer token |
| Sonar.SearchUrlOneSlash | scripts/analyze_sonarqube.py:18-52 | however many slashes the URL ended with, one separates it from the search path |
| Sonar.ParamsFor | scripts/analyze_sonarqube.py:36-48 | pullRequest iff one is given; branch only without one, and only for a branch other than main or master; never both |
| Sonar.StatusesOr | scripts/analyze_sonarqube.py:26-27 | the given statuses, else the three open ones |
| Sonar.SeveritiesOr | scripts/analyze_sonarqube.py:28-29 | the given severities, else all five |
| Sonar.DefaultQuery | scripts/analyze_sonarqube.py:26-39 | with no filters, the query asks for the three open statuses and the five severities, comma-joined |
| Sonar.GetIssues | scripts/analyze_sonarqube.py:23-71 | pages 1, 2, ... requested with the same filters, stopping at the first page the rule holds for; returns the issues of the pages fetched, in order |
| Sonar.StopsAt | scripts/analyze_sonarqube.py:61-62 | the loop always stops past the last page; it goes on only after an answered, non-empty page whose running count is below its total |
| Sonar.StopsBeyond | scripts/analyze_sonarqube.py:35-69 | the loop always ends by page \|pages\| + 1 |
| Sonar.FetchedPrefix | scripts/analyze_sonarqube.py:59 | stopping earlier returns a prefix of a later stop |
| Sonar.StopsWhenComplete | scripts/analyze_sonarqube.py:61-63 | an answered, non-empty page whose running count reaches its reported total ends the loop |
| Sonar.BucketSnoc | scripts/analyze_sonarqube.py:83-95 | one more issue joins its own bucket only |
| Sonar.CategorizeStep | scripts/analyze_sonarqube.py:83-95 | one loop step keeps the buckets equal to those of the issues seen |
| Sonar.Categorize | scripts/analyze_sonarqube.py:73-97 | exactly the five buckets, each holding its severity's issues in input order |
| Sonar.GenerateReport | scripts/analyze_sonarqube.py:99-113 | the total is the number of issues and each count is its bucket's size |
| Sonar.BucketsPartition | scripts/analyze_sonarqube.py:83-95 | the buckets hold the known-severity issues once each, so their sizes add to at most the total |
| Sonar.DefaultSeverity | scripts/analyze_sonarqube.py:84 | a missing severity counts as INFO, and case does not matter |
| Sonar.FindProjectRoot | scripts/analyze_sonarqube.py:138-153 | the deepest ancestor holding the file; "/" is looked at only when it is the working directory; None iff no directory looked at holds it |
| Sonar.AfterFirst | scripts/analyze_sonarqube.py:170 | the text after the first occurrence of the separator |
| Sonar.ParseProjectKey | scripts/analyze_sonarqube.py:167-171 | the loop returns the key of the first key line |
| Sonar.KeyValue | scripts/analyze_sonarqube.py:169-170 | on a key line the split keeps exactly what follows the prefix |
| Sonar.KeyOfNone | scripts/analyze_sonarqube.py:167-171 | no key iff no line starts with the prefix |
| Sonar.KeyOfFirst | scripts/analyze_sonarqube.py:167-171 | the first key line decides the key, stripped; later ones are ignored |
| Seqs.StableSortFacts | skills/readiness-report/scripts/generate_report.py:64-84 | the sort that models `list.sort` orders by key, permutes its input and keeps equal keys in input order |
| Seqs.SortMap | skills/readiness-report/scripts/diagrams.py:201-211 | sorting and then mapping equals mapping and then sorting when the map carries the key over |
| Seqs.SortNamesFacts | skills/readiness-report/scripts/analyze_repo.py:257 | the sorted listing is in lexicographic order, with nothing lost or added |
| Text.Strip | scripts/analyze_sonarqube.py:170 | the result has no white space at either end and sits in the input with only white space before and after it |
| Text.CutAtJoined | skills/readiness-report/scripts/generate_report.py:214 | cutting a + sep + rest at sep gives a back when a lacks sep's second character |

## Left out

- I/O is not modelled. Reading files, globbing, directory listings and `Path.exists` become the `FileTree` oracle.
- Pattern matching, `re`, and the per-criterion check bodies of the nine evaluators are not modelled. Each criterion's verdict is a parameter (`Evidence`); only each evaluator's order of (id, level, scope) is modelled.
- Subprocess calls are left out: `_run_command`, the `git`/`gh` calls and `get_git_info`. They only feed check bodies and the PR number.
- HTTP, JSON and the clock are left out. The service is a finite sequence of responses. The report's timestamp is a parameter, and the order of JSON object keys is not modelled.
- `main` and the command-line handling of all four scripts are left out. This includes the HTML path of `generate_report.py:299`, which passes a keyword argument that `html_report.py:65` does not accept, so it fails at run time.
- Report text is left out: the Markdown, HTML, CSS and Mermaid boilerplate, the logo and the styles. The model keeps the choices the text depends on: icons, classes, labels, values, lines and lock states.
- Floating point is replaced by exact rationals. Scores are rounded to tenths with ties to even.
  - This agrees with Python's float `round(…, 1)` for totals below 80. From 80 on it can differ: 23, 49 and 51 of 80 give 28.7, 61.3 and 63.7 in Python and 28.8, 61.2 and 63.8 here.
  - The 80% gate agrees with the float test for totals below 400 (Scoring.RoundTenthsGate).
- Scoring.Percentage: `int(passed / total * 100)` is floor(100·passed/total). This agrees with the float expression for every total up to 19, the largest pillar.
- `APP_SCOPED_CRITERIA` (`analyze_repo.py:82-88`) is never consulted by the program. The model follows the hard-coded app scoping of the evaluators instead (Catalog.AppScopedCriteria).
- The file cache's `exists:` key prefix is dropped. The cache is keyed by pattern, which is the same map.
- The analyzer's `repo_path` is left out. It is the absolute path of the analysed directory, and is only an oracle input.
- `AppInfo.path` is the app's relative path. It is never compared.
- `pillars` is a sequence of records, not a dict keyed by name. The nine names are distinct, so the two hold the same items in the same order.
- `level_scores` has integer keys. Both renderers look a level up by its string key first, and the analyzer's JSON holds string keys. `ReportData.ScoreAt` treats the two lookups as one.
- Languages are an enumeration. Each prints under the name the analyzer uses.
- `lower()` is ASCII lower-casing. The program's keyword searches only compare with ASCII words.
- Sonar.Categorize: a null `severity` field, which `.lower()` rejects at run time, is not modelled. An absent severity is (Sonar.DefaultSeverity).
- Sonar.GetIssues: a response body without an `issues` list counts as an empty page. A request past the last given page counts as a request error, which bounds the loop.
- Sonar.GetIssues: a JSON `null` total is read as a missing total (0), which stops the loop. The source compares against `None`, raises `TypeError` and does not catch it (it catches only `RequestException`).
- Sonar.FindProjectRoot: paths are POSIX paths under "/". On a root other than "/", such as a Windows drive, `dirname` returns the root itself and the source's loop never ends; the model has no such root.
- Text.Strip: white space is the ASCII set. Python's `strip()` also removes non-ASCII white space such as \x85, \xa0, \u2000 to \u200a and \u3000.
- Sonar.ParseProjectKey: the key comes back even when it strips to "". The caller's following check treats "" as no key, and that check is part of `main`.
- `roadmap_flowchart_mermaid` truncates reasons that are never shown. The model keeps the truncation (Diagrams.ShortReason) and proves that it has no effect on the output (Diagrams.RoadmapIgnoresReasons).
