/**
 * The SonarQube issue fetcher (scripts/analyze_sonarqube.py): request
 * parameters and the pagination stop rule of `get_issues`, severity
 * bucketing and the summary report, the upward search for
 * `sonar-project.properties`, and the project-key line.
 *
 * The HTTP service is a finite list of responses, one per page request in
 * order; a request beyond the list fails like a request error. The file
 * system is the set of directories that hold the properties file; a
 * directory is the list of its path components, "/" being the empty list.
 */
module Sonar {
  import opened Wrappers
  import opened Seqs
  import opened Text

  // ---------------------------------------------------------------------
  // The analyzer and its request parameters
  // ---------------------------------------------------------------------

  datatype Analyzer = Analyzer(baseUrl: string, token: string, projectKey: string, authorization: string)

  /** `rstrip(c)`: drops every trailing c. */
  function RStrip(s: string, c: char): (r: string)
    ensures |r| <= |s| && r == s[..|r|]
    ensures |r| > 0 ==> r[|r| - 1] != c
    ensures forall i :: |r| <= i < |s| ==> s[i] == c
    decreases |s|
  {
    if |s| > 0 && s[|s| - 1] == c then RStrip(s[..|s| - 1], c) else s
  }

  /** `SonarQubeAnalyzer.__init__` */
  function NewAnalyzer(baseUrl: string, token: string, projectKey: string): (a: Analyzer)
    ensures a.baseUrl == RStrip(baseUrl, '/') && a.token == token && a.projectKey == projectKey
    ensures a.authorization == "Bearer " + token
  {
    Analyzer(RStrip(baseUrl, '/'), token, projectKey, "Bearer " + token)
  }

  const SearchPath: string := "/api/issues/search"

  function SearchUrl(a: Analyzer): string
  {
    a.baseUrl + SearchPath
  }

  /**
   * Whatever trailing slashes the configured URL carried, the search URL
   * is the URL without them followed by exactly one "/api/issues/search".
   */
  lemma SearchUrlOneSlash(baseUrl: string, token: string, projectKey: string)
    ensures var u := SearchUrl(NewAnalyzer(baseUrl, token, projectKey));
      var b := RStrip(baseUrl, '/');
      u == b + SearchPath && (|b| == 0 || u[|b| - 1] != '/') && u[|b|] == '/'
  {
  }

  /** The parameters of one `/api/issues/search` request. */
  datatype Params = Params(
    componentKeys: string,
    statuses: string,
    severities: string,
    p: nat,
    ps: nat,
    pullRequest: Option<string>,
    branch: Option<string>)

  const PageSize: nat := 500
  const DefaultStatuses: seq<string> := ["OPEN", "CONFIRMED", "REOPENED"]
  const DefaultSeverities: seq<string> := ["BLOCKER", "CRITICAL", "MAJOR", "MINOR", "INFO"]

  /** Python truthiness of an optional string. */
  predicate Given(s: Option<string>)
  {
    s.Some? && |s.value| > 0
  }

  /** The parameters of the request for `page`. */
  function ParamsFor(a: Analyzer, statuses: seq<string>, severities: seq<string>, page: nat,
                     pullRequest: Option<string>, branch: Option<string>): (r: Params)
    ensures r.p == page && r.ps == PageSize && r.componentKeys == a.projectKey
    ensures r.statuses == Join(statuses, ",") && r.severities == Join(severities, ",")
    ensures r.pullRequest.Some? <==> Given(pullRequest)
    ensures r.pullRequest.Some? ==> r.pullRequest == pullRequest
    ensures r.branch.Some? <==> !Given(pullRequest) && Given(branch) && branch.value != "main" && branch.value != "master"
    ensures r.branch.Some? ==> r.branch == branch
    ensures !(r.pullRequest.Some? && r.branch.Some?)
  {
    var base := Params(a.projectKey, Join(statuses, ","), Join(severities, ","), page, PageSize, None, None);
    if Given(pullRequest) then base.(pullRequest := pullRequest)
    else if Given(branch) && branch.value != "main" && branch.value != "master" then base.(branch := branch)
    else base
  }

  /** The two optional filters fall back to the three open statuses and all five severities. */
  function StatusesOr(statuses: Option<seq<string>>): (r: seq<string>)
    ensures statuses.None? ==> r == DefaultStatuses
    ensures statuses.Some? ==> r == statuses.value
  {
    statuses.GetOr(DefaultStatuses)
  }

  function SeveritiesOr(severities: Option<seq<string>>): (r: seq<string>)
    ensures severities.None? ==> r == DefaultSeverities
    ensures severities.Some? ==> r == severities.value
  {
    severities.GetOr(DefaultSeverities)
  }

  /** With no filters given, the query asks for every open issue of every severity. */
  lemma DefaultQuery(a: Analyzer, page: nat, pullRequest: Option<string>, branch: Option<string>)
    ensures var r := ParamsFor(a, StatusesOr(None), SeveritiesOr(None), page, pullRequest, branch);
      r.statuses == "OPEN,CONFIRMED,REOPENED" && r.severities == "BLOCKER,CRITICAL,MAJOR,MINOR,INFO"
  {
    DefaultStatusesJoined();
    DefaultSeveritiesJoined();
  }

  lemma DefaultStatusesJoined()
    ensures Join(DefaultStatuses, ",") == "OPEN,CONFIRMED,REOPENED"
  {
    var two := ["OPEN", "CONFIRMED"];
    JoinSnoc(["OPEN"], "CONFIRMED", ",");
    assert ["OPEN"] + ["CONFIRMED"] == two;
    JoinSnoc(two, "REOPENED", ",");
    assert two + ["REOPENED"] == DefaultStatuses;
  }

  lemma DefaultSeveritiesJoined()
    ensures Join(DefaultSeverities, ",") == "BLOCKER,CRITICAL,MAJOR,MINOR,INFO"
  {
    var four := ["BLOCKER", "CRITICAL", "MAJOR", "MINOR"];
    Severities4Joined();
    JoinSnoc(four, "INFO", ",");
    assert four + ["INFO"] == DefaultSeverities;
  }

  lemma Severities4Joined()
    ensures Join(["BLOCKER", "CRITICAL", "MAJOR", "MINOR"], ",") == "BLOCKER,CRITICAL,MAJOR,MINOR"
  {
    var two := ["BLOCKER", "CRITICAL"];
    var three := ["BLOCKER", "CRITICAL", "MAJOR"];
    JoinSnoc(["BLOCKER"], "CRITICAL", ",");
    assert ["BLOCKER"] + ["CRITICAL"] == two;
    JoinSnoc(two, "MAJOR", ",");
    assert two + ["MAJOR"] == three;
    JoinSnoc(three, "MINOR", ",");
    assert three + ["MINOR"] == ["BLOCKER", "CRITICAL", "MAJOR", "MINOR"];
  }

  lemma JoinSnoc(parts: seq<string>, x: string, sep: string)
    requires |parts| > 0
    ensures Join(parts + [x], sep) == Join(parts, sep) + sep + x
  {
    assert (parts + [x])[..|parts|] == parts;
  }

  // ---------------------------------------------------------------------
  // Pagination
  // ---------------------------------------------------------------------

  /** An issue as the service returns it; any field may be missing. */
  datatype Issue = Issue(
    key: Option<string>,
    kind: Option<string>,
    rule: Option<string>,
    message: Option<string>,
    component: Option<string>,
    line: Option<int>,
    effort: Option<string>,
    debt: Option<string>,
    severity: Option<string>)

  /** The answer to one page request: a request error, or the page's issues and the reported total. */
  datatype Response = Failed | Page(issues: seq<Issue>, total: Option<int>)

  /** The response to the request for page `page` (from 1). */
  function ResponseAt(pages: seq<Response>, page: nat): Response
  {
    if 1 <= page <= |pages| then pages[page - 1] else Failed
  }

  function IssuesOf(r: Response): seq<Issue>
  {
    if r.Page? then r.issues else []
  }

  /** The issues of the first k responses, in order. */
  function Fetched(pages: seq<Response>, k: nat): seq<Issue>
    decreases k
  {
    if k == 0 then [] else Fetched(pages, k - 1) + IssuesOf(ResponseAt(pages, k))
  }

  /**
   * The loop stops after requesting page k: the request failed, or the
   * issues gathered reach the page's total (0 when it is missing), or the
   * page is empty.
   */
  predicate StopsAt(pages: seq<Response>, k: nat)
    // past the last page the request fails, so the loop always stops there
    ensures !(1 <= k <= |pages|) ==> StopsAt(pages, k)
    // it goes on only after a non-empty page whose total is not reached yet
    ensures !StopsAt(pages, k) ==>
      pages[k - 1].Page? && |pages[k - 1].issues| > 0 && |Fetched(pages, k)| < pages[k - 1].total.GetOr(0)
  {
    var r := ResponseAt(pages, k);
    r.Failed? || |Fetched(pages, k)| >= r.total.GetOr(0) || |r.issues| == 0
  }

  /**
   * `get_issues`: requests pages 1, 2, ... with the same filters and stops
   * at the first page the stop rule holds for; returns every issue
   * gathered until then (a failed request adds none).
   */
  method GetIssues(a: Analyzer, statuses: Option<seq<string>>, severities: Option<seq<string>>,
                   pullRequest: Option<string>, branch: Option<string>, pages: seq<Response>)
    returns (issues: seq<Issue>, requests: seq<Params>)
    ensures 1 <= |requests| <= |pages| + 1
    ensures forall j :: 0 <= j < |requests| ==>
      requests[j] == ParamsFor(a, StatusesOr(statuses), SeveritiesOr(severities), j + 1, pullRequest, branch)
    ensures StopsAt(pages, |requests|)
    ensures forall k :: 1 <= k < |requests| ==> !StopsAt(pages, k)
    ensures issues == Fetched(pages, |requests|)
  {
    var sts := StatusesOr(statuses);
    var sevs := SeveritiesOr(severities);
    issues := [];
    requests := [];
    var page := 1;
    while true
      invariant 1 <= page <= |pages| + 1
      invariant |requests| == page - 1
      invariant forall j :: 0 <= j < |requests| ==> requests[j] == ParamsFor(a, sts, sevs, j + 1, pullRequest, branch)
      invariant forall k :: 1 <= k < page ==> !StopsAt(pages, k)
      invariant issues == Fetched(pages, page - 1)
      decreases |pages| + 1 - page
    {
      var params := ParamsFor(a, sts, sevs, page, pullRequest, branch);
      requests := requests + [params];
      var data := ResponseAt(pages, page);
      if data.Failed? {
        break;
      }
      issues := issues + data.issues;
      var total := data.total.GetOr(0);
      if |issues| >= total || |data.issues| == 0 {
        break;
      }
      page := page + 1;
    }
  }

  /** A response past the page source is a failure, so the loop always ends by page |pages| + 1. */
  lemma StopsBeyond(pages: seq<Response>)
    ensures StopsAt(pages, |pages| + 1)
  {
  }

  /** Stopping early returns a prefix of what a later stop would have returned. */
  lemma {:induction false} FetchedPrefix(pages: seq<Response>, k: nat, m: nat)
    requires k <= m
    ensures |Fetched(pages, k)| <= |Fetched(pages, m)|
    ensures Fetched(pages, k) == Fetched(pages, m)[..|Fetched(pages, k)|]
    decreases m
  {
    if k < m {
      FetchedPrefix(pages, k, m - 1);
    }
  }

  /**
   * An answered, non-empty page whose running count reaches the total it
   * reports ends the loop.
   */
  lemma StopsWhenComplete(pages: seq<Response>, k: nat)
    requires 1 <= k <= |pages|
    requires pages[k - 1].Page? && |pages[k - 1].issues| > 0
    requires pages[k - 1].total.Some? && |Fetched(pages, k)| >= pages[k - 1].total.value
    ensures StopsAt(pages, k)
  {
  }

  // ---------------------------------------------------------------------
  // categorize_issues and generate_report
  // ---------------------------------------------------------------------

  /** The report's copy of an issue: its eight fields, without the severity. */
  datatype IssueEntry = IssueEntry(
    key: Option<string>,
    kind: Option<string>,
    rule: Option<string>,
    message: Option<string>,
    component: Option<string>,
    line: Option<int>,
    effort: Option<string>,
    debt: Option<string>)

  function EntryOf(i: Issue): IssueEntry
  {
    IssueEntry(i.key, i.kind, i.rule, i.message, i.component, i.line, i.effort, i.debt)
  }

  /** The five buckets, in the report's order. */
  const Severities: seq<string> := ["blocker", "critical", "major", "minor", "info"]

  predicate IsBucket(b: string)
  {
    b == "blocker" || b == "critical" || b == "major" || b == "minor" || b == "info"
  }

  /** `issue.get('severity', 'INFO').lower()` */
  function SeverityOf(i: Issue): string
  {
    Lower(i.severity.GetOr("INFO"))
  }

  function InBucket(b: string): Issue -> bool
  {
    (i: Issue) => SeverityOf(i) == b
  }

  function KnownSeverity(i: Issue): bool
  {
    IsBucket(SeverityOf(i))
  }

  /** The bucket b of a list of issues: the issues of severity b, in order, as report entries. */
  function Bucket(issues: seq<Issue>, b: string): seq<IssueEntry>
  {
    Map(Filter(issues, InBucket(b)), EntryOf)
  }

  lemma BucketSnoc(issues: seq<Issue>, i: nat, b: string)
    requires i < |issues|
    ensures Bucket(issues[..i + 1], b) ==
      Bucket(issues[..i], b) + (if SeverityOf(issues[i]) == b then [EntryOf(issues[i])] else [])
  {
    PrefixSnoc(issues, i);
    FilterSnoc(issues[..i], issues[i], InBucket(b));
    MapAppend(Filter(issues[..i], InBucket(b)), if SeverityOf(issues[i]) == b then [issues[i]] else [], EntryOf);
  }

  /** The buckets hold, for each of the five severities, the bucket of the issues. */
  ghost predicate Categorized(c: map<string, seq<IssueEntry>>, issues: seq<Issue>)
  {
    (forall b :: b in c <==> IsBucket(b)) &&
    (forall b :: IsBucket(b) ==> c[b] == Bucket(issues, b))
  }

  /** One pass of the loop: the issue goes to the end of its bucket, if it has one. */
  function AddIssue(c: map<string, seq<IssueEntry>>, x: Issue): map<string, seq<IssueEntry>>
  {
    var severity := SeverityOf(x);
    if severity in c then c[severity := c[severity] + [EntryOf(x)]] else c
  }

  lemma CategorizeStep(c: map<string, seq<IssueEntry>>, issues: seq<Issue>, i: nat)
    requires i < |issues| && Categorized(c, issues[..i])
    ensures Categorized(AddIssue(c, issues[i]), issues[..i + 1])
  {
    forall b | IsBucket(b) ensures AddIssue(c, issues[i])[b] == Bucket(issues[..i + 1], b) {
      BucketSnoc(issues, i, b);
    }
  }

  /** `categorize_issues`: exactly the five buckets, each holding its issues in input order. */
  method Categorize(issues: seq<Issue>) returns (categorized: map<string, seq<IssueEntry>>)
    ensures forall b :: b in categorized <==> IsBucket(b)
    ensures forall b :: IsBucket(b) ==> categorized[b] == Bucket(issues, b)
  {
    categorized := map["blocker" := [], "critical" := [], "major" := [], "minor" := [], "info" := []];
    for i := 0 to |issues|
      invariant Categorized(categorized, issues[..i])
    {
      var issue := issues[i];
      CategorizeStep(categorized, issues, i);
      var severity := Lower(issue.severity.GetOr("INFO"));
      if severity in categorized {
        categorized := categorized[severity := categorized[severity] + [EntryOf(issue)]];
      }
    }
    assert issues[..|issues|] == issues;
  }

  /** The summary `generate_report` builds; the timestamp is a parameter. */
  datatype SonarReport = SonarReport(
    timestamp: string,
    project: string,
    totalIssues: nat,
    bySeverity: map<string, nat>,
    issues: map<string, seq<IssueEntry>>)

  /** `generate_report` */
  method GenerateReport(a: Analyzer, issues: seq<Issue>, timestamp: string) returns (r: SonarReport)
    ensures r.timestamp == timestamp && r.project == a.projectKey
    ensures r.totalIssues == |issues|
    ensures forall b :: b in r.issues <==> IsBucket(b)
    ensures forall b :: b in r.bySeverity <==> IsBucket(b)
    ensures forall b :: IsBucket(b) ==> r.issues[b] == Bucket(issues, b) && r.bySeverity[b] == |Bucket(issues, b)|
  {
    var categorized := Categorize(issues);
    var counts := map b | b in categorized :: |categorized[b]|;
    r := SonarReport(timestamp, a.projectKey, |issues|, counts, categorized);
  }

  /** The sum of the five bucket sizes. */
  function BucketTotal(issues: seq<Issue>): nat
  {
    |Bucket(issues, "blocker")| + |Bucket(issues, "critical")| + |Bucket(issues, "major")| +
    |Bucket(issues, "minor")| + |Bucket(issues, "info")|
  }

  /**
   * Every issue of a known severity lands in exactly one bucket and the
   * others in none: the buckets together hold the known issues, so
   * `total_issues` is at least the sum of `by_severity`, with equality
   * exactly when no severity is unknown.
   */
  lemma {:induction false} BucketsPartition(issues: seq<Issue>)
    ensures BucketTotal(issues) == Count(issues, KnownSeverity)
    ensures BucketTotal(issues) <= |issues|
    decreases |issues|
  {
    if |issues| > 0 {
      var k := |issues| - 1;
      var init := issues[..k];
      var x := issues[k];
      BucketsPartition(init);
      BucketTotalSnoc(issues, k);
      assert issues[..k + 1] == issues == init + [x];
      FilterSnoc(init, x, KnownSeverity);
      assert Count(issues, KnownSeverity) == Count(init, KnownSeverity) + (if KnownSeverity(x) then 1 else 0);
    }
  }

  lemma BucketTotalSnoc(issues: seq<Issue>, k: nat)
    requires k < |issues|
    ensures BucketTotal(issues[..k + 1]) == BucketTotal(issues[..k]) + (if KnownSeverity(issues[k]) then 1 else 0)
  {
    BucketSnoc(issues, k, "blocker");
    BucketSnoc(issues, k, "critical");
    BucketSnoc(issues, k, "major");
    BucketSnoc(issues, k, "minor");
    BucketSnoc(issues, k, "info");
  }

  /** An issue without a severity counts as INFO; a severity's case does not matter. */
  lemma DefaultSeverity(i: Issue)
    ensures i.severity.None? ==> SeverityOf(i) == "info"
    ensures i.severity == Some("MAJOR") ==> SeverityOf(i) == "major"
  {
    assert Lower("INFO") == "info";
    assert Lower("MAJOR") == "major";
  }

  // ---------------------------------------------------------------------
  // find_project_root
  // ---------------------------------------------------------------------

  /**
   * `find_project_root`: tests cwd and then each parent, stopping before
   * "/"; then tests the working directory once more, which can only
   * succeed when the working directory is "/" itself.
   */
  method FindProjectRoot(cwd: seq<string>, hasFile: set<seq<string>>) returns (root: Option<seq<string>>)
    ensures root.Some? ==> root.value in hasFile && |root.value| <= |cwd| && root.value == cwd[..|root.value|]
    ensures root.Some? ==> forall k :: |root.value| < k <= |cwd| ==> cwd[..k] !in hasFile
    ensures root.Some? && |cwd| > 0 ==> |root.value| > 0
    ensures root.None? <==>
      (forall k :: 1 <= k <= |cwd| ==> cwd[..k] !in hasFile) && !(|cwd| == 0 && [] in hasFile)
  {
    var current := cwd;
    while current != []
      invariant |current| <= |cwd| && current == cwd[..|current|]
      invariant forall k :: |current| < k <= |cwd| ==> cwd[..k] !in hasFile
    {
      if current in hasFile {
        return Some(current);
      }
      current := current[..|current| - 1];
    }
    if cwd in hasFile {
      return Some(cwd);
    }
    return None;
  }

  // ---------------------------------------------------------------------
  // The project key line
  // ---------------------------------------------------------------------

  const KeyPrefix: string := "sonar.projectKey="

  /** `s.split(c, 1)[1]`: the text after the first c. */
  function AfterFirst(s: string, c: char): (r: string)
    requires c in s
    ensures |r| < |s| && r == s[|s| - |r|..]
    ensures s[|s| - |r| - 1] == c && c !in s[..|s| - |r| - 1]
    decreases |s|
  {
    if s[0] == c then s[1..] else AfterFirst(s[1..], c)
  }

  /** The key of the first line that starts with `sonar.projectKey=`, if any. */
  function KeyOf(lines: seq<string>): Option<string>
    decreases |lines|
  {
    if |lines| == 0 then None
    else if StartsWith(lines[0], KeyPrefix) then Some(Strip(lines[0][|KeyPrefix|..]))
    else KeyOf(lines[1..])
  }

  /** The loop over the properties file in `main`. */
  method ParseProjectKey(lines: seq<string>) returns (key: Option<string>)
    ensures key == KeyOf(lines)
  {
    key := None;
    var i := 0;
    while i < |lines|
      invariant 0 <= i <= |lines|
      invariant KeyOf(lines) == KeyOf(lines[i..])
    {
      assert lines[i..][1..] == lines[i + 1..];
      if StartsWith(lines[i], KeyPrefix) {
        KeyValue(lines[i]);
        key := Some(Strip(AfterFirst(lines[i], '=')));
        return;
      }
      i := i + 1;
    }
  }

  /** On a key line the first '=' ends the prefix, so the split keeps everything after the prefix. */
  lemma KeyValue(line: string)
    requires StartsWith(line, KeyPrefix)
    ensures '=' in line && AfterFirst(line, '=') == line[|KeyPrefix|..]
  {
    assert line[16] == '=';
    assert '=' !in line[..16] by {
      assert line[..16] == KeyPrefix[..16];
    }
    var r := AfterFirst(line, '=');
    var at := |line| - |r| - 1;
    assert forall j :: 0 <= j < 16 ==> line[..16][j] == line[j];
    assert forall j :: 0 <= j < at ==> line[..at][j] == line[j];
  }

  /** No key exactly when no line starts with the prefix. */
  lemma {:induction false} KeyOfNone(lines: seq<string>)
    ensures KeyOf(lines).None? <==> forall i :: 0 <= i < |lines| ==> !StartsWith(lines[i], KeyPrefix)
    decreases |lines|
  {
    if |lines| > 0 && !StartsWith(lines[0], KeyPrefix) {
      var rest := lines[1..];
      KeyOfNone(rest);
      assert forall i :: 0 <= i < |rest| ==> rest[i] == lines[i + 1];
      assert forall i :: 0 < i < |lines| ==> lines[i] == rest[i - 1];
    }
  }

  /** The first line with the prefix decides the key: later key lines are ignored. */
  lemma {:induction false} KeyOfFirst(lines: seq<string>, i: nat)
    requires i < |lines| && StartsWith(lines[i], KeyPrefix)
    requires forall j :: 0 <= j < i ==> !StartsWith(lines[j], KeyPrefix)
    ensures KeyOf(lines) == Some(Strip(lines[i][|KeyPrefix|..]))
    decreases i
  {
    if i > 0 {
      var rest := lines[1..];
      assert rest[i - 1] == lines[i];
      assert forall j :: 0 <= j < i - 1 ==> rest[j] == lines[j + 1];
      KeyOfFirst(rest, i - 1);
    }
  }
}
