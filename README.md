# ZeroGap web vulnerability scanner — Dafny model

ZeroGap is a small web vulnerability scanner. This project models its core:

- **The session of `VulnerabilityScannerV2`** (backend/scanner_vulnerabilites_v2.py):
  - a depth-bounded crawl of the target: the first 8 `href` captures of each page, same-origin links only, and the form actions of each page;
  - the task list of the probe phase, every surface crossed with the four classes SQL injection, XSS, directory traversal and command injection;
  - the per-task probes and the security-header check;
  - the aggregation of the results of the parallel phase;
  - the port sweep, the security score and its colour class, the severity counts of the HTML report, and the input parsing of `main`.
- **The advanced-analysis helpers of innovations_module.py**: the labelled port sweep, the TLS dictionary, their own score variant (with the Apache-version rule), and the ports and expiry lines of their executive summary.
- **The explainer** (backend/vuln_explainer.py):
  - `normalize`;
  - `format_response` with its `or` chains;
  - the three-pass lookup of `explain_vulnerability`: keyword map, then titles, then keys, then a fallback.
- **The scan registry of the API** (backend/api_flask.py): the `active_scans` map and the routes that insert, read, delete and clear entries. It also covers the status and progress writes of a scan thread, the severity tally, and the running-scan count of `get_stats`.
- **The pagination of the history page** (frontend/src/pages/HistoryPage.jsx).

Outside effects become parameters:

- **HTTP.** The network is the `Web` value of module `Types`: a GET oracle, a HEAD oracle giving header names, a regular-expression search oracle, and the form actions of a page.
- **Sockets.** Socket connections are functions from host and port to a result.
- **The thread pool.** It is a `schedule` function that returns some permutation of the tasks.
- **The filesystem.** Its outcomes are boolean or optional parameters.

Module layout follows the program: `Text`, `Seqs`, `Urls` and `Severity` hold helpers shared by several files. `Probes`, `Crawler` and `Scanner` model scanner_vulnerabilites_v2.py. `Scoring` holds the v2 score. `Innovations`, `Explainer`, `Registry` and `History` model one source file each. `Comparison` sets the two score variants side by side.

Behaviour worth noting:

- **SQL findings.** An SQL task reports one finding per payload that triggers a database error, so up to three. The `break` at scanner_vulnerabilites_v2.py:179 only leaves the pattern loop. The other classes stop at the first payload that hits.
- **Unreachable target.** The target still ends up in `crawled_urls`: it is added before it is fetched (scanner_vulnerabilites_v2.py:276-282).
- **Crawl origin test.** It is a substring test of the target, not a host comparison (scanner_vulnerabilites_v2.py:293).
- **Score formula.** The v2 score deducts 15 for MEDIUM, 5 per open port and 10 unless `ssl_info["valid"] == "Oui"` (scanner_vulnerabilites_v2.py:72-88). So a clean, unreachable target scores 90. The innovations variant uses 10 for MEDIUM, 2 per open port and 15 for an invalid certificate.

## Model

| member | source | states |
|---|---|---|
| Text.Strip | backend/api_flask.py:175 | `strip()` removes the whitespace at both ends: the result neither starts nor ends with whitespace, and it is empty exactly when the input is all whitespace |
| Text.StripSurroundings | backend/api_flask.py:175 | the input is the result of `strip()` with some whitespace before it and some whitespace after it, so nothing but whitespace is removed (the converse of `Text.StripPadded`) |
| Text.StripPadded | backend/api_flask.py:175 | any text that neither starts nor ends with whitespace, padded with whitespace on both sides, strips back to exactly that text |
| Text.RStripSlash | backend/scanner_vulnerabilites_v2.py:111 | the result is a prefix of the input, does not end in `/`, and only slashes were removed |
| Text.DigitsValueLeadingZeros | backend/scanner_vulnerabilites_v2.py:803 | leading zeros do not change the value `int()` reads from a digit string |
| Urls.WithScheme | backend/scanner_vulnerabilites_v2.py:799-800 | the result always starts with `http://` or `https://`; a URL that had one is unchanged, any other gets `http://` in front |
| Urls.WithSchemeIdempotent | backend/api_flask.py:179 | prefixing a second time changes nothing |
| Urls.ExtractHost | backend/scanner_vulnerabilites_v2.py:36 | the host cut out of a target never contains `/` |
| Urls.PortScanHost | backend/scanner_vulnerabilites_v2.py:36 | the port sweep's host (`http://` removed first) has no `/` |
| Urls.SchemeStrippedHost | backend/innovations_module.py:30 | the host with `https://` removed first, used by the innovations port sweep (line 30), the innovations TLS check (line 49) and the scanner's TLS check (scanner_vulnerabilites_v2.py:51), has no `/` |
| Urls.ExtractHostOfUrl | backend/scanner_vulnerabilites_v2.py:51 | for `scheme + host + path` with a host free of `:` and `/`, either removal order gives back exactly the host |
| Urls.HostOfUrl | backend/innovations_module.py:49 | the port sweep and the TLS check extract the same host from every such URL |
| Severity.StatusKey | backend/api_flask.py:138-140 | the counted key is always one of the four; a known upper-cased severity is kept, anything else (missing included) becomes LOW |
| Severity.SeverityKey | backend/scanner_vulnerabilites_v2.py:430 | `v.get('severity', 'LOW').upper()`: a finding without a severity reads as LOW, any other severity is upper-cased (the same expression as api_flask.py:138) |
| Severity.ReportTally | backend/scanner_vulnerabilites_v2.py:428-432 | the HTML report's counts: each finding under its upper-cased severity when that is one of the four keys, others not counted |
| Severity.StatusTally | backend/api_flask.py:136-141 | the API's counts: each finding under its counted key, unknown or missing severities under LOW |
| Severity.StatusTallyTotal | backend/api_flask.py:136-141 | the API's four counts add up to the number of findings |
| Severity.ReportTallyStep | backend/scanner_vulnerabilites_v2.py:428-432 | one more finding raises the report's total by one exactly when its severity is one of the four keys |
| Severity.ReportTallyTotal | backend/scanner_vulnerabilites_v2.py:428-432 | the report's counts add up to at most the number of findings, and to exactly that number iff every severity is known |
| Severity.TalliesAgreeOnKnownSeverities | backend/api_flask.py:219-223 | when every severity is known, the API's tally and the report's tally are equal |
| Severity.TalliesIgnoreOrder | backend/api_flask.py:136-141 | both tallies are the same for any reordering of the findings |
| Probes.FirstHitIsFirst | backend/scanner_vulnerabilites_v2.py:183-244 | the XSS/traversal/command search yields at most one finding; none exactly when no payload hits, otherwise that of the first payload that hits |
| Probes.Payloads | backend/scanner_vulnerabilites_v2.py:159-227 | the payload list of each class, in order: three SQL, two XSS, two traversal, three command payloads |
| Probes.Quote | backend/scanner_vulnerabilites_v2.py:191 | `urllib.parse.quote` on ASCII text: letters, digits, `_.-~` and `/` kept, anything else as `%XX` |
| Probes.ProbeUrl | backend/scanner_vulnerabilites_v2.py:167-231 | the probe URL of each class: `?id=`, `?q=`, `?file=` or `?cmd=` followed by the payload, quoted for XSS and command injection |
| Probes.Hit | backend/scanner_vulnerabilites_v2.py:167-234 | a probe hits when its GET succeeds and the class's detector accepts the body |
| Probes.FirstHit | backend/scanner_vulnerabilites_v2.py:183-244 | the XSS, traversal and command search: the finding of the first payload that hits, if any |
| Probes.EveryHit | backend/scanner_vulnerabilites_v2.py:165-181 | the SQL search: the finding of every payload that hits, in order |
| Probes.TaskFindings | backend/scanner_vulnerabilites_v2.py:155-246 | what `test_vulnerability` returns for a task: the every-hit search for SQL, the first-hit search otherwise |
| Probes.MissingHeaders | backend/scanner_vulnerabilites_v2.py:254-268 | one LOW finding per checked header missing from the response, in the order of the header table |
| Probes.HeaderCheck | backend/scanner_vulnerabilites_v2.py:248-272 | what `check_security_headers` returns: nothing when the HEAD request raises, else the missing-header findings |
| Probes.EveryHitIsEvery | backend/scanner_vulnerabilites_v2.py:165-181 | the SQL search yields exactly one finding per payload that hits: as many findings as hitting payloads, their payloads in the order of the payload list, each one the finding of a hitting payload, and every hitting payload's finding present |
| Probes.EveryHitInOrder | backend/scanner_vulnerabilites_v2.py:165-181 | the number of findings is the number of payloads that hit, and the payloads they name are a subsequence of the payload list |
| Probes.TaskFindingsShape | backend/scanner_vulnerabilites_v2.py:155-246 | every finding of a task carries the bare surface URL, the class's type and fixed severity, and one of the class's payloads; at most 3 for SQL, at most 1 otherwise |
| Probes.SqlTaskCanReportEveryPayload | backend/scanner_vulnerabilites_v2.py:165-181 | if all three SQL payloads trigger an error, the task reports all three, in order |
| Probes.ProbeFirstMatch | backend/scanner_vulnerabilites_v2.py:183-244 | the payload loop with `break` returns the first-hit search result |
| Probes.MatchesSqlError | backend/scanner_vulnerabilites_v2.py:170-179 | the pattern loop reports a match exactly when some of the four database-error patterns matches the body |
| Probes.ProbeSql | backend/scanner_vulnerabilites_v2.py:158-181 | the SQL loop returns the every-hit search result |
| Probes.TestVulnerability | backend/scanner_vulnerabilites_v2.py:155-246 | `test_vulnerability(url, type)` returns exactly the task's findings |
| Probes.MissingHeadersExact | backend/scanner_vulnerabilites_v2.py:248-270 | one LOW finding per checked header the response lacks (case-insensitive), in order, and none for a present one |
| Probes.AllHeadersMissing | backend/scanner_vulnerabilites_v2.py:254-268 | a response with none of the three headers yields exactly the three findings X-Frame-Options, X-Content-Type-Options, Strict-Transport-Security |
| Probes.CheckSecurityHeaders | backend/scanner_vulnerabilites_v2.py:248-272 | a failed HEAD gives no findings; otherwise the missing-header findings of the response |
| Crawler.HrefRun | backend/scanner_vulnerabilites_v2.py:284 | the capture is the longest prefix free of quotes, spaces and `>` |
| Crawler.Hrefs | backend/scanner_vulnerabilites_v2.py:284 | the captures of `re.findall` with the `href` pattern, scanning left to right and resuming after each match |
| Crawler.ResolveLink | backend/scanner_vulnerabilites_v2.py:286-291 | a link starting with `http` is kept, one starting with `/` is appended to the target, any other to the page without trailing slashes plus `/` |
| Crawler.ResolveForm | backend/scanner_vulnerabilites_v2.py:298-303 | a form action starting with `/` is appended to the target, one not starting with `http` to the page plus `/`, any other kept |
| Crawler.ResolveForms | backend/scanner_vulnerabilites_v2.py:296-305 | the form URLs of one page: each non-empty action resolved, in order, duplicates kept |
| Crawler.Crawl | backend/scanner_vulnerabilites_v2.py:274-307 | `crawl_website`: nothing at the depth bound or for a visited URL; else the URL is marked, fetched, its first 8 links followed and its forms appended; a failed fetch leaves only the mark |
| Crawler.CrawlLinks | backend/scanner_vulnerabilites_v2.py:285-294 | the link loop: each resolved link that contains the target and is not yet crawled is crawled one level deeper |
| Crawler.HrefsWellFormed | backend/scanner_vulnerabilites_v2.py:284 | every `href` capture is non-empty and free of quotes, spaces and `>` |
| Crawler.NoHrefNoLinks | backend/scanner_vulnerabilites_v2.py:284 | a page without `href=` yields no links |
| Crawler.Take8 | backend/scanner_vulnerabilites_v2.py:285 | `links[:8]` is a prefix of at most 8 links, all of them when there are at most 8 |
| Crawler.FormRuleIsLinkRule | backend/scanner_vulnerabilites_v2.py:296-305 | on a non-empty action, the form rule order (`/`, not `http`, as is) resolves like the link rule order |
| Crawler.ResolveFormsExact | backend/scanner_vulnerabilites_v2.py:296-305 | a page contributes one form URL per non-empty action, duplicates kept, each the resolution of one of its actions |
| Crawler.MarkKeepsFetchedOnce | backend/scanner_vulnerabilites_v2.py:278-282 | marking an unvisited URL before fetching it keeps every fetched URL visited and fetched once |
| Crawler.CrawlExtends | backend/scanner_vulnerabilites_v2.py:274-307 | a crawl call only grows the visited set, fetch log and form list; the depth and visited guards change nothing; otherwise the URL ends up visited, a failed fetch adds only it, and no URL is fetched twice |
| Crawler.CrawlLinksExtends | backend/scanner_vulnerabilites_v2.py:285-294 | the same growth and fetch-once facts for the link loop of one page |
| Crawler.CrawlSameOrigin | backend/scanner_vulnerabilites_v2.py:293 | started from a URL containing the target, the crawl visits only URLs containing the target |
| Crawler.CrawlLinksSameOrigin | backend/scanner_vulnerabilites_v2.py:293-294 | the link loop follows only links containing the target |
| Crawler.CrawlFetchBound | backend/scanner_vulnerabilites_v2.py:274-294 | a crawl with n levels left fetches at most 1 + 8·(pages of n−1 levels) pages |
| Crawler.CrawlLinksFetchBound | backend/scanner_vulnerabilites_v2.py:285-294 | the link loop fetches at most one sub-crawl's bound per link |
| Crawler.LastLevelLinks | backend/scanner_vulnerabilites_v2.py:275 | at the last level the link loop changes nothing: every sub-crawl hits the depth guard |
| Crawler.SecondToLastLevelLinks | backend/scanner_vulnerabilites_v2.py:285-294 | one level above the last, the link loop visits only the resolved links of the page |
| Crawler.DefaultDepthCrawlsDirectLinks | backend/scanner_vulnerabilites_v2.py:274 | with depth 2 from the target, only the target and its first 8 resolved links are visited |
| Crawler.DefaultCrawl | backend/scanner_vulnerabilites_v2.py:703 | `run_scan`'s crawl: the target is visited, all visited URLs contain it, each page is fetched once, at most 9 pages in all; an unreachable target leaves `{target}` and no forms |
| Scanner.CrossTasksShape | backend/scanner_vulnerabilites_v2.py:312-319 | task k probes surface k/4 with class k mod 4: exactly 4 tasks per surface, duplicate surfaces included |
| Scanner.CrossTasks | backend/scanner_vulnerabilites_v2.py:316-319 | the task list: every surface crossed with the four classes, surfaces outermost |
| Scanner.AllFindings | backend/scanner_vulnerabilites_v2.py:328-339 | the findings of the tasks laid end to end in completion order |
| Scanner.OpenPorts | backend/scanner_vulnerabilites_v2.py:33-45 | the ports of the list that the socket reports open, in order, ending early at a socket error |
| Scanner.BuildTasks | backend/scanner_vulnerabilites_v2.py:316-319 | the nested loops build exactly that task list |
| Scanner.TaskCount | backend/scanner_vulnerabilites_v2.py:312-319 | there are 4·(number of crawled URLs + number of forms) tasks |
| Scanner.FindingsIgnoreOrder | backend/scanner_vulnerabilites_v2.py:322-339 | any completion order of the pool gives the same multiset of findings |
| Scanner.AggregationIgnoresOrder | backend/scanner_vulnerabilites_v2.py:312-339 | neither the listing order of the crawled set nor the completion order changes the multiset of task findings |
| Scanner.ListSet | backend/scanner_vulnerabilites_v2.py:312 | `list(crawled_urls)` lists each crawled URL exactly once |
| Scanner.RunTasks | backend/scanner_vulnerabilites_v2.py:328-339 | draining the pool extends the findings by each task's results in completion order |
| Scanner.OpenPortsInOrder | backend/scanner_vulnerabilites_v2.py:31-45 | the open ports come out ascending, each a listed port the socket reported open, no more than listed |
| Scanner.Sweep | backend/scanner_vulnerabilites_v2.py:37-44 | the loop collects the open ports and a socket error ends the sweep with the ports found so far |
| Scanner.ScanBasicPorts | backend/scanner_vulnerabilites_v2.py:31-45 | `scan_basic_ports` sweeps the 8 fixed ports of the target's host |
| Scanner.ParseTarget | backend/scanner_vulnerabilites_v2.py:793-800 | no target exactly when the input is all whitespace; otherwise the target is the stripped input, with `http://` in front when it has no scheme |
| Scanner.ParseThreads | backend/scanner_vulnerabilites_v2.py:802-803 | the worker count is always between 1 and 10 |
| Scanner.ParseThreadsChoices | backend/scanner_vulnerabilites_v2.py:803 | typing 1 to 10 selects that count; input without digits selects 5 |
| Scanner.ParseThreadsOfDigits | backend/scanner_vulnerabilites_v2.py:802-803 | a digit answer, with any whitespace around it, selects its decimal value when that is 1 to 10 and 5 otherwise |
| Scanner.ParseThreadsOfNumber | backend/scanner_vulnerabilites_v2.py:803 | a number written with any leading zeros selects itself when it is 1 to 10, and 5 otherwise (0 and 11 upwards select 5) |
| Scanner.VulnerabilityScanner.constructor | backend/scanner_vulnerabilites_v2.py:110-125 | the target is stored without trailing slashes; nothing crawled or found |
| Scanner.VulnerabilityScanner.CrawlWebsite | backend/scanner_vulnerabilites_v2.py:274-307 | the method's effect on the crawled set, forms and fetch log is the crawl function; findings untouched |
| Scanner.VulnerabilityScanner.ScanVulnerabilitiesParallel | backend/scanner_vulnerabilites_v2.py:309-341 | the findings grow by some order of the task findings, then by the header check of the target; the crawl state is untouched |
| Scanner.VulnerabilityScanner.RunScan | backend/scanner_vulnerabilites_v2.py:698-708 | crawl then probe phase on a new scanner: the default-crawl facts plus the findings as task findings followed by header findings |
| Scoring.Score | backend/scanner_vulnerabilites_v2.py:72-88 | the v2 score is between 0 and 100 |
| Scoring.Penalty | backend/scanner_vulnerabilites_v2.py:75-84 | the cost of one finding: 40, 25, 15 or 5 for CRITICAL, HIGH, MEDIUM or LOW after upper-casing, nothing otherwise |
| Scoring.RawScore | backend/scanner_vulnerabilites_v2.py:74-87 | 100 less the finding costs, 5 per open port, and 10 unless `ssl_info["valid"]` is "Oui" |
| Scoring.ScoreClass | backend/scanner_vulnerabilites_v2.py:435-437 | the colour class: good from 80, warning from 50, critical below |
| Scoring.CalculateSecurityScore | backend/scanner_vulnerabilites_v2.py:72-88 | the decrementing loop returns the clamped v2 score |
| Scoring.PenaltiesNonNegative | backend/scanner_vulnerabilites_v2.py:75-84 | finding deductions never add to the score |
| Scoring.ScoreIgnoresOrder | backend/scanner_vulnerabilites_v2.py:75-84 | a reordered finding list gives the same score |
| Scoring.MoreFindingsNeverRaiseScore | backend/scanner_vulnerabilites_v2.py:72-88 | more findings or more open ports never raise the score |
| Scoring.CleanTargetScore | backend/scanner_vulnerabilites_v2.py:85-88 | no findings and no ports score 100 with TLS "Oui" and 90 with any other verdict |
| Scoring.PenaltiesFromTally | backend/scanner_vulnerabilites_v2.py:75-84 | the finding deductions equal 40·critical + 25·high + 15·medium + 5·low of the report's tally |
| Scoring.ScoreClassBands | backend/scanner_vulnerabilites_v2.py:435-437 | good exactly from 80, critical exactly below 50, and a higher score never gets a worse class |
| Scoring.HtmlSeverityCounts | backend/scanner_vulnerabilites_v2.py:428-432 | the report's counting loop gives the report's tally (unknown severities not counted) |
| Innovations.OpenEntriesExact | backend/innovations_module.py:34-39 | the open entries keep table order, come from the table, and are exactly the reachable ones |
| Innovations.OpenEntries | backend/innovations_module.py:34-39 | the table entries whose port accepts a connection, in table order |
| Innovations.Label | backend/innovations_module.py:37 | the label `f"{port} ({service})"` of one table entry |
| Innovations.OpenLabels | backend/innovations_module.py:34-41 | the labels `port (service)` of the open entries |
| Innovations.Penalty | backend/innovations_module.py:105-114 | the cost of one finding: 40, 25, 10 or 5 on the upper-cased severity, nothing for a missing or other one |
| Innovations.RawScore | backend/innovations_module.py:95-135 | 100 less the finding costs, 2 per open port, 15 unless TLS is valid, and 5 for an Apache 2.0 or 2.2 banner |
| Innovations.DeductFindings | backend/innovations_module.py:105-114 | the loop over the findings leaves 100 less the sum of their severity costs |
| Innovations.SslValid | backend/innovations_module.py:123 | `ssl_info.get("valid", False)` is truthy, with a None `ssl_info` read as `{}` |
| Innovations.ServerString | backend/innovations_module.py:127-131 | `server_str`: the `Server` entry of a dict (empty when absent or None) or the `str` of any other value |
| Innovations.OldApache | backend/innovations_module.py:134 | the lower-cased banner contains `apache/2.2` or `apache/2.0` |
| Innovations.TlsInfo | backend/innovations_module.py:52-70 | the dictionary of each handshake outcome: valid with issuer and expiry, or an SSL error, or any other failure |
| Innovations.ExpiryText | backend/innovations_module.py:154-160 | the summary's expiry: a truthy `expiry_date`, else "N/A" |
| Innovations.CorrectedExpiryText | backend/innovations_module.py:154-160 | the same line reading the `expires` key the certificate check writes |
| Innovations.PortsText | backend/innovations_module.py:152 | the ports line for (port, service) pairs: `svc (prt)` joined by ", ", or "Aucun" |
| Innovations.PortsTextOfLabels | backend/innovations_module.py:152 | the ports line as written, on the sweep's labels: "Aucun" for none, and an unpacking error unless every label has exactly two characters |
| Innovations.SweepTable | backend/innovations_module.py:34-41 | the loop returns the labels `port (service)` of the open entries |
| Innovations.ScanBasicPorts | backend/innovations_module.py:10-41 | the sweep of the 11-entry table `PortTable` (the ports and services of `common_ports`, lines 15-27, in the dictionary's order) on the host with `https://` removed first |
| Innovations.SweepExtremes | backend/innovations_module.py:15-39 | all ports reachable gives the whole table; none reachable gives nothing |
| Innovations.Score | backend/innovations_module.py:85-143 | this variant's score is between 0 and 100 |
| Innovations.CalculateSecurityScore | backend/innovations_module.py:102-143 | the loop and the later deductions return that score; None arguments count as empty |
| Innovations.BaselineScores | backend/innovations_module.py:95-124 | no findings, no ports and no old Apache banner score 100 with valid TLS and 85 otherwise |
| Innovations.OldApacheCostsFive | backend/innovations_module.py:127-135 | the mixed-case banner `Apache/2.2.15 (CentOS)` costs exactly 5 more than a response without a Server header |
| Innovations.PenaltiesNonNegative | backend/innovations_module.py:105-114 | finding deductions are never negative |
| Innovations.MoreFindingsNeverRaiseScore | backend/innovations_module.py:105-114 | more findings never raise this score, and reordering does not change it |
| Innovations.TlsPenaltyFollowsHandshake | backend/innovations_module.py:52-70 | the score treats TLS as valid exactly when the handshake succeeded |
| Innovations.ExpiryOfOwnTlsCheck | backend/innovations_module.py:159-160 | on the certificate check's own dictionary, the summary's expiry is always "N/A" |
| Innovations.ExpiryOfTlsCheckCorrected | backend/innovations_module.py:60-66 | reading the `expires` key, the expiry shown is the certificate's `notAfter` after a handshake and "N/A" otherwise |
| Innovations.PortsTextEmptyIffNoPorts | backend/innovations_module.py:152 | the ports line is "Aucun" exactly when there are no pairs, else it starts with the first `svc (prt)` |
| Innovations.ScannedLabelsBreakSummary | backend/innovations_module.py:152 | any open port found by the sweep makes the summary's unpacking raise |
| Innovations.ScannedEntriesSummary | backend/innovations_module.py:152 | rendered from the open entries, the line is "Aucun" exactly when no port is reachable, else starts with the first open entry |
| Explainer.Collapse | backend/vuln_explainer.py:33 | the output holds only alphanumerics and spaces, keeps a leading alphanumeric, and is empty exactly when the input is |
| Explainer.CollapseSingleSpaces | backend/vuln_explainer.py:33 | the output never holds two spaces in a row |
| Explainer.CollapseRun | backend/vuln_explainer.py:33 | a whole run of characters outside `[a-z0-9]` becomes a single space |
| Explainer.CollapseAppend | backend/vuln_explainer.py:33 | collapsing two texts joined where no run is split is collapsing each; with the run rule and the one-character case this fixes the output on every text: alphanumerics kept in order, each maximal run one space |
| Explainer.CollapseKeepsAlnum | backend/vuln_explainer.py:33 | collapsing keeps every `[a-z0-9]` character of the input, in order, and adds none |
| Explainer.StripKeepsAlnum | backend/vuln_explainer.py:34 | `strip()` removes no `[a-z0-9]` character |
| Explainer.NormalizeKeepsAlnum | backend/vuln_explainer.py:28-34 | the `[a-z0-9]` characters of `normalize`'s output are exactly those of the lower-cased input, in order ("" for a missing text) |
| Explainer.NormalizeIsClean | backend/vuln_explainer.py:28-34 | the output of `normalize` is only `[a-z0-9]` and single spaces, with no space at either end |
| Explainer.Normalize | backend/vuln_explainer.py:28-34 | `normalize`: "" for a falsy text, else lower-cased, runs outside `[a-z0-9]` collapsed, then stripped |
| Explainer.NormalizeIdempotent | backend/vuln_explainer.py:28-34 | normalizing a normalized text changes nothing |
| Explainer.FirstTruthyIsFirst | backend/vuln_explainer.py:91-96 | an `or` chain yields the value of the first key with a truthy value, else the default |
| Explainer.FirstTruthy | backend/vuln_explainer.py:91-96 | an `or` chain of `item.get` calls ending in a default |
| Explainer.FormatResponse | backend/vuln_explainer.py:88-97 | `format_response`: the six fields, each the first truthy value of its chain or its default |
| Explainer.FormatResponseDefaults | backend/vuln_explainer.py:88-97 | for every item: without a truthy title the title is the key, with one it is that title; each other field is "" (`{}` for the examples) when none of its keys holds a truthy value |
| Explainer.FirstKeywordIsFirst | backend/vuln_explainer.py:43-56 | the keyword chosen is the first in map order contained in the name, and none when no keyword is contained |
| Explainer.FirstKeyword | backend/vuln_explainer.py:43-56 | the database key of the first keyword, in map order, contained in the name |
| Explainer.GetItem | backend/vuln_explainer.py:58 | `VULN_DB.get(key)`: the item stored under the key, or none |
| Explainer.KeywordPass | backend/vuln_explainer.py:54-61 | the keyword pass: only the first contained keyword is tried, matching when a non-empty item is stored under its key |
| Explainer.ItemTitle | backend/vuln_explainer.py:66 | an item's lower-cased title, "" when absent or falsy, an error when a truthy title is not text |
| Explainer.TitlePass | backend/vuln_explainer.py:65-69 | the title pass: the first entry whose non-empty title occurs in the name |
| Explainer.KeyPass | backend/vuln_explainer.py:72-75 | the key pass: the first entry whose key, `_` read as a space, occurs in the name |
| Explainer.Fallback | backend/vuln_explainer.py:79-86 | the answer without a match: the name or "Inconnue", and fixed texts |
| Explainer.Lookup | backend/vuln_explainer.py:54-75 | the three passes in order; a title error ends the lookup |
| Explainer.ExplainVulnerability | backend/vuln_explainer.py:36-86 | `explain_vulnerability`: the lookup on the lower-cased name, the fallback without a match |
| Explainer.KeywordPassStopsAtFirstKeyword | backend/vuln_explainer.py:54-61 | only the first contained keyword is tried: a match needs a non-empty item under its key, and a key that is absent or holds an empty item ends the pass without a match |
| Explainer.TitlePassIsFirst | backend/vuln_explainer.py:65-69 | a title match is the first entry whose non-empty title occurs in the name; no earlier entry matched or raised |
| Explainer.KeyPassIsFirst | backend/vuln_explainer.py:72-75 | a key match is the first entry whose key, `_` read as space, occurs in the name |
| Explainer.EmptyDatabaseFallsBack | backend/vuln_explainer.py:77-86 | with no database every name gets the fallback; a missing name is titled "Inconnue" |
| Explainer.LookupIgnoresCase | backend/vuln_explainer.py:41 | names equal up to ASCII case find the same entry |
| Registry.Failure | backend/api_flask.py:160-164 | the `except` branch leaves an entry failed, at progress 0, with the error text, and keeps a valid entry valid |
| Registry.NewEntry | backend/api_flask.py:183-193 | the entry `start_scan` inserts: starting, progress 0, the URL and thread count, no findings and total 0 |
| Registry.EntryValid | backend/api_flask.py:100-164 | what each status allows of an entry: the progress values the thread writes and a tally that adds up on completion |
| Registry.EntryAt | backend/api_flask.py:100-127 | the entry as the write before a phase left it: running at 10, 20, then 40 with the crawl's results, then 80 with the findings and their total; each write an `update` that keeps the other fields |
| Registry.CompletedEntry | backend/api_flask.py:144-152 | the entry of a completed run: the 80% entry with status completed, progress 100, the report folder, the tally and the two counts |
| Registry.EntryAtValid | backend/api_flask.py:100-152 | each write of the thread keeps a valid entry valid, the completing one included |
| Registry.FailedEntryKeeps | backend/api_flask.py:156-164 | a failed run keeps the URL, thread count, report folder and tally; the crawl's results are present exactly when the crawl finished and the findings exactly when probing finished, otherwise those fields are as before |
| Registry.CompletedEntryHolds | backend/api_flask.py:114-152 | a completed run keeps the URL and thread count and holds the crawled URLs, forms, findings, their total, counts, report folder and a tally adding up to the number of findings |
| Registry.ArchivedEntry | backend/api_flask.py:217-239 | the answer rebuilt from a report: completed at 100, the report's target, findings and figures, and the tally of those findings |
| Registry.SeverityStats | backend/api_flask.py:136-141 | the counting loop gives the API's tally, whose counts add up to the number of findings |
| Registry.RunningScansBound | backend/api_flask.py:316 | the running count is at most the number of entries, and equal to it exactly when all are running |
| Registry.RunningScansAfterWrite | backend/api_flask.py:316 | writing one entry changes the running count by that entry alone |
| Registry.RunningScansAfterRemove | backend/api_flask.py:316 | removing an entry lowers the count by one exactly when it was running |
| Registry.RunningScans | backend/api_flask.py:316 | the `active_scans` figure of `get_stats`: the number of running entries |
| Registry.ScanRegistry.constructor | backend/api_flask.py:30 | the registry starts empty |
| Registry.ScanRegistry.StartScan | backend/api_flask.py:172-198 | an empty or blank URL gives 400 and no change; otherwise 201 and a new starting entry (progress 0, no findings, total 0) for the URL with a scheme, with the requested thread count or 5 when none is given |
| Registry.ScanRegistry.RunScanThread | backend/api_flask.py:91-164 | progress written 10, 20, 40, 80, 100 when the run completes, or up to the failing phase then 0; a completed entry is the completed entry of the old one, a failed entry the failure of the old entry as the last write before the failing phase left it; no other entry changes; every entry stays valid |
| Registry.ScanRegistry.GetScanStatus | backend/api_flask.py:200-244 | an active entry takes precedence; else the archive becomes a completed entry at 100 whose URL is the report's target (null when absent), whose findings are the report's, and whose tally counts exactly those findings; a read error gives 500, nothing gives 404 |
| Registry.ScanRegistry.DeleteScan | backend/api_flask.py:254-267 | the id always leaves the registry; 404 without a folder, 200 or 500 by whether removal succeeds |
| Registry.ScanRegistry.ResetHistory | backend/api_flask.py:269-288 | the registry is emptied; 500 only when listing the scans folder raises |
| Registry.ValidEntryProgress | backend/api_flask.py:100-164 | in a valid entry, completed means progress 100 and back, failed means 0, and progress stays within 0..100 |
| History.TotalPages | frontend/src/pages/HistoryPage.jsx:13 | the page count is the least n with 10·n ≥ length |
| History.CurrentItems | frontend/src/pages/HistoryPage.jsx:10-12 | the items of a page: the clipped slice from 10·(page−1) to 10·page |
| History.ShownFrom | frontend/src/pages/HistoryPage.jsx:183 | the first number of the range line, `indexOfFirstItem + 1` |
| History.ShownTo | frontend/src/pages/HistoryPage.jsx:183 | the last number of the range line, `Math.min(indexOfLastItem, scanHistory.length)` |
| History.Pages | frontend/src/pages/HistoryPage.jsx:10-12 | the first n pages laid end to end |
| History.Step | frontend/src/pages/HistoryPage.jsx:15-21 | Next moves up while below the page count, Prev down while above 1 |
| History.PrevDisabled | frontend/src/pages/HistoryPage.jsx:190 | the previous-page button is disabled exactly on page 1 |
| History.NextDisabled | frontend/src/pages/HistoryPage.jsx:200 | the next-page button is disabled exactly on the last page |
| History.Press | frontend/src/pages/HistoryPage.jsx:15-21 | a sequence of Next and Prev presses, one step each |
| History.SliceIndex | frontend/src/pages/HistoryPage.jsx:12 | a slice index is clipped to the list |
| History.JsSlice | frontend/src/pages/HistoryPage.jsx:12 | a slice of non-negative bounds is the clipped range, at most end − start long |
| History.CurrentItemsShown | frontend/src/pages/HistoryPage.jsx:10-12 | an in-range page shows at most 10 items, exactly those from `first+1` to `min(last, length)` |
| History.PagesPrefix | frontend/src/pages/HistoryPage.jsx:10-12 | the first n pages together are the first min(10·n, length) entries |
| History.PagesCoverHistory | frontend/src/pages/HistoryPage.jsx:10-13 | paging through all pages shows every entry once, in order |
| History.PressStaysInRange | frontend/src/pages/HistoryPage.jsx:15-21 | over a fixed history, any presses of Next and Prev keep the page in [1, max(1, totalPages)] |
| History.DisabledMeansNoOp | frontend/src/pages/HistoryPage.jsx:188-204 | on a non-empty history, Prev is disabled exactly at page 1 and Next exactly when pressing it changes nothing |
| History.StalePageAfterDelete | frontend/src/pages/HistoryPage.jsx:25-43 | a page left past `totalPages` by a delete shows nothing, its range line runs backwards, and its Next is enabled but does nothing |
| History.HistoryView.constructor | frontend/src/pages/HistoryPage.jsx:5 | the page starts at 1, which is in range |
| History.HistoryView.NextPage | frontend/src/pages/HistoryPage.jsx:15-17 | the page is the Next step of the old page |
| History.HistoryView.PrevPage | frontend/src/pages/HistoryPage.jsx:19-21 | the page is the Prev step of the old page |
| History.HistoryView.Reloaded | frontend/src/pages/HistoryPage.jsx:33-34 | after a delete the list is replaced and the page kept |
| History.HistoryView.ResetDone | frontend/src/pages/HistoryPage.jsx:53-55 | after a reset the list is replaced and the page is back to 1 |
| Comparison.PenaltySumsDiffer | backend/innovations_module.py:105-114 | the v2 finding deductions exceed this variant's by exactly 5 per MEDIUM finding |
| Comparison.RawScoreGap | backend/innovations_module.py:102-135 | on the same scan the v2 raw score is this variant's less 5 per MEDIUM and 3 per open port, plus 5 when TLS is invalid |
| Comparison.OneMediumFindingDiverges | backend/scanner_vulnerabilites_v2.py:72-88 | one MEDIUM finding on a clean TLS target scores 85 in v2 and 90 in the innovations variant |

## Left out

- **Network I/O.**
  - HTTP requests, socket connections and the TLS handshake are oracles: `Web` and the `connect`/`reach` functions.
  - Timeouts, headers such as User-Agent, and the session object are not modelled.
- **Regular expressions.** The regular-expression engine, i.e. the four SQL error patterns with `re.IGNORECASE`, is the `search` oracle. The form-action regex is the `formActions` oracle. The `href` regex is written out.
- **Concurrency.**
  - The thread pool is a permutation of the tasks. A task that raises inside the pool is not modelled, since its function catches everything.
  - Scan threads of the API are sequential steps of the registry. A delete or reset that interleaves with a run between two of its writes is not modelled; only a run on an already-removed entry is.
- **The filesystem.** Report directories, JSON/HTML/summary writes, `load_history_from_disk`, `get_history`, `download_report`, `rmtree`/`unlink` and loading `vuln_db.json` are left out. Their outcomes are parameters wherever a route's answer depends on them.
- **Floating point and clocks.** Scan duration, the progress percentage print, the stats average and timestamps (`started_at`, `completed_at`, `scan_date`) are left out.
- **Output.** The HTML and JSON report contents, the v2 executive summary text, `banner` and the console progress prints are left out. Only the score class and severity counts of the HTML report are modelled.
- **v2 helpers.** `check_ssl_tls_configuration` and `check_server_version` of the v2 file are network oracles. The score takes `ssl_info.get("valid")` directly, and `server_info` does not enter the v2 score.
- **Innovations helpers.** `check_server_version` of innovations_module.py is a plain network call and is left out. The score takes the server value as a parameter.
- **Innovations summary.** Only the ports and expiry lines are modelled. The issuer rule and the other lines are text formatting.
- **Text.** Case mapping is ASCII only, and `str.isdigit` accepts only ASCII digits. Unicode letters and digits are not modelled; neither is `urllib.parse.quote` on non-ASCII payloads.
- **Input types.** Non-string severities in the v2 score (`v["severity"].upper()` on a non-string raises) and a missing `severity` key there are not modelled. Also not modelled: non-object database entries in the explainer, a request body that is not a JSON object, and a `url` that is not a string in `start_scan`.
- **main.** The `input()` calls are parameters of `ParseTarget` and `ParseThreads`.
- **Frontend.** The SeverityStats arc geometry and the rest of the frontend are left out.
- **Registry.ScanRegistry.StartScan.** The fresh uuid is a parameter. A collision with an existing id (the source would overwrite that entry) is modelled but not excluded.
- **Registry.ScanRegistry.StartScan threads.** The request's `threads` is an integer or absent (then 5). A value that is not an integer is not modelled.
- **Registry.ScanRegistry.GetScanStatus.** The archived findings are `Finding` values, so each has a severity. A report finding without `severity` (the route counts it as LOW) or one that is not an object is not modelled.
- **Explainer.Get.** A JSON object holds each key once, as the objects `json.load` returns do. A file with a repeated key (where `json.load` keeps the last value) is read as its loaded object.
- **Registry entry fields.** The entry does not store its `id`/`scan_id` fields (they equal the key) or its timestamps.
- **Scanner.VulnerabilityScanner.ScanVulnerabilitiesParallel.** It states the task findings as a multiset equal to the canonical order, not the exact order the pool produces, because that order is the scheduler's. It requires at least one worker, as the thread pool does. The API passes `threads` on unchecked, so a count of 0 or less makes the pool raise in the probe phase. `RunScanThread` covers that run through its `failure` parameter with the probe phase.

## Findings

| source | as written | input that shows it | evidently intended | confidence | as-written member | corrected member |
|---|---|---|---|---|---|---|
| backend/innovations_module.py:152 | the summary unpacks each open port as a `(prt, svc)` pair, but `scan_basic_ports` (innovations_module.py:37) returns labels such as `"80 (HTTP)"`, so unpacking raises | one reachable port, e.g. port 80 open | render the ports line from the open (port, service) entries | not executed | Innovations.ScannedLabelsBreakSummary | Innovations.ScannedEntriesSummary |
| backend/innovations_module.py:159-160 | the summary reads `expiry_date`, while the certificate check (innovations_module.py:62-66) stores the date under `expires`, so the expiry shown is always "N/A" | a successful handshake with `notAfter` = "Jun 1 12:00:00 2030 GMT" | show the certificate's expiry | not executed | Innovations.ExpiryOfOwnTlsCheck | Innovations.ExpiryOfTlsCheckCorrected |
