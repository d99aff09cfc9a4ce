/**
 * The scanner object of scanner_vulnerabilites_v2.py (`VulnerabilityScannerV2`):
 * its crawl, the task list and the aggregation of the parallel probe phase, the
 * port sweep, and the input parsing of `main`.
 */
module Scanner {
  import opened Wrappers
  import opened Text
  import opened Seqs
  import opened Types
  import opened Urls
  import opened Probes
  import opened Crawler

  /** The four tasks of one surface, in the order the nested loop builds them. */
  function SurfaceTasks(url: string): seq<Task> {
    [Task(url, Classes[0]), Task(url, Classes[1]), Task(url, Classes[2]), Task(url, Classes[3])]
  }

  /** The task list: every surface crossed with `['sql', 'xss', 'traversal', 'command']`. */
  function CrossTasks(surfaces: seq<string>): seq<Task> {
    FlatMap(surfaces, SurfaceTasks)
  }

  /** Task `k` probes surface `k / 4` with class `k % 4`: exactly four tasks per surface, duplicates included. */
  lemma {:induction false} CrossTasksShape(surfaces: seq<string>)
    ensures var r := CrossTasks(surfaces);
      && |r| == 4 * |surfaces|
      && forall k :: 0 <= k < |r| ==> r[k] == Task(surfaces[k / 4], Classes[k % 4])
  {
    if surfaces != [] {
      var init := surfaces[..|surfaces| - 1];
      var last := surfaces[|surfaces| - 1];
      CrossTasksShape(init);
      var r := CrossTasks(surfaces);
      assert r == CrossTasks(init) + SurfaceTasks(last);
      forall k | 0 <= k < |r| ensures r[k] == Task(surfaces[k / 4], Classes[k % 4]) {
        if k < 4 * |init| {
          assert k / 4 < |init|;
          assert surfaces[k / 4] == init[k / 4];
        } else {
          var j := k - 4 * |init|;
          assert k == 4 * |init| + j && 0 <= j < 4;
          assert k / 4 == |init| && k % 4 == j;
        }
      }
    }
  }

  /** `tasks` as the nested loops of `scan_vulnerabilities_parallel` build it. */
  method BuildTasks(surfaces: seq<string>) returns (tasks: seq<Task>)
    ensures tasks == CrossTasks(surfaces)
  {
    tasks := [];
    var i := 0;
    while i < |surfaces|
      invariant 0 <= i <= |surfaces|
      invariant tasks == CrossTasks(surfaces[..i])
    {
      var url := surfaces[i];
      var j := 0;
      while j < |Classes|
        invariant 0 <= j <= |Classes|
        invariant tasks == CrossTasks(surfaces[..i]) + SurfaceTasks(url)[..j]
      {
        assert SurfaceTasks(url)[..j + 1] == SurfaceTasks(url)[..j] + [Task(url, Classes[j])];
        tasks := tasks + [Task(url, Classes[j])];
        j := j + 1;
      }
      assert surfaces[..i + 1][..i] == surfaces[..i];
      assert SurfaceTasks(url)[..4] == SurfaceTasks(url);
      i := i + 1;
    }
    assert surfaces[..|surfaces|] == surfaces;
  }

  /** With the crawled set listed once per element, there are 4·(|crawled_urls| + |forms|) tasks. */
  lemma TaskCount(crawled: set<string>, listed: seq<string>, forms: seq<string>)
    requires NoDuplicates(listed) && Elems(listed) == crawled
    ensures |CrossTasks(listed + forms)| == 4 * (|crawled| + |forms|)
  {
    NoDuplicatesCard(listed);
    CrossTasksShape(listed + forms);
  }

  function FindingsOf(w: Web): Task -> seq<Finding> {
    t => TaskFindings(w, t)
  }

  /** The results of the tasks, extended in completion order. */
  function AllFindings(w: Web, order: seq<Task>): seq<Finding> {
    FlatMap(order, FindingsOf(w))
  }

  /** The completion order of the pool does not change the multiset of findings. */
  lemma FindingsIgnoreOrder(w: Web, a: seq<Task>, b: seq<Task>)
    requires multiset(a) == multiset(b)
    ensures multiset(AllFindings(w, a)) == multiset(AllFindings(w, b))
  {
    FlatMapPermutation(a, b, FindingsOf(w));
  }

  /**
   * Neither the order in which `list(crawled_urls)` lists the set nor the order in
   * which the pool completes the tasks changes the multiset of task findings.
   */
  lemma AggregationIgnoresOrder(w: Web, crawled: set<string>, forms: seq<string>,
                                listed1: seq<string>, listed2: seq<string>, order1: seq<Task>, order2: seq<Task>)
    requires NoDuplicates(listed1) && Elems(listed1) == crawled
    requires NoDuplicates(listed2) && Elems(listed2) == crawled
    requires multiset(order1) == multiset(CrossTasks(listed1 + forms))
    requires multiset(order2) == multiset(CrossTasks(listed2 + forms))
    ensures multiset(AllFindings(w, order1)) == multiset(AllFindings(w, order2))
  {
    ListingsArePermutations(listed1, listed2);
    assert multiset(listed1 + forms) == multiset(listed2 + forms);
    FlatMapPermutation(listed1 + forms, listed2 + forms, SurfaceTasks);
    FindingsIgnoreOrder(w, order1, order2);
  }

  /** `list(s)`: some listing of the set, each element once. */
  method ListSet(s: set<string>) returns (r: seq<string>)
    ensures Elems(r) == s && NoDuplicates(r)
  {
    r := [];
    var rest := s;
    while rest != {}
      invariant Elems(r) + rest == s && Elems(r) !! rest && NoDuplicates(r)
      decreases |rest|
    {
      var x :| x in rest;
      AppendFresh(r, x);
      r := r + [x];
      rest := rest - {x};
    }
  }

  /** The drain of the pool: every task's results, extended in the order the tasks complete. */
  method RunTasks(w: Web, order: seq<Task>) returns (found: seq<Finding>)
    ensures found == AllFindings(w, order)
  {
    found := [];
    var i := 0;
    while i < |order|
      invariant 0 <= i <= |order|
      invariant found == AllFindings(w, order[..i])
    {
      var results := TestVulnerability(w, order[i].url, order[i].cls);
      assert order[..i + 1][..i] == order[..i];
      found := found + results;
      i := i + 1;
    }
    assert order[..|order|] == order;
  }

  /** The ports of the scanner's own sweep. */
  const SweepPorts: seq<int> := [21, 22, 25, 80, 110, 143, 443, 3306]

  /**
   * The open ports among `ports` as `scan_basic_ports` finds them; `connect(host, port)`
   * is whether `connect_ex` succeeds, None when the socket raises, which ends the sweep.
   */
  function OpenPorts(connect: (string, int) -> Option<bool>, host: string, ports: seq<int>): seq<int> {
    if ports == [] then []
    else match connect(host, ports[0])
      case None => []
      case Some(open) => (if open then [ports[0]] else []) + OpenPorts(connect, host, ports[1..])
  }

  predicate Ascending(s: seq<int>) {
    forall i, j :: 0 <= i < j < |s| ==> s[i] < s[j]
  }

  /** Over ascending ports, the open ports come out ascending, each one a port of the list the oracle reported open. */
  lemma OpenPortsInOrder(connect: (string, int) -> Option<bool>, host: string, ports: seq<int>)
    requires Ascending(ports)
    ensures var r := OpenPorts(connect, host, ports);
      && |r| <= |ports| && Ascending(r)
      && forall p :: p in r ==> p in ports && connect(host, p) == Some(true)
  {
    OpenPortsReported(connect, host, ports);
    OpenPortsAscending(connect, host, ports);
  }

  /** Each open port is a port of the list that the oracle reported open. */
  lemma {:induction false} OpenPortsReported(connect: (string, int) -> Option<bool>, host: string, ports: seq<int>)
    ensures var r := OpenPorts(connect, host, ports);
      |r| <= |ports| && forall p :: p in r ==> p in ports && connect(host, p) == Some(true)
  {
    if ports != [] && connect(host, ports[0]).Some? {
      var tail := ports[1..];
      OpenPortsReported(connect, host, tail);
      var rest := OpenPorts(connect, host, tail);
      forall p | p in rest ensures p in ports {
        var k :| 0 <= k < |tail| && tail[k] == p;
        assert ports[k + 1] == p;
      }
    }
  }

  lemma {:induction false} OpenPortsAscending(connect: (string, int) -> Option<bool>, host: string, ports: seq<int>)
    requires Ascending(ports)
    ensures Ascending(OpenPorts(connect, host, ports))
  {
    if ports != [] && connect(host, ports[0]).Some? {
      var tail := ports[1..];
      assert Ascending(tail);
      OpenPortsAscending(connect, host, tail);
      OpenPortsReported(connect, host, tail);
      var rest := OpenPorts(connect, host, tail);
      forall p | p in rest ensures ports[0] < p {
        var k :| 0 <= k < |tail| && tail[k] == p;
        assert ports[k + 1] == p;
      }
      if connect(host, ports[0]) == Some(true) {
        ConsAscending(ports[0], rest);
      }
    }
  }

  lemma ConsAscending(x: int, rest: seq<int>)
    requires Ascending(rest) && forall p :: p in rest ==> x < p
    ensures Ascending([x] + rest)
  {
    var r := [x] + rest;
    forall i, j | 0 <= i < j < |r| ensures r[i] < r[j] {
      if i == 0 {
        assert r[j] == rest[j - 1] && rest[j - 1] in rest;
      } else {
        assert r[i] == rest[i - 1] && r[j] == rest[j - 1];
      }
    }
  }

  /** The sweep of `ports` on one host, stopping at the first socket error. */
  method Sweep(connect: (string, int) -> Option<bool>, host: string, ports: seq<int>) returns (open: seq<int>)
    ensures open == OpenPorts(connect, host, ports)
  {
    open := [];
    var i := 0;
    while i < |ports|
      invariant 0 <= i <= |ports|
      invariant open + OpenPorts(connect, host, ports[i..]) == OpenPorts(connect, host, ports)
    {
      assert ports[i..][1..] == ports[i + 1..];
      var status := connect(host, ports[i]);
      if status.None? {
        return;
      }
      if status.value {
        open := open + [ports[i]];
      }
      i := i + 1;
    }
  }

  /** `scan_basic_ports(target)` of the scanner: the sweep of the eight ports of the host. */
  method ScanBasicPorts(connect: (string, int) -> Option<bool>, target: string) returns (open: seq<int>)
    ensures open == OpenPorts(connect, PortScanHost(target), SweepPorts)
  {
    open := Sweep(connect, PortScanHost(target), SweepPorts);
  }

  /** The target of `main`: the stripped input, None when empty, otherwise prefixed with `http://` when it has no scheme. */
  function ParseTarget(input: string): (r: Option<string>)
    ensures r.None? <==> forall i :: 0 <= i < |input| ==> IsSpace(input[i])
    ensures r.Some? ==> HasScheme(r.value) && Contains(r.value, Strip(input))
    ensures r.Some? ==> r.value == WithScheme(Strip(input))
  {
    var t := Strip(input);
    if t == [] then None
    else
      assert Contains(WithScheme(t), t) by {
        if !HasScheme(t) {
          assert "http://" + t == "http://" + t + [];
          ContainsSuffix("http://", t);
        } else {
          ContainsPrefix(t, []);
          assert t + [] == t;
        }
      }
      Some(WithScheme(t))
  }

  lemma ContainsSuffix(p: string, t: string)
    ensures Contains(p + t, t)
  {
    assert OccursAt(p + t, t, |p|) by {
      assert (p + t)[|p|..|p| + |t|] == t;
    }
    ContainsAt(p + t, t);
  }

  /** `max_workers` of `main`: the stripped answer if it is all digits with value 1 to 10, else 5. */
  function ParseThreads(input: string): (n: int)
    ensures 1 <= n <= 10
  {
    var t := Strip(input);
    if IsDigits(t) && 1 <= DigitsValue(t) <= 10 then DigitsValue(t) else 5
  }

  /**
   * Whatever whitespace surrounds it, an answer of digits selects its decimal value
   * when that is 1 to 10 and 5 otherwise.
   */
  lemma ParseThreadsOfDigits(pre: string, d: string, post: string)
    requires AllSpace(pre) && AllSpace(post) && IsDigits(d)
    ensures ParseThreads(pre + d + post) == if 1 <= DigitsValue(d) <= 10 then DigitsValue(d) else 5
  {
    assert IsDigit(d[0]) && IsDigit(d[|d| - 1]);
    StripPadded(pre, d, post);
  }

  /** A number written with any leading zeros selects itself when it is 1 to 10, and 5 otherwise. */
  lemma ParseThreadsOfNumber(zeros: string, k: nat)
    requires forall i :: 0 <= i < |zeros| ==> zeros[i] == '0'
    ensures ParseThreads(zeros + NatToString(k)) == if 1 <= k <= 10 then k else 5
  {
    var d := zeros + NatToString(k);
    DigitsValueLeadingZeros(zeros, NatToString(k));
    DigitsValueOfNatToString(k);
    assert IsDigits(d);
    assert [] + d + [] == d;
    ParseThreadsOfDigits([], d, []);
  }

  /** Typing a thread count from 1 to 10 selects it; anything that is not digits selects 5. */
  lemma ParseThreadsChoices(k: nat, other: string)
    requires 1 <= k <= 10
    requires forall i :: 0 <= i < |other| ==> !IsDigit(other[i])
    ensures ParseThreads(NatToString(k)) == k
    ensures ParseThreads(other) == 5
  {
    CountSelected(k);
    NonDigitsSelectDefault(other);
  }

  lemma CountSelected(k: nat)
    requires 1 <= k <= 10
    ensures ParseThreads(NatToString(k)) == k
  {
    var s := NatToString(k);
    assert IsDigit(s[0]) && IsDigit(s[|s| - 1]);
    StripUnspaced(s);
    assert Strip(s) == s;
    DigitsValueOfNatToString(k);
  }

  lemma NonDigitsSelectDefault(other: string)
    requires forall i :: 0 <= i < |other| ==> !IsDigit(other[i])
    ensures ParseThreads(other) == 5
  {
    var t := Strip(other);
    if t != [] {
      StripSurroundings(other);
      var pre, post :| AllSpace(pre) && AllSpace(post) && other == pre + t + post;
      assert t[0] == other[|pre|];
      assert !IsDigits(t);
    }
  }

  /** The scanner object. `fetchLog` records the URLs fetched by the crawl, in order. */
  class VulnerabilityScanner {
    const targetUrl: string
    const web: Web
    const maxWorkers: int
    var crawledUrls: set<string>
    var forms: seq<string>
    var vulnerabilities: seq<Finding>
    ghost var fetchLog: seq<string>

    ghost function State(): CrawlState
      reads this
    {
      CrawlState(crawledUrls, forms, fetchLog)
    }

    /** The target is kept without trailing slashes; nothing is crawled or found yet. */
    constructor(target: string, web: Web, maxWorkers: int)
      ensures targetUrl == RStripSlash(target) && this.web == web && this.maxWorkers == maxWorkers
      ensures crawledUrls == {} && forms == [] && vulnerabilities == [] && fetchLog == []
    {
      targetUrl := RStripSlash(target);
      this.web := web;
      this.maxWorkers := maxWorkers;
      crawledUrls := {};
      forms := [];
      vulnerabilities := [];
      fetchLog := [];
    }

    /** `crawl_website(start_url, max_depth, current_depth)`. */
    method CrawlWebsite(startUrl: string, maxDepth: int, currentDepth: int)
      modifies this
      ensures State() == Crawl(web, targetUrl, startUrl, maxDepth, currentDepth, old(State()))
      ensures vulnerabilities == old(vulnerabilities)
      decreases maxDepth - currentDepth
    {
      if currentDepth >= maxDepth || startUrl in crawledUrls {
        return;
      }
      crawledUrls := crawledUrls + {startUrl};
      fetchLog := fetchLog + [startUrl];
      var response := web.get(startUrl);
      if response.None? {
        return;
      }
      var body := response.value;
      var links := Take8(Hrefs(body));
      ghost var marked := State();
      var i := 0;
      while i < |links|
        invariant 0 <= i <= |links|
        invariant CrawlLinks(web, targetUrl, startUrl, maxDepth, currentDepth, links[i..], State())
               == CrawlLinks(web, targetUrl, startUrl, maxDepth, currentDepth, links, marked)
        invariant vulnerabilities == old(vulnerabilities)
      {
        ghost var here := State();
        var fullUrl := ResolveLink(targetUrl, startUrl, links[i]);
        if Contains(fullUrl, targetUrl) && fullUrl !in crawledUrls {
          CrawlWebsite(fullUrl, maxDepth, currentDepth + 1);
        }
        assert links[i..][1..] == links[i + 1..];
        assert CrawlLinks(web, targetUrl, startUrl, maxDepth, currentDepth, links[i..], here)
            == CrawlLinks(web, targetUrl, startUrl, maxDepth, currentDepth, links[i + 1..], State());
        i := i + 1;
      }
      assert links[|links|..] == [];
      AppendForms(startUrl, web.formActions(body));
    }

    /** The form loop of one page: each non-empty action, resolved, is appended to `forms`. */
    method AppendForms(page: string, actions: seq<string>)
      modifies this
      ensures forms == old(forms) + ResolveForms(targetUrl, page, actions)
      ensures crawledUrls == old(crawledUrls) && fetchLog == old(fetchLog) && vulnerabilities == old(vulnerabilities)
    {
      var j := 0;
      while j < |actions|
        invariant 0 <= j <= |actions|
        invariant forms == old(forms) + ResolveForms(targetUrl, page, actions[..j])
        invariant crawledUrls == old(crawledUrls) && fetchLog == old(fetchLog) && vulnerabilities == old(vulnerabilities)
      {
        var action := actions[j];
        if action != [] {
          var formUrl := if StartsWith(action, "/") then targetUrl + action
                         else if !StartsWith(action, "http") then RStripSlash(page) + "/" + action
                         else action;
          forms := forms + [formUrl];
        }
        assert actions[..j + 1][..j] == actions[..j];
        j := j + 1;
      }
      assert actions[..|actions|] == actions;
    }

    /**
     * `scan_vulnerabilities_parallel()`. `schedule` is the order in which the pool
     * completes the tasks, any permutation of them; `listed` is the order of
     * `list(crawled_urls)`, `taskFindings` what the task phase extends by and
     * `headerFindings` what the header check of the target appends. The pool
     * needs at least one worker: with fewer it raises before any task runs.
     */
    method ScanVulnerabilitiesParallel(schedule: seq<Task> -> seq<Task>)
      returns (ghost listed: seq<string>, ghost taskFindings: seq<Finding>, ghost headerFindings: seq<Finding>)
      requires maxWorkers >= 1
      requires forall ts :: multiset(schedule(ts)) == multiset(ts)
      modifies this
      ensures NoDuplicates(listed) && Elems(listed) == crawledUrls
      ensures multiset(taskFindings) == multiset(AllFindings(web, CrossTasks(listed + forms)))
      ensures headerFindings == HeaderCheck(web, targetUrl)
      ensures vulnerabilities == old(vulnerabilities) + taskFindings + headerFindings
      ensures crawledUrls == old(crawledUrls) && forms == old(forms) && fetchLog == old(fetchLog)
    {
      var urls := ListSet(crawledUrls);
      listed := urls;
      var allUrls := urls + forms;
      var tasks := BuildTasks(allUrls);
      var order := schedule(tasks);
      var found := RunTasks(web, order);
      assert multiset(order) == multiset(tasks);
      FindingsIgnoreOrder(web, order, tasks);
      taskFindings := found;
      var headers := CheckSecurityHeaders(web, targetUrl);
      assert headers == HeaderCheck(web, targetUrl);
      headerFindings := headers;
      vulnerabilities := vulnerabilities + found + headers;
    }

    /**
     * The first two phases of `run_scan()` on a new scanner: the crawl from the target
     * with the default depth, then the probe phase.
     */
    method RunScan(schedule: seq<Task> -> seq<Task>)
      returns (ghost listed: seq<string>, ghost taskFindings: seq<Finding>, ghost headerFindings: seq<Finding>)
      requires maxWorkers >= 1
      requires forall ts :: multiset(schedule(ts)) == multiset(ts)
      requires crawledUrls == {} && forms == [] && vulnerabilities == [] && fetchLog == []
      modifies this
      ensures targetUrl in crawledUrls && SameOrigin(targetUrl, State()) && FetchedOnce(State())
      ensures web.get(targetUrl).None? ==> crawledUrls == {targetUrl} && forms == []
      ensures web.get(targetUrl).Some? ==>
        crawledUrls <= {targetUrl} + Resolved(targetUrl, targetUrl, Take8(Hrefs(web.get(targetUrl).value)))
      ensures |fetchLog| <= 9
      ensures NoDuplicates(listed) && Elems(listed) == crawledUrls
      ensures multiset(taskFindings) == multiset(AllFindings(web, CrossTasks(listed + forms)))
      ensures headerFindings == HeaderCheck(web, targetUrl)
      ensures vulnerabilities == taskFindings + headerFindings
    {
      assert State() == Empty;
      CrawlWebsite(targetUrl, 2, 0);
      DefaultCrawl(web, targetUrl);
      ghost var crawled := State();
      assert targetUrl in crawled.visited && SameOrigin(targetUrl, crawled) && FetchedOnce(crawled) && |crawled.fetched| <= 9;
      listed, taskFindings, headerFindings := ScanVulnerabilitiesParallel(schedule);
      assert State() == crawled;
      assert [] + taskFindings == taskFindings;
    }
  }
}
