/**
 * `crawl_website` of scanner_vulnerabilites_v2.py as a function of the page
 * oracle and of the crawl state: a depth-bounded depth-first traversal that
 * threads the visited set and the form list through every recursive call.
 */
module Crawler {
  import opened Wrappers
  import opened Text
  import opened Seqs
  import opened Types

  /** The characters that end an `href=` capture: a quote, a space or `>`. */
  predicate IsHrefStop(c: char) {
    c == '\'' || c == '"' || c == ' ' || c == '>'
  }

  /** The longest prefix of `s` free of stop characters (the greedy `[^'" >]+`). */
  function HrefRun(s: string): (r: string)
    ensures |r| <= |s| && r == s[..|r|]
    ensures forall i :: 0 <= i < |r| ==> !IsHrefStop(r[i])
    ensures |r| < |s| ==> IsHrefStop(s[|r|])
  {
    if s == [] || IsHrefStop(s[0]) then [] else [s[0]] + HrefRun(s[1..])
  }

  /**
   * The captures of `re.findall(r'href=[\'"]?([^\'" >]+)', text)`: at each
   * position `href=`, an optional quote and a non-empty run; a position that does
   * not match is skipped one character at a time, a match resumes after itself.
   */
  function Hrefs(s: string): seq<string>
    decreases |s|
  {
    if |s| < 5 then []
    else if s[..5] == "href=" then
      var rest := s[5..];
      var q := if rest != [] && (rest[0] == '\'' || rest[0] == '"') then 1 else 0;
      var run := HrefRun(rest[q..]);
      if run != [] then [run] + Hrefs(rest[q + |run|..]) else Hrefs(s[1..])
    else Hrefs(s[1..])
  }

  predicate IsHref(h: string) {
    h != [] && forall i :: 0 <= i < |h| ==> !IsHrefStop(h[i])
  }

  /** Every capture is a non-empty run without quotes, spaces or `>`. */
  lemma {:induction false} HrefsWellFormed(s: string)
    ensures forall h :: h in Hrefs(s) ==> IsHref(h)
    decreases |s|
  {
    if |s| >= 5 {
      var rest := s[5..];
      var q := if rest != [] && (rest[0] == '\'' || rest[0] == '"') then 1 else 0;
      var run := HrefRun(rest[q..]);
      if s[..5] == "href=" && run != [] {
        HrefsWellFormed(rest[q + |run|..]);
      } else {
        HrefsWellFormed(s[1..]);
      }
    }
  }

  /** A page whose text never contains `href=` yields no links. */
  lemma {:induction false} NoHrefNoLinks(s: string)
    requires !Contains(s, "href=")
    ensures Hrefs(s) == []
    decreases |s|
  {
    if |s| >= 5 {
      assert !StartsWith(s, "href=");
      assert s[..5] != "href=";
      NoHrefNoLinks(s[1..]);
    }
  }

  /** `links[:8]`. */
  function Take8(links: seq<string>): (r: seq<string>)
    ensures |r| <= 8 && |r| <= |links| && r == links[..|r|]
    ensures |links| <= 8 ==> r == links
  {
    if |links| <= 8 then links else links[..8]
  }

  /** A link of a page: absolute when it starts with `http`, target-relative after `/`, else page-relative. */
  function ResolveLink(target: string, page: string, link: string): string {
    if StartsWith(link, "http") then link
    else if StartsWith(link, "/") then target + link
    else RStripSlash(page) + "/" + link
  }

  /** A form action of a page: the same three rules, tested in the order `/`, not `http`, as-is. */
  function ResolveForm(target: string, page: string, action: string): string {
    if StartsWith(action, "/") then target + action
    else if !StartsWith(action, "http") then RStripSlash(page) + "/" + action
    else action
  }

  /** The two rule orders agree on every non-empty text. */
  lemma FormRuleIsLinkRule(target: string, page: string, a: string)
    requires a != []
    ensures ResolveForm(target, page, a) == ResolveLink(target, page, a)
  {
    if StartsWith(a, "/") {
      assert a[0] == '/';
      assert a[..1] != "h";
      assert !StartsWith(a, "http") by {
        if |a| >= 4 { assert a[..4][0] == '/'; }
      }
    }
  }

  /** The form URLs one page contributes: every non-empty action, resolved, in order, duplicates kept. */
  function ResolveForms(target: string, page: string, actions: seq<string>): seq<string> {
    if actions == [] then []
    else
      var a := actions[|actions| - 1];
      ResolveForms(target, page, actions[..|actions| - 1])
      + (if a != [] then [ResolveForm(target, page, a)] else [])
  }

  function IsNonEmpty(a: string): bool { a != [] }

  /** One form URL per non-empty action, each the link rule applied to some action. */
  lemma {:induction false} ResolveFormsExact(target: string, page: string, actions: seq<string>)
    ensures var r := ResolveForms(target, page, actions);
      && |r| == Count(actions, IsNonEmpty)
      && forall f :: f in r ==> exists k :: 0 <= k < |actions| && actions[k] != [] && f == ResolveLink(target, page, actions[k])
  {
    if actions != [] {
      var init := actions[..|actions| - 1];
      var a := actions[|actions| - 1];
      ResolveFormsExact(target, page, init);
      var r := ResolveForms(target, page, actions);
      forall f | f in r
        ensures exists k :: 0 <= k < |actions| && actions[k] != [] && f == ResolveLink(target, page, actions[k])
      {
        if f in ResolveForms(target, page, init) {
          var k :| 0 <= k < |init| && init[k] != [] && f == ResolveLink(target, page, init[k]);
          assert actions[k] == init[k];
        } else {
          assert a != [] && f == ResolveForm(target, page, a);
          FormRuleIsLinkRule(target, page, a);
        }
      }
    }
  }

  /** The crawler's fields: `crawled_urls`, `forms`, and the URLs fetched, in fetch order. */
  datatype CrawlState = CrawlState(visited: set<string>, forms: seq<string>, fetched: seq<string>)

  /**
   * `crawl_website(url, max_depth, depth)` from state `st`: nothing happens at the
   * depth bound or for a visited URL; otherwise the URL is marked, then fetched,
   * then its first 8 links are followed and its form actions appended.
   */
  function Crawl(w: Web, target: string, url: string, maxDepth: int, depth: int, st: CrawlState): CrawlState
    decreases maxDepth - depth, 1
  {
    if depth >= maxDepth || url in st.visited then st
    else
      var marked := st.(visited := st.visited + {url}, fetched := st.fetched + [url]);
      match w.get(url)
      case None => marked
      case Some(body) =>
        var linked := CrawlLinks(w, target, url, maxDepth, depth, Take8(Hrefs(body)), marked);
        linked.(forms := linked.forms + ResolveForms(target, url, w.formActions(body)))
  }

  /** The link loop of one page: follow each resolved link that contains the target and is not yet crawled. */
  function CrawlLinks(w: Web, target: string, page: string, maxDepth: int, depth: int, links: seq<string>, st: CrawlState): CrawlState
    requires depth < maxDepth
    decreases maxDepth - depth, 0, |links|
  {
    if links == [] then st
    else
      var full := ResolveLink(target, page, links[0]);
      var next := if Contains(full, target) && full !in st.visited then Crawl(w, target, full, maxDepth, depth + 1, st) else st;
      CrawlLinks(w, target, page, maxDepth, depth, links[1..], next)
  }

  /** Every URL fetched is in the visited set and was fetched exactly once. */
  predicate FetchedOnce(st: CrawlState) {
    st.visited == Elems(st.fetched) && NoDuplicates(st.fetched)
  }

  predicate IsPrefix<T(==)>(a: seq<T>, b: seq<T>) {
    |a| <= |b| && b[..|a|] == a
  }

  lemma MarkKeepsFetchedOnce(st: CrawlState, url: string)
    requires FetchedOnce(st) && url !in st.visited
    ensures FetchedOnce(st.(visited := st.visited + {url}, fetched := st.fetched + [url]))
  {
    var f := st.fetched + [url];
    assert Elems(f) == Elems(st.fetched) + {url} by {
      forall x ensures x in Elems(f) <==> x in Elems(st.fetched) + {url} {
        if x in Elems(f) {
          var i :| 0 <= i < |f| && f[i] == x;
          if i < |st.fetched| { assert st.fetched[i] == x; }
        }
        if x in Elems(st.fetched) {
          var i :| 0 <= i < |st.fetched| && st.fetched[i] == x;
          assert f[i] == x;
        }
        if x == url { assert f[|st.fetched|] == x; }
      }
    }
    forall i, j | 0 <= i < j < |f| ensures f[i] != f[j] {
      if j == |st.fetched| {
        assert st.fetched[i] in Elems(st.fetched);
      } else {
        assert f[i] == st.fetched[i] && f[j] == st.fetched[j];
      }
    }
  }

  /**
   * What a crawl call leaves behind: the state only grows (visited set, fetch log
   * and form list extended at the end); the depth and visited guards change nothing;
   * otherwise the URL ends up visited, and a failed fetch adds it and nothing else;
   * and each URL is fetched at most once.
   */
  lemma {:induction false} CrawlExtends(w: Web, target: string, url: string, maxDepth: int, depth: int, st: CrawlState)
    ensures var r := Crawl(w, target, url, maxDepth, depth, st);
      && st.visited <= r.visited && IsPrefix(st.fetched, r.fetched) && IsPrefix(st.forms, r.forms)
      && (depth >= maxDepth || url in st.visited ==> r == st)
      && (depth < maxDepth ==> url in r.visited)
      && (depth < maxDepth && url !in st.visited && w.get(url).None? ==>
            r == st.(visited := st.visited + {url}, fetched := st.fetched + [url]))
      && (FetchedOnce(st) ==> FetchedOnce(r))
    decreases maxDepth - depth, 1
  {
    if depth < maxDepth && url !in st.visited {
      var marked := st.(visited := st.visited + {url}, fetched := st.fetched + [url]);
      if FetchedOnce(st) {
        MarkKeepsFetchedOnce(st, url);
      }
      PrefixAppend(st.fetched, [url]);
      if w.get(url).Some? {
        var body := w.get(url).value;
        var linked := CrawlLinks(w, target, url, maxDepth, depth, Take8(Hrefs(body)), marked);
        CrawlLinksExtends(w, target, url, maxDepth, depth, Take8(Hrefs(body)), marked);
        PrefixTrans(st.fetched, marked.fetched, linked.fetched);
        PrefixAppend(linked.forms, ResolveForms(target, url, w.formActions(body)));
        PrefixTrans(st.forms, linked.forms, linked.forms + ResolveForms(target, url, w.formActions(body)));
      }
    }
  }

  lemma PrefixAppend<T>(a: seq<T>, b: seq<T>)
    ensures IsPrefix(a, a + b)
  {
    assert (a + b)[..|a|] == a;
  }

  lemma PrefixTrans<T>(a: seq<T>, b: seq<T>, c: seq<T>)
    requires IsPrefix(a, b) && IsPrefix(b, c)
    ensures IsPrefix(a, c)
  {
    assert c[..|a|] == c[..|b|][..|a|];
  }

  lemma {:induction false} CrawlLinksExtends(w: Web, target: string, page: string, maxDepth: int, depth: int, links: seq<string>, st: CrawlState)
    requires depth < maxDepth
    ensures var r := CrawlLinks(w, target, page, maxDepth, depth, links, st);
      && st.visited <= r.visited && IsPrefix(st.fetched, r.fetched) && IsPrefix(st.forms, r.forms)
      && (FetchedOnce(st) ==> FetchedOnce(r))
    decreases maxDepth - depth, 0, |links|
  {
    if links != [] {
      var full := ResolveLink(target, page, links[0]);
      var next := if Contains(full, target) && full !in st.visited then Crawl(w, target, full, maxDepth, depth + 1, st) else st;
      if Contains(full, target) && full !in st.visited {
        CrawlExtends(w, target, full, maxDepth, depth + 1, st);
      }
      CrawlLinksExtends(w, target, page, maxDepth, depth, links[1..], next);
    }
  }

  /** Every visited URL contains the target as a substring. */
  predicate SameOrigin(target: string, st: CrawlState) {
    forall u :: u in st.visited ==> Contains(u, target)
  }

  /** Started from a URL containing the target, the crawl visits only URLs containing the target. */
  lemma {:induction false} CrawlSameOrigin(w: Web, target: string, url: string, maxDepth: int, depth: int, st: CrawlState)
    requires SameOrigin(target, st) && Contains(url, target)
    ensures SameOrigin(target, Crawl(w, target, url, maxDepth, depth, st))
    decreases maxDepth - depth, 1
  {
    if depth < maxDepth && url !in st.visited {
      var marked := st.(visited := st.visited + {url}, fetched := st.fetched + [url]);
      if w.get(url).Some? {
        CrawlLinksSameOrigin(w, target, url, maxDepth, depth, Take8(Hrefs(w.get(url).value)), marked);
      }
    }
  }

  lemma {:induction false} CrawlLinksSameOrigin(w: Web, target: string, page: string, maxDepth: int, depth: int, links: seq<string>, st: CrawlState)
    requires depth < maxDepth && SameOrigin(target, st)
    ensures SameOrigin(target, CrawlLinks(w, target, page, maxDepth, depth, links, st))
    decreases maxDepth - depth, 0, |links|
  {
    if links != [] {
      var full := ResolveLink(target, page, links[0]);
      var next := if Contains(full, target) && full !in st.visited then Crawl(w, target, full, maxDepth, depth + 1, st) else st;
      if Contains(full, target) && full !in st.visited {
        CrawlSameOrigin(w, target, full, maxDepth, depth + 1, st);
      }
      CrawlLinksSameOrigin(w, target, page, maxDepth, depth, links[1..], next);
    }
  }

  /** The most pages a crawl with `levels` levels left can fetch: one, plus eight sub-crawls. */
  function PageBound(levels: nat): nat {
    if levels == 0 then 0 else 1 + 8 * PageBound(levels - 1)
  }

  function Levels(maxDepth: int, depth: int): nat {
    if depth >= maxDepth then 0 else maxDepth - depth
  }

  /** The cap of 8 links and the depth bound limit the number of pages fetched by one crawl. */
  lemma {:induction false} CrawlFetchBound(w: Web, target: string, url: string, maxDepth: int, depth: int, st: CrawlState)
    ensures |Crawl(w, target, url, maxDepth, depth, st).fetched| <= |st.fetched| + PageBound(Levels(maxDepth, depth))
    decreases maxDepth - depth, 1
  {
    if depth < maxDepth && url !in st.visited {
      var marked := st.(visited := st.visited + {url}, fetched := st.fetched + [url]);
      if w.get(url).Some? {
        var links := Take8(Hrefs(w.get(url).value));
        var b := PageBound(Levels(maxDepth, depth + 1));
        CrawlLinksFetchBound(w, target, url, maxDepth, depth, links, marked);
        AtMostEight(|links|, b);
        assert PageBound(Levels(maxDepth, depth)) == 1 + 8 * b;
      }
    }
  }

  lemma {:induction false} CrawlLinksFetchBound(w: Web, target: string, page: string, maxDepth: int, depth: int, links: seq<string>, st: CrawlState)
    requires depth < maxDepth
    ensures |CrawlLinks(w, target, page, maxDepth, depth, links, st).fetched|
            <= |st.fetched| + |links| * PageBound(Levels(maxDepth, depth + 1))
    decreases maxDepth - depth, 0, |links|
  {
    if links != [] {
      var b := PageBound(Levels(maxDepth, depth + 1));
      var full := ResolveLink(target, page, links[0]);
      var next := if Contains(full, target) && full !in st.visited then Crawl(w, target, full, maxDepth, depth + 1, st) else st;
      if Contains(full, target) && full !in st.visited {
        CrawlFetchBound(w, target, full, maxDepth, depth + 1, st);
      }
      CrawlLinksFetchBound(w, target, page, maxDepth, depth, links[1..], next);
      SuccTimes(|links[1..]|, b);
    }
  }

  lemma AtMostEight(n: nat, b: nat)
    requires n <= 8
    ensures n * b <= 8 * b
  {
  }

  lemma SuccTimes(n: nat, b: nat)
    ensures (n + 1) * b == b + n * b
  {
  }

  /** At the last level, the link loop follows nothing: its sub-crawls all hit the depth guard. */
  lemma {:induction false} LastLevelLinks(w: Web, target: string, page: string, maxDepth: int, depth: int, links: seq<string>, st: CrawlState)
    requires depth + 1 == maxDepth
    ensures CrawlLinks(w, target, page, maxDepth, depth, links, st) == st
    decreases |links|
  {
    if links != [] {
      LastLevelLinks(w, target, page, maxDepth, depth, links[1..], st);
    }
  }

  /** The URLs a page's first links resolve to. */
  function Resolved(target: string, page: string, links: seq<string>): set<string> {
    set l | l in links :: ResolveLink(target, page, l)
  }

  /** One level above the last, the link loop visits only the page's resolved links. */
  lemma {:induction false} SecondToLastLevelLinks(w: Web, target: string, page: string, maxDepth: int, depth: int, links: seq<string>, st: CrawlState)
    requires depth + 2 == maxDepth
    ensures CrawlLinks(w, target, page, maxDepth, depth, links, st).visited <= st.visited + Resolved(target, page, links)
    decreases |links|
  {
    if links != [] {
      var full := ResolveLink(target, page, links[0]);
      var next := if Contains(full, target) && full !in st.visited then Crawl(w, target, full, maxDepth, depth + 1, st) else st;
      if Contains(full, target) && full !in st.visited && w.get(full).Some? {
        LastLevelLinks(w, target, full, maxDepth, depth + 1, Take8(Hrefs(w.get(full).value)), st.(visited := st.visited + {full}, fetched := st.fetched + [full]));
      }
      assert next.visited <= st.visited + {full};
      SecondToLastLevelLinks(w, target, page, maxDepth, depth, links[1..], next);
      assert Resolved(target, page, links) == {full} + Resolved(target, page, links[1..]);
    }
  }

  /** With the default `max_depth=2`, a crawl from the target reaches only the target and its first 8 links. */
  lemma DefaultDepthCrawlsDirectLinks(w: Web, target: string, st: CrawlState)
    ensures var r := Crawl(w, target, target, 2, 0, st);
      && (w.get(target).None? ==> r.visited <= st.visited + {target})
      && (w.get(target).Some? ==> r.visited <= st.visited + {target} + Resolved(target, target, Take8(Hrefs(w.get(target).value))))
  {
    if target !in st.visited && w.get(target).Some? {
      var links := Take8(Hrefs(w.get(target).value));
      SecondToLastLevelLinks(w, target, target, 2, 0, links, st.(visited := st.visited + {target}, fetched := st.fetched + [target]));
    }
  }

  /** The crawler's state before the first crawl. */
  const Empty: CrawlState := CrawlState({}, [], [])

  /**
   * The crawl `run_scan` starts, from the target with the default depth, on a fresh
   * scanner: the target is crawled, every crawled URL contains it, each page is
   * fetched once, at most 9 pages are fetched, an unreachable target gives
   * `{target}` and no forms, and a reachable one adds only its first 8 links.
   */
  lemma DefaultCrawl(w: Web, target: string)
    ensures var r := Crawl(w, target, target, 2, 0, Empty);
      && target in r.visited && SameOrigin(target, r) && FetchedOnce(r) && |r.fetched| <= 9
      && (w.get(target).None? ==> r.visited == {target} && r.forms == [])
      && (w.get(target).Some? ==> r.visited <= {target} + Resolved(target, target, Take8(Hrefs(w.get(target).value))))
  {
    CrawlExtends(w, target, target, 2, 0, Empty);
    ContainsPrefix(target, []);
    assert target + [] == target;
    CrawlSameOrigin(w, target, target, 2, 0, Empty);
    CrawlFetchBound(w, target, target, 2, 0, Empty);
    DefaultDepthCrawlsDirectLinks(w, target, Empty);
    assert Elems(Empty.fetched) == {};
  }
}
