/**
 * The URL string rules shared by the CLI entry point, the scanner, the
 * advanced-analysis helpers and the start-scan route.
 */
module Urls {
  import opened Text

  predicate HasScheme(url: string) {
    StartsWith(url, "http://") || StartsWith(url, "https://")
  }

  /** A URL without `http://` or `https://` gets an `http://` prefix (scanner_vulnerabilites_v2.py main, api_flask.py start_scan). */
  function WithScheme(url: string): (r: string)
    ensures HasScheme(r)
    ensures HasScheme(url) ==> r == url
    ensures !HasScheme(url) ==> r == "http://" + url
  {
    if HasScheme(url) then url else "http://" + url
  }

  /** Prefixing is idempotent: a URL that already went through the rule is left alone. */
  lemma WithSchemeIdempotent(url: string)
    ensures WithScheme(WithScheme(url)) == WithScheme(url)
  {
  }

  /** `target.replace(first, "").replace(second, "").split("/")[0]` */
  function ExtractHost(target: string, first: string, second: string): (host: string)
    requires |first| > 0 && |second| > 0
    ensures '/' !in host
  {
    Before(RemoveAll(RemoveAll(target, first), second), '/')
  }

  /** Host used by the port sweep of the scanner (http:// removed first). */
  function PortScanHost(target: string): (host: string)
    ensures '/' !in host
  {
    ExtractHost(target, "http://", "https://")
  }

  /** Host with `https://` removed first: the TLS check of the scanner, and both the port sweep and the TLS check of the innovations module. */
  function SchemeStrippedHost(target: string): (host: string)
    ensures '/' !in host
  {
    ExtractHost(target, "https://", "http://")
  }

  predicate IsSchemeText(pat: string) {
    pat == "http://" || pat == "https://"
  }

  /** Removing the occurrences after a prefix that cannot hold the start of one keeps the prefix. */
  lemma {:induction false} RemoveAllKeepsPrefix(u: string, rest: string, pat: string)
    requires |pat| > 0
    requires forall i :: 0 <= i < |u| ==> !StartsWith(u[i..] + rest, pat)
    ensures RemoveAll(u + rest, pat) == u + RemoveAll(rest, pat)
    decreases |u|
  {
    if u != [] {
      var s := u + rest;
      assert u[0..] == u;
      assert !StartsWith(s, pat);
      if |s| >= |pat| {
        assert s[1..] == u[1..] + rest;
        forall i | 0 <= i < |u[1..]| ensures !StartsWith(u[1..][i..] + rest, pat) {
          assert u[1..][i..] == u[i + 1..];
        }
        RemoveAllKeepsPrefix(u[1..], rest, pat);
        assert s[..|pat|] != pat;
        assert RemoveAll(s, pat) == [s[0]] + RemoveAll(s[1..], pat);
        assert [u[0]] + (u[1..] + RemoveAll(rest, pat)) == u + RemoveAll(rest, pat);
      } else {
        assert RemoveAll(rest, pat) == rest;
        assert RemoveAll(s, pat) == s;
      }
    } else {
      assert u + rest == rest;
    }
  }

  /** A scheme text cannot start inside a host name (no ':' in it) that is followed by a path. */
  lemma SchemeNotInHost(h: string, q: string, pat: string)
    requires IsSchemeText(pat) && ':' !in h
    requires q == [] || q[0] == '/'
    ensures forall i :: 0 <= i < |h| ==> !StartsWith(h[i..] + q, pat)
  {
    var colon := if pat == "http://" then 4 else 5;
    assert pat[colon] == ':';
    forall i | 0 <= i < |h| ensures !StartsWith(h[i..] + q, pat) {
      var w := h[i..] + q;
      if |w| >= |pat| {
        if |h| - i > colon {
          assert w[colon] == h[i + colon] != ':';
        } else {
          assert w[|h| - i] == q[0] == '/';
          assert pat[|h| - i] != '/';
        }
        assert w[..|pat|] != pat;
      }
    }
  }

  /** Removing one scheme text leaves the other scheme text in front. */
  lemma OtherSchemeKept(scheme: string, pat: string, rest: string)
    requires IsSchemeText(scheme) && IsSchemeText(pat) && scheme != pat
    ensures RemoveAll(scheme + rest, pat) == scheme + RemoveAll(rest, pat)
  {
    forall i | 0 <= i < |scheme| ensures !StartsWith(scheme[i..] + rest, pat) {
      var w := scheme[i..] + rest;
      if |w| >= |pat| {
        if i == 0 {
          assert w[4] == scheme[4] != pat[4];
        } else {
          assert w[0] == scheme[i] != 'h';
        }
        assert w[..|pat|] != pat;
      }
    }
    RemoveAllKeepsPrefix(scheme, rest, pat);
  }

  lemma RemoveAllSlashFront(q: string, pat: string)
    requires IsSchemeText(pat)
    requires q == [] || q[0] == '/'
    ensures var r := RemoveAll(q, pat); r == [] || r[0] == '/'
  {
  }

  lemma {:induction false} BeforeSlash(h: string, q: string)
    requires '/' !in h
    requires q == [] || q[0] == '/'
    ensures Before(h + q, '/') == h
    decreases |h|
  {
    if h != [] {
      assert (h + q)[1..] == h[1..] + q;
      BeforeSlash(h[1..], q);
    }
  }

  /** Removing a scheme text from a host followed by a path keeps the host. */
  lemma HostKept(pat: string, h: string, q: string)
    requires IsSchemeText(pat) && ':' !in h
    requires q == [] || q[0] == '/'
    ensures RemoveAll(h + q, pat) == h + RemoveAll(q, pat)
  {
    SchemeNotInHost(h, q, pat);
    RemoveAllKeepsPrefix(h, q, pat);
  }

  /** Removing a scheme text from that scheme, a host and a path leaves the host and the path with it removed. */
  lemma StripSameScheme(pat: string, h: string, q: string)
    requires IsSchemeText(pat) && ':' !in h
    requires q == [] || q[0] == '/'
    ensures RemoveAll(pat + h + q, pat) == h + RemoveAll(q, pat)
  {
    HostKept(pat, h, q);
    assert pat + h + q == pat + (h + q);
    assert (pat + (h + q))[..|pat|] == pat;
    assert (pat + (h + q))[|pat|..] == h + q;
  }

  /** Removing the other scheme text keeps the scheme and the host. */
  lemma StripOtherScheme(scheme: string, pat: string, h: string, q: string)
    requires IsSchemeText(pat) && IsSchemeText(scheme) && scheme != pat && ':' !in h
    requires q == [] || q[0] == '/'
    ensures RemoveAll(scheme + h + q, pat) == scheme + h + RemoveAll(q, pat)
  {
    OtherSchemeKept(scheme, pat, h + q);
    HostKept(pat, h, q);
    KeptTwice(scheme, h, q, pat);
  }

  lemma KeptTwice(a: string, b: string, rest: string, pat: string)
    requires |pat| > 0
    requires RemoveAll(a + (b + rest), pat) == a + RemoveAll(b + rest, pat)
    requires RemoveAll(b + rest, pat) == b + RemoveAll(rest, pat)
    ensures RemoveAll(a + b + rest, pat) == a + b + RemoveAll(rest, pat)
  {
    assert a + b + rest == a + (b + rest);
  }

  /** Both removal orders recover the host name of a well-formed `http://` or `https://` URL. */
  lemma ExtractHostOfUrl(first: string, second: string, scheme: string, h: string, path: string)
    requires IsSchemeText(first) && IsSchemeText(second) && first != second
    requires IsSchemeText(scheme)
    requires ':' !in h && '/' !in h
    requires path == [] || path[0] == '/'
    ensures ExtractHost(scheme + h + path, first, second) == h
  {
    var q1 := RemoveAll(path, first);
    RemoveAllSlashFront(path, first);
    var q2 := RemoveAll(q1, second);
    var r1 := RemoveAll(scheme + h + path, first);
    if scheme == first {
      StripSameScheme(first, h, path);
      assert r1 == h + q1;
      HostKept(second, h, q1);
      assert RemoveAll(r1, second) == h + q2;
    } else {
      StripOtherScheme(scheme, first, h, path);
      assert r1 == scheme + h + q1;
      assert scheme == second;
      StripSameScheme(second, h, q1);
      assert RemoveAll(r1, second) == h + q2;
    }
    RemoveAllSlashFront(q1, second);
    BeforeSlash(h, q2);
  }

  /** The port sweep and the TLS check agree on the host of every well-formed URL. */
  lemma HostOfUrl(scheme: string, h: string, path: string)
    requires IsSchemeText(scheme)
    requires ':' !in h && '/' !in h
    requires path == [] || path[0] == '/'
    ensures PortScanHost(scheme + h + path) == h
    ensures SchemeStrippedHost(scheme + h + path) == h
  {
    ExtractHostOfUrl("http://", "https://", scheme, h, path);
    ExtractHostOfUrl("https://", "http://", scheme, h, path);
  }
}
