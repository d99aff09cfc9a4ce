/**
 * The per-surface probes of scanner_vulnerabilites_v2.py: `test_vulnerability`
 * (one task: a surface URL and a class) and `check_security_headers`.
 */
module Probes {
  import opened Wrappers
  import opened Text
  import opened Types
  import Seqs

  const SqlPayloads: seq<string> := ["' OR '1'='1", "' UNION SELECT NULL--", "1' AND 1=1--"]
  /** The database-error patterns; the regular-expression engine itself is the `search` oracle. */
  const SqlErrorPatterns: seq<string> := ["SQL syntax.*MySQL", "Warning.*mysql_.*", "PostgreSQL.*ERROR", "ORA-[0-9]{4}"]
  const XssPayloads: seq<string> := ["<script>alert('XSS')</script>", "<img src=x onerror=alert('XSS')>"]
  const TraversalPayloads: seq<string> := ["../../../etc/passwd", "..\\..\\..\\windows\\system32\\drivers\\etc\\hosts"]
  const CommandPayloads: seq<string> := ["; ls", "| whoami", "$(id)"]

  function Payloads(c: VulnClass): seq<string> {
    match c
    case Sql => SqlPayloads
    case Xss => XssPayloads
    case Traversal => TraversalPayloads
    case Command => CommandPayloads
  }

  function KindOf(c: VulnClass): string {
    match c
    case Sql => "SQL Injection"
    case Xss => "Cross-Site Scripting (XSS)"
    case Traversal => "Directory Traversal"
    case Command => "Command Injection"
  }

  function SeverityOf(c: VulnClass): string {
    match c
    case Sql => "HIGH"
    case Xss => "MEDIUM"
    case Traversal => "HIGH"
    case Command => "CRITICAL"
  }

  function DescriptionOf(c: VulnClass): string {
    match c
    case Sql => "Erreur SQL detectee dans la reponse"
    case Xss => "Script injecte detecte dans la reponse"
    case Traversal => "Acces non autorise aux fichiers systeme detecte"
    case Command => "Execution de commandes systeme detectee"
  }

  /** The finding a matching payload produces; its url is the bare surface URL. */
  function FindingFor(url: string, c: VulnClass, payload: string): Finding {
    Finding(KindOf(c), url, payload, SeverityOf(c), DescriptionOf(c))
  }

  predicate IsUnreserved(c: char) {
    ('a' <= c <= 'z') || ('A' <= c <= 'Z') || ('0' <= c <= '9') || c == '_' || c == '.' || c == '-' || c == '~'
  }

  function HexDigit(d: nat): char
    requires d < 16
  {
    if d < 10 then ('0' as int + d) as char else ('A' as int + d - 10) as char
  }

  /** `urllib.parse.quote(s)` for ASCII text: letters, digits, `_.-~` and `/` stay, every other character becomes `%XX`. */
  function Quote(s: string): string
    requires forall i :: 0 <= i < |s| ==> s[i] as int < 128
  {
    if s == [] then ""
    else
      var c := s[0];
      (if IsUnreserved(c) || c == '/' then [c] else ['%', HexDigit(c as int / 16), HexDigit(c as int % 16)])
      + Quote(s[1..])
  }

  /** The probe URL: the payload as a query parameter, URL-quoted for XSS and command injection. */
  function ProbeUrl(url: string, c: VulnClass, payload: string): string {
    match c
    case Sql => url + "?id=" + payload
    case Xss => url + "?q=" + (if forall i :: 0 <= i < |payload| ==> payload[i] as int < 128 then Quote(payload) else payload)
    case Traversal => url + "?file=" + payload
    case Command => url + "?cmd=" + (if forall i :: 0 <= i < |payload| ==> payload[i] as int < 128 then Quote(payload) else payload)
  }

  /** Some database-error pattern matches the text (the pattern loop stops at the first). */
  predicate AnyPatternMatches(w: Web, patterns: seq<string>, text: string) {
    patterns != [] && (w.search(patterns[0], text) || AnyPatternMatches(w, patterns[1..], text))
  }

  /** The detection predicate of each class on a response body. */
  predicate Detects(w: Web, c: VulnClass, payload: string, text: string) {
    match c
    case Sql => AnyPatternMatches(w, SqlErrorPatterns, text)
    case Xss => Contains(text, payload)
    case Traversal => Contains(text, "root:") || Contains(text, "[drivers]")
    case Command => Contains(text, "uid=") || Contains(text, "gid=") || Contains(text, "root:")
  }

  /** The GET of the probe URL succeeds and its body meets the detector; a request that raises is no hit. */
  predicate Hit(w: Web, url: string, c: VulnClass, payload: string) {
    var r := w.get(ProbeUrl(url, c, payload));
    r.Some? && Detects(w, c, payload, r.value)
  }

  /** XSS, traversal and command injection: the first payload that hits, and no other. */
  function FirstHit(w: Web, url: string, c: VulnClass, ps: seq<string>): seq<Finding> {
    if ps == [] then []
    else if Hit(w, url, c, ps[0]) then [FindingFor(url, c, ps[0])]
    else FirstHit(w, url, c, ps[1..])
  }

  /** SQL injection: one finding for every payload that hits (the break leaves only the pattern loop). */
  function EveryHit(w: Web, url: string, c: VulnClass, ps: seq<string>): seq<Finding> {
    if ps == [] then []
    else (if Hit(w, url, c, ps[0]) then [FindingFor(url, c, ps[0])] else []) + EveryHit(w, url, c, ps[1..])
  }

  /** What `test_vulnerability(url, vuln_type)` returns for a task. */
  function TaskFindings(w: Web, t: Task): seq<Finding> {
    if t.cls == Sql then EveryHit(w, t.url, Sql, SqlPayloads)
    else FirstHit(w, t.url, t.cls, Payloads(t.cls))
  }

  /** The first-match search yields at most one finding: that of the first payload that hits. */
  lemma {:induction false} FirstHitIsFirst(w: Web, url: string, c: VulnClass, ps: seq<string>)
    ensures var r := FirstHit(w, url, c, ps);
      && |r| <= 1
      && (r == [] <==> forall k :: 0 <= k < |ps| ==> !Hit(w, url, c, ps[k]))
      && (r != [] ==> exists k :: 0 <= k < |ps| && Hit(w, url, c, ps[k]) && r == [FindingFor(url, c, ps[k])]
                                 && forall j :: 0 <= j < k ==> !Hit(w, url, c, ps[j]))
  {
    if ps != [] {
      FirstHitIsFirst(w, url, c, ps[1..]);
      var r := FirstHit(w, url, c, ps);
      if Hit(w, url, c, ps[0]) {
        assert r == [FindingFor(url, c, ps[0])];
      } else {
        assert forall k :: 1 <= k < |ps| ==> ps[k] == ps[1..][k - 1];
        if r != [] {
          var k :| 0 <= k < |ps[1..]| && Hit(w, url, c, ps[1..][k]) && r == [FindingFor(url, c, ps[1..][k])]
                   && forall j :: 0 <= j < k ==> !Hit(w, url, c, ps[1..][j]);
          assert forall j :: 0 <= j < k + 1 ==> !Hit(w, url, c, ps[j]) by {
            forall j | 0 <= j < k + 1 ensures !Hit(w, url, c, ps[j]) {
              if j > 0 { assert ps[j] == ps[1..][j - 1]; }
            }
          }
          assert Hit(w, url, c, ps[k + 1]) && r == [FindingFor(url, c, ps[k + 1])];
        }
      }
    }
  }

  /** The payloads the findings name, in order. */
  function PayloadsOf(fs: seq<Finding>): (r: seq<string>)
    ensures |r| == |fs| && forall i :: 0 <= i < |fs| ==> r[i] == fs[i].payload
  {
    seq(|fs|, i requires 0 <= i < |fs| => fs[i].payload)
  }

  function HitBy(w: Web, url: string, c: VulnClass): string -> bool {
    p => Hit(w, url, c, p)
  }

  /**
   * The payload-by-payload search yields exactly the findings of the payloads that
   * hit: one finding per hitting payload, in the order of the payload list.
   */
  lemma EveryHitIsEvery(w: Web, url: string, c: VulnClass, ps: seq<string>)
    ensures var r := EveryHit(w, url, c, ps);
      && |r| <= |ps|
      && (forall f :: f in r ==> exists k :: 0 <= k < |ps| && Hit(w, url, c, ps[k]) && f == FindingFor(url, c, ps[k]))
      && (forall k :: 0 <= k < |ps| && Hit(w, url, c, ps[k]) ==> FindingFor(url, c, ps[k]) in r)
      && |r| == Seqs.Count(ps, HitBy(w, url, c))
      && Seqs.Subsequence(PayloadsOf(r), ps)
  {
    EveryHitSound(w, url, c, ps);
    EveryHitComplete(w, url, c, ps);
    EveryHitInOrder(w, url, c, ps);
  }

  /** As many findings as payloads that hit, naming those payloads in the list's order. */
  lemma EveryHitInOrder(w: Web, url: string, c: VulnClass, ps: seq<string>)
    ensures var r := EveryHit(w, url, c, ps);
      && |r| == Seqs.Count(ps, HitBy(w, url, c))
      && Seqs.Subsequence(PayloadsOf(r), ps)
  {
    EveryHitCount(w, url, c, ps);
    EveryHitPayloads(w, url, c, ps);
  }

  lemma {:induction false} EveryHitCount(w: Web, url: string, c: VulnClass, ps: seq<string>)
    ensures |EveryHit(w, url, c, ps)| == Seqs.Count(ps, HitBy(w, url, c))
  {
    if ps != [] {
      EveryHitCount(w, url, c, ps[1..]);
      Seqs.CountCons(ps, HitBy(w, url, c));
    }
  }

  lemma {:induction false} EveryHitPayloads(w: Web, url: string, c: VulnClass, ps: seq<string>)
    ensures Seqs.Subsequence(PayloadsOf(EveryHit(w, url, c, ps)), ps)
  {
    if ps != [] {
      EveryHitPayloads(w, url, c, ps[1..]);
      var rest := EveryHit(w, url, c, ps[1..]);
      var names := PayloadsOf(rest);
      assert [ps[0]] + ps[1..] == ps;
      Seqs.SubsequenceCons(ps[0], names, ps[1..]);
      if Hit(w, url, c, ps[0]) {
        assert PayloadsOf([FindingFor(url, c, ps[0])] + rest) == [ps[0]] + names;
      } else {
        assert EveryHit(w, url, c, ps) == rest;
      }
    }
  }

  /** Each finding of the search comes from a payload that hits; there are no more findings than payloads. */
  lemma {:induction false} EveryHitSound(w: Web, url: string, c: VulnClass, ps: seq<string>)
    ensures var r := EveryHit(w, url, c, ps);
      && |r| <= |ps|
      && (forall f :: f in r ==> exists k :: 0 <= k < |ps| && Hit(w, url, c, ps[k]) && f == FindingFor(url, c, ps[k]))
  {
    if ps != [] {
      EveryHitSound(w, url, c, ps[1..]);
      var head := if Hit(w, url, c, ps[0]) then [FindingFor(url, c, ps[0])] else [];
      var r := EveryHit(w, url, c, ps);
      assert r == head + EveryHit(w, url, c, ps[1..]);
      forall f | f in r ensures exists k :: 0 <= k < |ps| && Hit(w, url, c, ps[k]) && f == FindingFor(url, c, ps[k]) {
        if f in head {
          assert Hit(w, url, c, ps[0]) && f == FindingFor(url, c, ps[0]);
        } else {
          assert f in EveryHit(w, url, c, ps[1..]);
          var k :| 0 <= k < |ps[1..]| && Hit(w, url, c, ps[1..][k]) && f == FindingFor(url, c, ps[1..][k]);
          assert ps[1..][k] == ps[k + 1];
        }
      }
    }
  }

  /** Every payload that hits contributes its finding. */
  lemma {:induction false} EveryHitComplete(w: Web, url: string, c: VulnClass, ps: seq<string>)
    ensures forall k :: 0 <= k < |ps| && Hit(w, url, c, ps[k]) ==> FindingFor(url, c, ps[k]) in EveryHit(w, url, c, ps)
  {
    if ps != [] {
      EveryHitComplete(w, url, c, ps[1..]);
      var head := if Hit(w, url, c, ps[0]) then [FindingFor(url, c, ps[0])] else [];
      var r := EveryHit(w, url, c, ps);
      assert r == head + EveryHit(w, url, c, ps[1..]);
      forall k | 0 <= k < |ps| && Hit(w, url, c, ps[k]) ensures FindingFor(url, c, ps[k]) in r {
        if k > 0 {
          assert ps[k] == ps[1..][k - 1];
        }
      }
    }
  }

  /** Every finding of a task names the bare surface URL and the class's fixed type and severity. */
  lemma TaskFindingsShape(w: Web, t: Task)
    ensures var r := TaskFindings(w, t);
      && |r| <= (if t.cls == Sql then 3 else 1)
      && forall f :: f in r ==> f.url == t.url && f.kind == KindOf(t.cls) && f.severity == SeverityOf(t.cls)
                                && f.payload in Payloads(t.cls)
  {
    var ps := Payloads(t.cls);
    if t.cls == Sql {
      EveryHitIsEvery(w, t.url, Sql, ps);
    } else {
      FirstHitIsFirst(w, t.url, t.cls, ps);
    }
  }

  /** Unlike the other classes, one SQL task can report all three payloads. */
  lemma SqlTaskCanReportEveryPayload(w: Web, url: string)
    requires forall k :: 0 <= k < |SqlPayloads| ==> Hit(w, url, Sql, SqlPayloads[k])
    ensures TaskFindings(w, Task(url, Sql)) ==
      [FindingFor(url, Sql, SqlPayloads[0]), FindingFor(url, Sql, SqlPayloads[1]), FindingFor(url, Sql, SqlPayloads[2])]
  {
    var ps := SqlPayloads;
    assert Hit(w, url, Sql, ps[0]) && Hit(w, url, Sql, ps[1]) && Hit(w, url, Sql, ps[2]);
    assert ps[1..][0] == ps[1] && ps[1..][1..][0] == ps[2] && ps[1..][1..][1..] == [];
    assert EveryHit(w, url, Sql, ps[1..][1..][1..]) == [];
    assert EveryHit(w, url, Sql, ps[1..][1..]) == [FindingFor(url, Sql, ps[2])];
    assert EveryHit(w, url, Sql, ps[1..]) == [FindingFor(url, Sql, ps[1]), FindingFor(url, Sql, ps[2])];
  }

  /** `test_vulnerability` for XSS, traversal and command injection: stop at the first payload that hits. */
  method ProbeFirstMatch(w: Web, url: string, c: VulnClass) returns (results: seq<Finding>)
    requires c != Sql
    ensures results == FirstHit(w, url, c, Payloads(c))
  {
    results := ProbeUntilHit(w, url, c, Payloads(c));
  }

  /** The payload loop of the other probes, over any payload list: it stops at the first hit. */
  method ProbeUntilHit(w: Web, url: string, c: VulnClass, payloads: seq<string>) returns (results: seq<Finding>)
    ensures results == FirstHit(w, url, c, payloads)
  {
    results := [];
    var i := 0;
    while i < |payloads|
      invariant 0 <= i <= |payloads|
      invariant results == [] && FirstHit(w, url, c, payloads[i..]) == FirstHit(w, url, c, payloads)
    {
      var payload := payloads[i];
      var response := w.get(ProbeUrl(url, c, payload));
      if response.Some? && Detects(w, c, payload, response.value) {
        results := results + [FindingFor(url, c, payload)];
        break;
      }
      i := i + 1;
    }
  }

  /** The pattern loop of the SQL probe: it stops at the first database-error pattern found in the body. */
  method MatchesSqlError(w: Web, text: string) returns (matched: bool)
    ensures matched == AnyPatternMatches(w, SqlErrorPatterns, text)
  {
    matched := MatchesAny(w, SqlErrorPatterns, text);
  }

  /** The pattern loop over any pattern list. */
  method MatchesAny(w: Web, patterns: seq<string>, text: string) returns (matched: bool)
    ensures matched == AnyPatternMatches(w, patterns, text)
  {
    matched := false;
    var j := 0;
    while j < |patterns|
      invariant 0 <= j <= |patterns|
      invariant AnyPatternMatches(w, patterns[j..], text) == AnyPatternMatches(w, patterns, text)
    {
      if w.search(patterns[j], text) {
        matched := true;
        return;
      }
      assert patterns[j..][1..] == patterns[j + 1..];
      j := j + 1;
    }
  }

  /** `test_vulnerability` for SQL injection: every payload is tried, each reporting at most once. */
  method ProbeSql(w: Web, url: string) returns (results: seq<Finding>)
    ensures results == EveryHit(w, url, Sql, SqlPayloads)
  {
    results := ProbeSqlPayloads(w, url, SqlPayloads);
  }

  /** The payload loop of the SQL probe, over any payload list. */
  method ProbeSqlPayloads(w: Web, url: string, payloads: seq<string>) returns (results: seq<Finding>)
    ensures results == EveryHit(w, url, Sql, payloads)
  {
    results := [];
    var i := 0;
    while i < |payloads|
      invariant 0 <= i <= |payloads|
      invariant results + EveryHit(w, url, Sql, payloads[i..]) == EveryHit(w, url, Sql, payloads)
    {
      var payload := payloads[i];
      EveryHitStep(w, url, Sql, payloads, i);
      var response := w.get(ProbeUrl(url, Sql, payload));
      var found := false;
      if response.Some? {
        found := MatchesSqlError(w, response.value);
      }
      SqlHit(w, url, payload, response, found);
      var step := if found then [FindingFor(url, Sql, payload)] else [];
      Seqs.ShiftStep(results, step, EveryHit(w, url, Sql, payloads[i + 1..]), EveryHit(w, url, Sql, payloads));
      results := results + step;
      i := i + 1;
    }
  }

  /** The response of one SQL probe, tested against the error patterns, is a hit exactly when `found`. */
  lemma SqlHit(w: Web, url: string, payload: string, response: Option<string>, found: bool)
    requires response == w.get(ProbeUrl(url, Sql, payload))
    requires found == (response.Some? && AnyPatternMatches(w, SqlErrorPatterns, response.value))
    ensures found == Hit(w, url, Sql, payload)
  {
  }

  /** One payload of the search: its finding, when it hits, comes before those of the later payloads. */
  lemma EveryHitStep(w: Web, url: string, c: VulnClass, ps: seq<string>, i: nat)
    requires i < |ps|
    ensures EveryHit(w, url, c, ps[i..])
         == (if Hit(w, url, c, ps[i]) then [FindingFor(url, c, ps[i])] else []) + EveryHit(w, url, c, ps[i + 1..])
  {
    assert ps[i..][1..] == ps[i + 1..];
  }

  /** `test_vulnerability(url, vuln_type)`: the findings of one task. */
  method TestVulnerability(w: Web, url: string, c: VulnClass) returns (results: seq<Finding>)
    ensures results == TaskFindings(w, Task(url, c))
  {
    if c == Sql {
      results := ProbeSql(w, url);
    } else {
      results := ProbeFirstMatch(w, url, c);
    }
  }

  const SecurityHeaders: seq<string> := ["X-Frame-Options", "X-Content-Type-Options", "Strict-Transport-Security"]

  /** Header lookup in a `requests` response is case-insensitive. */
  predicate HasHeader(names: set<string>, header: string) {
    exists n :: n in names && Lower(n) == Lower(header)
  }

  function HeaderFinding(url: string, header: string): Finding {
    Finding("Missing Security Header", url, header, "LOW", "En-tete de securite manquant: " + header)
  }

  /** One finding per header of `headers` that the response lacks, in order. */
  function MissingHeaders(url: string, names: set<string>, headers: seq<string>): seq<Finding> {
    if headers == [] then []
    else (if HasHeader(names, headers[0]) then [] else [HeaderFinding(url, headers[0])])
         + MissingHeaders(url, names, headers[1..])
  }

  /** The header findings are LOW, at most one per header, and exactly for the headers that are absent. */
  lemma {:induction false} MissingHeadersExact(url: string, names: set<string>, headers: seq<string>)
    ensures var r := MissingHeaders(url, names, headers);
      && |r| <= |headers|
      && (forall f :: f in r ==> f.severity == "LOW" && f.url == url && f.payload in headers
                                 && !HasHeader(names, f.payload) && f == HeaderFinding(url, f.payload))
      && (forall h :: h in headers && !HasHeader(names, h) ==> HeaderFinding(url, h) in r)
  {
    if headers != [] {
      MissingHeadersExact(url, names, headers[1..]);
    }
  }

  /** A response with none of the three headers gives exactly three LOW findings, one per header name. */
  lemma AllHeadersMissing(url: string, names: set<string>)
    requires forall h :: h in SecurityHeaders ==> !HasHeader(names, h)
    ensures MissingHeaders(url, names, SecurityHeaders) ==
      [HeaderFinding(url, "X-Frame-Options"), HeaderFinding(url, "X-Content-Type-Options"),
       HeaderFinding(url, "Strict-Transport-Security")]
  {
    var hs := SecurityHeaders;
    assert !HasHeader(names, hs[0]) && !HasHeader(names, hs[1]) && !HasHeader(names, hs[2]);
    assert hs[1..][0] == hs[1] && hs[1..][1..][0] == hs[2] && hs[1..][1..][1..] == [];
    assert MissingHeaders(url, names, hs[1..][1..][1..]) == [];
    assert MissingHeaders(url, names, hs[1..][1..]) == [HeaderFinding(url, hs[2])];
    assert MissingHeaders(url, names, hs[1..]) == [HeaderFinding(url, hs[1]), HeaderFinding(url, hs[2])];
  }

  /** What `check_security_headers(url)` returns. */
  function HeaderCheck(w: Web, url: string): seq<Finding> {
    match w.head(url)
    case None => []
    case Some(names) => MissingHeaders(url, names, SecurityHeaders)
  }

  /** `check_security_headers(url)`: a HEAD of the URL; a request that raises gives no findings. */
  method CheckSecurityHeaders(w: Web, url: string) returns (missing: seq<Finding>)
    ensures w.head(url).None? ==> missing == []
    ensures w.head(url).Some? ==> missing == MissingHeaders(url, w.head(url).value, SecurityHeaders)
  {
    var response := w.head(url);
    if response.None? {
      return [];
    }
    missing := MissingFrom(url, response.value, SecurityHeaders);
  }

  /** The header loop of `check_security_headers`, over any header list. */
  method MissingFrom(url: string, names: set<string>, headers: seq<string>) returns (missing: seq<Finding>)
    ensures missing == MissingHeaders(url, names, headers)
  {
    missing := [];
    var i := 0;
    while i < |headers|
      invariant 0 <= i <= |headers|
      invariant missing + MissingHeaders(url, names, headers[i..]) == MissingHeaders(url, names, headers)
    {
      var header := headers[i];
      assert headers[i..][1..] == headers[i + 1..];
      var step := if HasHeader(names, header) then [] else [HeaderFinding(url, header)];
      Seqs.ShiftStep(missing, step, MissingHeaders(url, names, headers[i + 1..]), MissingHeaders(url, names, headers));
      missing := missing + step;
      i := i + 1;
    }
  }
}
