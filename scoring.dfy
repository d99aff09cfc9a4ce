/**
 * The score the scanner actually uses (`calculate_security_score` of
 * scanner_vulnerabilites_v2.py), the score class and the severity counts of the
 * HTML report.
 */
module Scoring {
  import opened Wrappers
  import opened Text
  import opened Seqs
  import opened Types
  import opened Severity

  /** The cost of one finding: 40, 25, 15, 5 for CRITICAL, HIGH, MEDIUM, LOW after upper-casing, 0 otherwise. */
  function Penalty(f: Finding): int {
    var sev := Upper(f.severity);
    if sev == "CRITICAL" then 40
    else if sev == "HIGH" then 25
    else if sev == "MEDIUM" then 15
    else if sev == "LOW" then 5
    else 0
  }

  function Clamp(x: int): int {
    if x < 0 then 0 else if x > 100 then 100 else x
  }

  /** The score before clamping: 100, less every penalty, 5 per open port, and 10 unless TLS is valid. */
  function RawScore(findings: seq<Finding>, openPorts: seq<int>, sslValid: Option<string>): int {
    100 - Sum(findings, Penalty) - 5 * |openPorts| - (if sslValid == Some("Oui") then 0 else 10)
  }

  /** `calculate_security_score(vulnerabilities, open_ports, ssl_info, server_info)`; `sslValid` is `ssl_info.get("valid")`. */
  function Score(findings: seq<Finding>, openPorts: seq<int>, sslValid: Option<string>): (s: int)
    ensures 0 <= s <= 100
  {
    Clamp(RawScore(findings, openPorts, sslValid))
  }

  /** The loop that decrements `score` once per finding, then the port and TLS deductions and the clamp. */
  method CalculateSecurityScore(vulnerabilities: seq<Finding>, openPorts: seq<int>, sslValid: Option<string>) returns (score: int)
    ensures score == Score(vulnerabilities, openPorts, sslValid)
  {
    score := 100;
    var i := 0;
    while i < |vulnerabilities|
      invariant 0 <= i <= |vulnerabilities|
      invariant score == 100 - Sum(vulnerabilities[..i], Penalty)
    {
      var sev := Upper(vulnerabilities[i].severity);
      if sev == "CRITICAL" {
        score := score - 40;
      } else if sev == "HIGH" {
        score := score - 25;
      } else if sev == "MEDIUM" {
        score := score - 15;
      } else if sev == "LOW" {
        score := score - 5;
      }
      assert vulnerabilities[..i + 1][..i] == vulnerabilities[..i];
      i := i + 1;
    }
    assert vulnerabilities[..|vulnerabilities|] == vulnerabilities;
    score := score - |openPorts| * 5;
    if sslValid != Some("Oui") {
      score := score - 10;
    }
    score := if score > 100 then 100 else score;
    score := if score < 0 then 0 else score;
  }

  lemma {:induction false} PenaltiesNonNegative(fs: seq<Finding>)
    ensures Sum(fs, Penalty) >= 0
  {
    if fs != [] {
      PenaltiesNonNegative(fs[..|fs| - 1]);
    }
  }

  /** The findings do not count in any order: a reordered list gives the same score. */
  lemma ScoreIgnoresOrder(a: seq<Finding>, b: seq<Finding>, openPorts: seq<int>, sslValid: Option<string>)
    requires multiset(a) == multiset(b)
    ensures Score(a, openPorts, sslValid) == Score(b, openPorts, sslValid)
  {
    SumPermutation(a, b, Penalty);
  }

  /** More findings (in any order), or more open ports, never raise the score. */
  lemma MoreFindingsNeverRaiseScore(fs: seq<Finding>, extra: seq<Finding>, gs: seq<Finding>,
                                    ports: seq<int>, morePorts: seq<int>, sslValid: Option<string>)
    requires multiset(gs) == multiset(fs + extra)
    requires |ports| <= |morePorts|
    ensures Score(gs, morePorts, sslValid) <= Score(fs, ports, sslValid)
  {
    SumPermutation(gs, fs + extra, Penalty);
    SumAppend(fs, extra, Penalty);
    PenaltiesNonNegative(extra);
  }

  /** A clean target scores 100 with valid TLS and 90 otherwise, an unreachable target included. */
  lemma CleanTargetScore(sslValid: Option<string>)
    ensures Score([], [], Some("Oui")) == 100
    ensures sslValid != Some("Oui") ==> Score([], [], sslValid) == 90
  {
  }

  function Severities(fs: seq<Finding>): (r: seq<Option<string>>)
    ensures |r| == |fs| && forall i :: 0 <= i < |fs| ==> r[i] == Some(fs[i].severity)
  {
    seq(|fs|, i requires 0 <= i < |fs| => Some(fs[i].severity))
  }

  /** The deductions the score makes for findings are those the report's tally implies: 40·critical + 25·high + 15·medium + 5·low. */
  lemma {:induction false} PenaltiesFromTally(fs: seq<Finding>)
    ensures var t := ReportTally(Severities(fs));
      Sum(fs, Penalty) == 40 * t.critical + 25 * t.high + 15 * t.medium + 5 * t.low
  {
    if fs != [] {
      var init := fs[..|fs| - 1];
      PenaltiesFromTally(init);
      assert Severities(fs)[..|fs| - 1] == Severities(init);
    }
  }

  /** The colour class of the score: good from 80, warning from 50, critical below. */
  function ScoreClass(score: int): string {
    if score >= 80 then "score-good" else if score >= 50 then "score-warning" else "score-critical"
  }

  function ClassRank(c: string): int {
    if c == "score-good" then 2 else if c == "score-warning" then 1 else 0
  }

  /** A higher score never gets a worse class, and each class covers its band. */
  lemma ScoreClassBands(a: int, b: int)
    requires a <= b
    ensures ClassRank(ScoreClass(a)) <= ClassRank(ScoreClass(b))
    ensures ScoreClass(a) == "score-good" <==> a >= 80
    ensures ScoreClass(a) == "score-critical" <==> a < 50
  {
  }

  /** The severity counts of `generate_html_report`: findings of unknown severity are not counted. */
  method HtmlSeverityCounts(sevs: seq<Option<string>>) returns (counts: Tally)
    ensures counts == ReportTally(sevs)
  {
    counts := Tally(0, 0, 0, 0);
    var i := 0;
    while i < |sevs|
      invariant 0 <= i <= |sevs|
      invariant counts == ReportTally(sevs[..i])
    {
      var s := SeverityKey(sevs[i]);
      assert sevs[..i + 1][..i] == sevs[..i];
      if s == "CRITICAL" {
        counts := counts.(critical := counts.critical + 1);
      } else if s == "HIGH" {
        counts := counts.(high := counts.high + 1);
      } else if s == "MEDIUM" {
        counts := counts.(medium := counts.medium + 1);
      } else if s == "LOW" {
        counts := counts.(low := counts.low + 1);
      }
      i := i + 1;
    }
    assert sevs[..|sevs|] == sevs;
  }
}
