/**
 * innovations_module.py: the advanced-analysis helpers the scanner no longer
 * imports. Its score has its own penalties and an Apache-version rule and is kept
 * separate from the scanner's.
 */
module Innovations {
  import opened Wrappers
  import opened Text
  import opened Seqs
  import opened Urls

  /** A JSON-like Python value, for the truthiness tests of the module. */
  datatype Value = VNone | VBool(b: bool) | VInt(i: int) | VStr(s: string)

  /** Python truthiness: None, False, 0 and "" are false. */
  predicate Truthy(v: Value) {
    match v
    case VNone => false
    case VBool(b) => b
    case VInt(i) => i != 0
    case VStr(s) => s != ""
  }

  function IntToString(i: int): string {
    if i < 0 then "-" + NatToString(-i) else NatToString(i)
  }

  /** `str(v)` */
  function Show(v: Value): string {
    match v
    case VNone => "None"
    case VBool(b) => if b then "True" else "False"
    case VInt(i) => IntToString(i)
    case VStr(s) => s
  }

  /** The port table of `scan_basic_ports`, in the dictionary's order. */
  const PortTable: seq<(nat, string)> := [
    (21, "FTP"), (22, "SSH"), (23, "Telnet"), (25, "SMTP"), (53, "DNS"), (80, "HTTP"),
    (110, "POP3"), (143, "IMAP"), (443, "HTTPS"), (3306, "MySQL"), (8080, "HTTP-ALT")]

  /** `f"{port} ({service})"` */
  function Label(entry: (nat, string)): string {
    NatToString(entry.0) + " (" + entry.1 + ")"
  }

  /** The table entries whose port accepts a connection; `reach(host, port)` is whether `create_connection` succeeds. */
  function OpenEntries(reach: (string, nat) -> bool, host: string, table: seq<(nat, string)>): seq<(nat, string)> {
    if table == [] then []
    else (if reach(host, table[0].0) then [table[0]] else []) + OpenEntries(reach, host, table[1..])
  }

  function Labels(entries: seq<(nat, string)>): (r: seq<string>)
    ensures |r| == |entries|
  {
    if entries == [] then [] else [Label(entries[0])] + Labels(entries[1..])
  }

  /** The open entries keep the table's order and are exactly the reachable ones. */
  lemma {:induction false} OpenEntriesExact(reach: (string, nat) -> bool, host: string, table: seq<(nat, string)>)
    ensures var r := OpenEntries(reach, host, table);
      && Subsequence(r, table)
      && (forall e :: e in r ==> e in table)
      && forall e :: e in table ==> (e in r <==> reach(host, e.0))
  {
    if table != [] {
      OpenEntriesExact(reach, host, table[1..]);
      var rest := OpenEntries(reach, host, table[1..]);
      var r := OpenEntries(reach, host, table);
      if reach(host, table[0].0) {
        assert r == [table[0]] + rest && r[1..] == rest;
      } else {
        assert r == rest;
      }
      forall e | e in table ensures e in r <==> reach(host, e.0) {
        if e != table[0] {
          assert e in table[1..];
        }
      }
    }
  }

  /** `scan_basic_ports(target)`: every port is tried on the host, failures skipped; the labels of the open ones. */
  method ScanBasicPorts(reach: (string, nat) -> bool, target: string) returns (openPorts: seq<string>)
    ensures openPorts == Labels(OpenEntries(reach, SchemeStrippedHost(target), PortTable))
  {
    openPorts := SweepTable(reach, SchemeStrippedHost(target), PortTable);
  }

  method SweepTable(reach: (string, nat) -> bool, host: string, table: seq<(nat, string)>) returns (openPorts: seq<string>)
    ensures openPorts == Labels(OpenEntries(reach, host, table))
  {
    openPorts := [];
    var i := 0;
    while i < |table|
      invariant 0 <= i <= |table|
      invariant openPorts + OpenLabels(reach, host, table[i..]) == OpenLabels(reach, host, table)
    {
      assert table[i..][1..] == table[i + 1..];
      if reach(host, table[i].0) {
        openPorts := openPorts + [Label(table[i])];
      }
      i := i + 1;
    }
    OpenLabelsAreLabels(reach, host, table);
  }

  /** The labels of the open entries, one port at a time, as the sweep builds them. */
  function OpenLabels(reach: (string, nat) -> bool, host: string, table: seq<(nat, string)>): seq<string> {
    if table == [] then []
    else (if reach(host, table[0].0) then [Label(table[0])] else []) + OpenLabels(reach, host, table[1..])
  }

  lemma {:induction false} OpenLabelsAreLabels(reach: (string, nat) -> bool, host: string, table: seq<(nat, string)>)
    ensures OpenLabels(reach, host, table) == Labels(OpenEntries(reach, host, table))
  {
    if table != [] {
      OpenLabelsAreLabels(reach, host, table[1..]);
      var step := if reach(host, table[0].0) then [table[0]] else [];
      LabelsAppend(step, OpenEntries(reach, host, table[1..]));
      if step != [] {
        assert Labels(step) == [Label(table[0])] by { assert step[1..] == []; }
      }
    }
  }

  lemma {:induction false} LabelsAppend(a: seq<(nat, string)>, b: seq<(nat, string)>)
    ensures Labels(a + b) == Labels(a) + Labels(b)
  {
    if a != [] {
      LabelsAppend(a[1..], b);
      assert (a + b)[1..] == a[1..] + b;
    } else {
      assert a + b == b;
    }
  }

  /** Every port open gives all eleven labels in table order; none open gives none. */
  lemma {:induction false} SweepExtremes(reach: (string, nat) -> bool, host: string, table: seq<(nat, string)>)
    ensures (forall e :: e in table ==> reach(host, e.0)) ==> OpenEntries(reach, host, table) == table
    ensures (forall e :: e in table ==> !reach(host, e.0)) ==> OpenEntries(reach, host, table) == []
  {
    if table != [] {
      SweepExtremes(reach, host, table[1..]);
      assert forall e :: e in table[1..] ==> e in table;
    }
  }

  /** The cost of one finding: 40, 25, 10, 5 on the upper-cased severity; a missing or None severity costs nothing. */
  function Penalty(sev: Option<string>): int {
    var s := Upper(sev.GetOr(""));
    if s == "CRITICAL" then 40 else if s == "HIGH" then 25 else if s == "MEDIUM" then 10 else if s == "LOW" then 5 else 0
  }

  /** What `server_info` holds: a dict (its "Server" entry) or any other value (its `str`). */
  datatype ServerInfo = ServerDict(server: Option<string>) | ServerOther(text: string)

  /** `server_str`: None becomes `{}`, whose "Server" is None, which counts as empty. */
  function ServerString(info: Option<ServerInfo>): string {
    match info
    case None => ""
    case Some(ServerDict(s)) => s.GetOr("")
    case Some(ServerOther(t)) => t
  }

  predicate OldApache(server: string) {
    Contains(Lower(server), "apache/2.2") || Contains(Lower(server), "apache/2.0")
  }

  /** `ssl_info.get("valid", False)` is truthy; a None `ssl_info` is `{}`. */
  predicate SslValid(sslInfo: Option<map<string, Value>>) {
    sslInfo.Some? && "valid" in sslInfo.value && Truthy(sslInfo.value["valid"])
  }

  function PortCount(openPorts: Option<seq<string>>): nat {
    if openPorts.Some? then |openPorts.value| else 0
  }

  function Findings(vulns: Option<seq<Option<string>>>): seq<Option<string>> {
    vulns.GetOr([])
  }

  function RawScore(vulns: Option<seq<Option<string>>>, openPorts: Option<seq<string>>,
                    sslInfo: Option<map<string, Value>>, server: Option<ServerInfo>): int {
    100 - Sum(Findings(vulns), Penalty) - 2 * PortCount(openPorts)
    - (if SslValid(sslInfo) then 0 else 15)
    - (if OldApache(ServerString(server)) then 5 else 0)
  }

  /**
   * `calculate_security_score(vulnerabilities, open_ports, ssl_info, server_info)`;
   * each finding is given by its severity (None when missing or None).
   */
  function Score(vulns: Option<seq<Option<string>>>, openPorts: Option<seq<string>>,
                 sslInfo: Option<map<string, Value>>, server: Option<ServerInfo>): (s: int)
    ensures 0 <= s <= 100
  {
    var raw := RawScore(vulns, openPorts, sslInfo, server);
    if raw < 0 then 0 else if raw > 100 then 100 else raw
  }

  /** The loop that decrements `score` per finding, then the port, TLS and server deductions and the bounds. */
  method CalculateSecurityScore(vulns: Option<seq<Option<string>>>, openPorts: Option<seq<string>>,
                                sslInfo: Option<map<string, Value>>, server: Option<ServerInfo>) returns (score: int)
    ensures score == Score(vulns, openPorts, sslInfo, server)
  {
    var ports := if openPorts.None? then [] else openPorts.value;
    var info := if sslInfo.None? then map[] else sslInfo.value;
    var vs := if vulns.None? then [] else vulns.value;
    score := DeductFindings(vs);
    assert vs == Findings(vulns) && |ports| == PortCount(openPorts);
    score := score - |ports| * 2;
    if !("valid" in info && Truthy(info["valid"])) {
      score := score - 15;
    }
    var serverStr := ServerString(server);
    ghost var beforeServer := score;
    if serverStr != "" && (Contains(Lower(serverStr), "apache/2.2") || Contains(Lower(serverStr), "apache/2.0")) {
      score := score - 5;
    }
    NoBannerNotOld(serverStr);
    assert score == beforeServer - (if OldApache(serverStr) then 5 else 0);
    assert score == RawScore(vulns, openPorts, sslInfo, server);
    if score < 0 {
      score := 0;
    }
    if score > 100 {
      score := 100;
    }
  }

  /** An empty banner is not an old Apache one, so the `server_str` test adds nothing. */
  lemma NoBannerNotOld(server: string)
    ensures server == "" ==> !OldApache(server)
  {
    if server == "" {
      assert Lower(server) == "";
    }
  }

  /** The loop of `calculate_security_score` that starts at 100 and decrements by each finding's severity. */
  method DeductFindings(vs: seq<Option<string>>) returns (score: int)
    ensures score == 100 - Sum(vs, Penalty)
  {
    score := 100;
    var i := 0;
    while i < |vs|
      invariant 0 <= i <= |vs|
      invariant score == 100 - Sum(vs[..i], Penalty)
    {
      var sev := Upper(if vs[i].None? then "" else vs[i].value);
      if sev == "CRITICAL" {
        score := score - 40;
      } else if sev == "HIGH" {
        score := score - 25;
      } else if sev == "MEDIUM" {
        score := score - 10;
      } else if sev == "LOW" {
        score := score - 5;
      }
      assert vs[..i + 1][..i] == vs[..i];
      i := i + 1;
    }
    assert vs[..|vs|] == vs;
  }

  /**
   * With no findings, no open ports and no old Apache banner the score is 100 when
   * TLS is valid and 85 otherwise; None inputs count as empty ones.
   */
  lemma BaselineScores(vulns: Option<seq<Option<string>>>, openPorts: Option<seq<string>>,
                       sslInfo: Option<map<string, Value>>, server: Option<ServerInfo>)
    requires vulns == None || vulns == Some([])
    requires openPorts == None || openPorts == Some([])
    requires !OldApache(ServerString(server))
    ensures Score(vulns, openPorts, sslInfo, server) == if SslValid(sslInfo) then 100 else 85
  {
    assert Findings(vulns) == [];
  }

  /** A mixed-case Apache 2.2 banner costs 5 more than a response without a Server header. */
  lemma OldApacheCostsFive(vulns: Option<seq<Option<string>>>, openPorts: Option<seq<string>>,
                           sslInfo: Option<map<string, Value>>)
    ensures RawScore(vulns, openPorts, sslInfo, Some(ServerOther("Apache/2.2.15 (CentOS)")))
         == RawScore(vulns, openPorts, sslInfo, Some(ServerDict(None))) - 5
  {
    var low := Lower("Apache/2.2.15 (CentOS)");
    assert low[..10] == "apache/2.2";
    assert StartsWith(low, "apache/2.2");
  }

  lemma {:induction false} PenaltiesNonNegative(sevs: seq<Option<string>>)
    ensures Sum(sevs, Penalty) >= 0
  {
    if sevs != [] {
      PenaltiesNonNegative(sevs[..|sevs| - 1]);
    }
  }

  /** More findings, in any order, never raise the score; their order does not matter. */
  lemma MoreFindingsNeverRaiseScore(fs: seq<Option<string>>, extra: seq<Option<string>>, gs: seq<Option<string>>,
                                    openPorts: Option<seq<string>>, sslInfo: Option<map<string, Value>>, server: Option<ServerInfo>)
    requires multiset(gs) == multiset(fs + extra)
    ensures Score(Some(gs), openPorts, sslInfo, server) <= Score(Some(fs), openPorts, sslInfo, server)
    ensures extra == [] ==> Score(Some(gs), openPorts, sslInfo, server) == Score(Some(fs), openPorts, sslInfo, server)
  {
    SumPermutation(gs, fs + extra, Penalty);
    SumAppend(fs, extra, Penalty);
    PenaltiesNonNegative(extra);
    if extra == [] {
      assert fs + extra == fs;
    }
    ScoreFollowsPenalties(gs, fs, openPorts, sslInfo, server);
  }

  /** The score only depends on the findings through their penalty total, and falls as it grows. */
  lemma ScoreFollowsPenalties(gs: seq<Option<string>>, fs: seq<Option<string>>,
                              openPorts: Option<seq<string>>, sslInfo: Option<map<string, Value>>, server: Option<ServerInfo>)
    requires Sum(gs, Penalty) >= Sum(fs, Penalty)
    ensures Score(Some(gs), openPorts, sslInfo, server) <= Score(Some(fs), openPorts, sslInfo, server)
    ensures Sum(gs, Penalty) == Sum(fs, Penalty) ==> Score(Some(gs), openPorts, sslInfo, server) == Score(Some(fs), openPorts, sslInfo, server)
  {
    var rest := 2 * PortCount(openPorts) + (if SslValid(sslInfo) then 0 else 15) + (if OldApache(ServerString(server)) then 5 else 0);
    assert RawScore(Some(gs), openPorts, sslInfo, server) == 100 - Sum(gs, Penalty) - rest;
    assert RawScore(Some(fs), openPorts, sslInfo, server) == 100 - Sum(fs, Penalty) - rest;
  }

  /** How the certificate check ends: a handshake with the certificate's fields, an SSL error, or another error. */
  datatype TlsOutcome = Handshake(issuer: Option<string>, notAfter: Option<string>) | SslFailure | OtherFailure

  /** The dictionary `check_ssl_tls_configuration` returns for each outcome. */
  function TlsInfo(o: TlsOutcome): map<string, Value> {
    match o
    case Handshake(issuer, notAfter) =>
      map["valid" := VBool(true), "issuer" := VStr(issuer.GetOr("Inconnu")), "expires" := VStr(notAfter.GetOr("N/A"))]
    case SslFailure => map["valid" := VBool(false), "issuer" := VStr("Erreur SSL"), "expires" := VStr("N/A")]
    case OtherFailure => map["valid" := VBool(false), "issuer" := VStr("Inconnu"), "expires" := VStr("N/A")]
  }

  /** The score counts TLS as valid exactly when the handshake succeeded. */
  lemma TlsPenaltyFollowsHandshake(o: TlsOutcome)
    ensures SslValid(Some(TlsInfo(o))) <==> o.Handshake?
  {
  }

  /** The expiry line of `generate_executive_summary`: a truthy `expiry_date`, else "N/A". */
  function ExpiryText(sslInfo: map<string, Value>): string {
    if "expiry_date" in sslInfo && Truthy(sslInfo["expiry_date"]) then Show(sslInfo["expiry_date"]) else "N/A"
  }

  /** The summary reads `expiry_date` but the certificate check writes `expires`, so its expiry is always "N/A". */
  lemma ExpiryOfOwnTlsCheck(o: TlsOutcome)
    ensures ExpiryText(TlsInfo(o)) == "N/A"
  {
    assert "expiry_date" !in TlsInfo(o);
  }

  /** The expiry line reading the key the certificate check writes. */
  function CorrectedExpiryText(sslInfo: map<string, Value>): string {
    if "expires" in sslInfo && Truthy(sslInfo["expires"]) then Show(sslInfo["expires"]) else "N/A"
  }

  /** With the corrected key the summary shows the certificate's `notAfter` after a handshake, and "N/A" otherwise. */
  lemma ExpiryOfTlsCheckCorrected(o: TlsOutcome)
    ensures CorrectedExpiryText(TlsInfo(o)) ==
      if o.Handshake? && o.notAfter.Some? && o.notAfter.value != "" then o.notAfter.value else "N/A"
  {
  }

  /** `f"{svc} ({prt})"` for one `(port, service)` pair. */
  function PortEntryText(entry: (nat, string)): string {
    entry.1 + " (" + NatToString(entry.0) + ")"
  }

  function EntryTexts(entries: seq<(nat, string)>): (r: seq<string>)
    ensures |r| == |entries| && forall i :: 0 <= i < |entries| ==> r[i] == PortEntryText(entries[i])
  {
    seq(|entries|, i requires 0 <= i < |entries| => PortEntryText(entries[i]))
  }

  /** The ports line of the summary for `(port, service)` pairs: "svc (prt)" joined by ", ", or "Aucun". */
  function PortsText(openPorts: seq<(nat, string)>): string {
    if openPorts == [] then "Aucun" else Join(", ", EntryTexts(openPorts))
  }

  lemma {:induction false} JoinStartsWithFirst(sep: string, parts: seq<string>)
    requires parts != []
    ensures StartsWith(Join(sep, parts), parts[0])
  {
    if |parts| > 1 {
      assert Join(sep, parts) == parts[0] + (sep + Join(sep, parts[1..]));
      assert (parts[0] + (sep + Join(sep, parts[1..])))[..|parts[0]|] == parts[0];
    }
  }

  /** The ports line is "Aucun" exactly when no port is open, and otherwise starts with the first open port's text. */
  lemma PortsTextEmptyIffNoPorts(openPorts: seq<(nat, string)>)
    ensures PortsText(openPorts) == "Aucun" <==> openPorts == []
    ensures openPorts != [] ==> StartsWith(PortsText(openPorts), PortEntryText(openPorts[0]))
  {
    if openPorts != [] {
      var texts := EntryTexts(openPorts);
      JoinStartsWithFirst(", ", texts);
      var first := texts[0];
      var svc, prt := openPorts[0].1, NatToString(openPorts[0].0);
      assert first == svc + " (" + prt + ")";
      var out := PortsText(openPorts);
      assert out[..|first|] == first;
      assert out[|svc| + 1] == '(';
      assert forall k :: 0 <= k < |"Aucun"| ==> "Aucun"[k] != '(';
    }
  }

  /**
   * The ports line as written, applied to what `scan_basic_ports` returns: each label
   * is unpacked into `prt, svc`, which raises (None) unless the label has exactly two
   * characters.
   */
  function PortsTextOfLabels(labels: seq<string>): Option<string> {
    if labels == [] then Some("Aucun")
    else if exists i :: 0 <= i < |labels| && |labels[i]| != 2 then None
    else Some(Join(", ", seq(|labels|, i requires 0 <= i < |labels| => [labels[i][1]] + " (" + [labels[i][0]] + ")")))
  }

  /** Any open port found by `scan_basic_ports` makes the summary's ports line raise. */
  lemma ScannedLabelsBreakSummary(reach: (string, nat) -> bool, host: string)
    requires OpenEntries(reach, host, PortTable) != []
    ensures PortsTextOfLabels(Labels(OpenEntries(reach, host, PortTable))) == None
  {
    var labels := Labels(OpenEntries(reach, host, PortTable));
    assert |labels[0]| >= 4;
  }

  /** The corrected ports line: rendered from the open `(port, service)` entries, "Aucun" exactly when none is open. */
  lemma ScannedEntriesSummary(reach: (string, nat) -> bool, host: string)
    ensures var entries := OpenEntries(reach, host, PortTable);
      && (PortsText(entries) == "Aucun" <==> forall e :: e in PortTable ==> !reach(host, e.0))
      && (entries != [] ==> StartsWith(PortsText(entries), PortEntryText(entries[0])))
  {
    var entries := OpenEntries(reach, host, PortTable);
    OpenEntriesExact(reach, host, PortTable);
    PortsTextEmptyIffNoPorts(entries);
    if entries != [] {
      assert entries[0] in entries;
      SubsequenceIn(entries, PortTable, entries[0]);
    }
  }
}
