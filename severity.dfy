/**
 * Severity tallies. The report (scanner_vulnerabilites_v2.py, generate_html_report)
 * counts only the four known severities; the API (api_flask.py) counts
 * unknown ones as LOW.
 */
module Severity {
  import opened Wrappers
  import opened Text
  import opened Seqs

  datatype Tally = Tally(critical: nat, high: nat, medium: nat, low: nat) {
    function Total(): nat {
      critical + high + medium + low
    }
  }

  predicate IsTallyKey(key: string) {
    key == "CRITICAL" || key == "HIGH" || key == "MEDIUM" || key == "LOW"
  }

  /** `v.get('severity', 'LOW').upper()`; None stands for a finding without a severity key. */
  function SeverityKey(sev: Option<string>): string {
    Upper(sev.GetOr("LOW"))
  }

  /** The key the API counts a finding under: unknown ones become LOW. */
  function StatusKey(sev: Option<string>): (key: string)
    ensures IsTallyKey(key)
    ensures IsTallyKey(SeverityKey(sev)) ==> key == SeverityKey(sev)
    ensures !IsTallyKey(SeverityKey(sev)) ==> key == "LOW"
  {
    var k := SeverityKey(sev);
    if IsTallyKey(k) then k else "LOW"
  }

  function KeyIs(key: string): Option<string> -> bool {
    sev => SeverityKey(sev) == key
  }

  function StatusKeyIs(key: string): Option<string> -> bool {
    sev => StatusKey(sev) == key
  }

  /** The report's tally: each finding counted under its upper-cased severity when that is one of the four keys. */
  function ReportTally(sevs: seq<Option<string>>): Tally {
    Tally(Count(sevs, KeyIs("CRITICAL")), Count(sevs, KeyIs("HIGH")),
          Count(sevs, KeyIs("MEDIUM")), Count(sevs, KeyIs("LOW")))
  }

  /** The API's tally: each finding counted under its status key. */
  function StatusTally(sevs: seq<Option<string>>): Tally {
    Tally(Count(sevs, StatusKeyIs("CRITICAL")), Count(sevs, StatusKeyIs("HIGH")),
          Count(sevs, StatusKeyIs("MEDIUM")), Count(sevs, StatusKeyIs("LOW")))
  }

  /** The API's four counts always add up to the number of findings. */
  lemma {:induction false} StatusTallyTotal(sevs: seq<Option<string>>)
    ensures StatusTally(sevs).Total() == |sevs|
  {
    if sevs != [] {
      StatusTallyTotal(sevs[..|sevs| - 1]);
    }
  }

  /** Appending one finding raises the report's total by one exactly when its severity is known. */
  lemma ReportTallyStep(sevs: seq<Option<string>>)
    requires sevs != []
    ensures var last := SeverityKey(sevs[|sevs| - 1]);
      ReportTally(sevs).Total() == ReportTally(sevs[..|sevs| - 1]).Total() + (if IsTallyKey(last) then 1 else 0)
  {
  }

  predicate AllKnown(sevs: seq<Option<string>>) {
    forall i :: 0 <= i < |sevs| ==> IsTallyKey(SeverityKey(sevs[i]))
  }

  /** The report's counts add up to at most the number of findings, exactly when every severity is known. */
  lemma {:induction false} ReportTallyTotal(sevs: seq<Option<string>>)
    ensures ReportTally(sevs).Total() <= |sevs|
    ensures ReportTally(sevs).Total() == |sevs| <==> AllKnown(sevs)
  {
    if sevs != [] {
      var init := sevs[..|sevs| - 1];
      ReportTallyTotal(init);
      ReportTallyStep(sevs);
      assert forall i :: 0 <= i < |init| ==> init[i] == sevs[i];
      assert AllKnown(sevs) <==> AllKnown(init) && IsTallyKey(SeverityKey(sevs[|sevs| - 1]));
    }
  }

  /** When every severity is one of the four keys, both tallies agree. */
  lemma {:induction false} TalliesAgreeOnKnownSeverities(sevs: seq<Option<string>>)
    requires forall i :: 0 <= i < |sevs| ==> IsTallyKey(SeverityKey(sevs[i]))
    ensures StatusTally(sevs) == ReportTally(sevs)
  {
    if sevs != [] {
      var init := sevs[..|sevs| - 1];
      forall i | 0 <= i < |init| ensures IsTallyKey(SeverityKey(init[i])) {
        assert init[i] == sevs[i];
      }
      TalliesAgreeOnKnownSeverities(init);
    }
  }

  /** Neither tally depends on the order of the findings. */
  lemma TalliesIgnoreOrder(a: seq<Option<string>>, b: seq<Option<string>>)
    requires multiset(a) == multiset(b)
    ensures ReportTally(a) == ReportTally(b)
    ensures StatusTally(a) == StatusTally(b)
  {
    CountPermutation(a, b, KeyIs("CRITICAL"));
    CountPermutation(a, b, KeyIs("HIGH"));
    CountPermutation(a, b, KeyIs("MEDIUM"));
    CountPermutation(a, b, KeyIs("LOW"));
    CountPermutation(a, b, StatusKeyIs("CRITICAL"));
    CountPermutation(a, b, StatusKeyIs("HIGH"));
    CountPermutation(a, b, StatusKeyIs("MEDIUM"));
    CountPermutation(a, b, StatusKeyIs("LOW"));
  }
}
