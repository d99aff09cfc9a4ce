/**
 * The scan registry of api_flask.py: the `active_scans` map, the routes that
 * insert, read, delete and clear its entries, and the status/progress updates a
 * scan thread makes to its entry.
 */
module Registry {
  import opened Wrappers
  import opened Text
  import opened Seqs
  import opened Types
  import opened Urls
  import opened Severity
  import opened Scoring

  datatype Status = Starting | Running | Completed | Failed

  /**
   * One `active_scans` entry; `id` and `scan_id` are its key and the timestamps are
   * left out. `url` is None where the answer carries JSON null.
   */
  datatype ScanEntry = ScanEntry(
    url: Option<string>, status: Status, progress: int, threads: int,
    vulnerabilities: seq<Finding>, total: nat,
    crawledUrls: Option<seq<string>>, forms: Option<seq<string>>,
    stats: Option<Tally>, crawledCount: Option<nat>, formsCount: Option<nat>,
    reportDir: Option<string>, error: Option<string>)

  /** The entry `start_scan` inserts. */
  function NewEntry(url: string, threads: int): ScanEntry {
    ScanEntry(Some(url), Starting, 0, threads, [], 0, None, None, None, None, None, None, None)
  }

  /** What each status allows: its progress values, and a tally that adds up on completion. */
  predicate EntryValid(e: ScanEntry) {
    && e.total == |e.vulnerabilities|
    && (e.status == Starting ==> e.progress == 0)
    && (e.status == Running ==> e.progress in {10, 20, 40, 80})
    && (e.status == Completed ==> e.progress == 100 && e.stats.Some? && e.stats.value.Total() == e.total)
    && (e.status == Failed ==> e.progress == 0 && e.error.Some?)
  }

  /** What the `except` branch of `ScanThread.run` makes of an entry. */
  function Failure(e: ScanEntry, message: string): (r: ScanEntry)
    ensures EntryValid(e) ==> EntryValid(r)
    ensures r.status == Failed && r.progress == 0 && r.error == Some(message)
  {
    e.(status := Failed, error := Some(message), progress := 0)
  }

  /** The places where `ScanThread.run` can raise, in order. */
  datatype Phase = Setup | Construct | CrawlPhase | ProbePhase | ReportPhase

  function PhaseIndex(p: Phase): nat {
    match p
    case Setup => 0
    case Construct => 1
    case CrawlPhase => 2
    case ProbePhase => 3
    case ReportPhase => 4
  }

  /**
   * The entry as the last write before phase `p` left it: running at 10 once the
   * scanner is being built, 20 while crawling, 40 with the crawl's results while
   * probing, 80 with the findings while reporting. Each write is an `update`, so
   * every other field keeps its value.
   */
  function EntryAt(e: ScanEntry, p: Phase, crawled: seq<string>, forms: seq<string>, findings: seq<Finding>): ScanEntry {
    match p
    case Setup => e
    case Construct => e.(status := Running, progress := 10)
    case CrawlPhase => e.(status := Running, progress := 20)
    case ProbePhase => e.(status := Running, progress := 40, crawledUrls := Some(crawled), forms := Some(forms))
    case ReportPhase => e.(status := Running, progress := 80, crawledUrls := Some(crawled), forms := Some(forms),
                           vulnerabilities := findings, total := |findings|)
  }

  /** The entry a run that completes leaves: the report's folder, the tally and the two counts join it. */
  function CompletedEntry(e: ScanEntry, crawled: seq<string>, forms: seq<string>, findings: seq<Finding>, reportDir: string): ScanEntry {
    EntryAt(e, ReportPhase, crawled, forms, findings).(
      status := Completed, progress := 100, reportDir := Some(reportDir), stats := Some(StatusTally(Severities(findings))),
      crawledCount := Some(|crawled|), formsCount := Some(|forms|))
  }

  /** Every write keeps a valid entry valid. */
  lemma EntryAtValid(e: ScanEntry, p: Phase, crawled: seq<string>, forms: seq<string>, findings: seq<Finding>, reportDir: string)
    requires EntryValid(e)
    ensures EntryValid(EntryAt(e, p, crawled, forms, findings))
    ensures EntryValid(CompletedEntry(e, crawled, forms, findings, reportDir))
  {
    StatusTallyTotal(Severities(findings));
  }

  /**
   * A failed run keeps the entry's URL, thread count, report folder and tally; the
   * crawl's results are there exactly when the crawl finished, the findings
   * exactly when probing finished; otherwise those fields are as they were.
   */
  lemma FailedEntryKeeps(e: ScanEntry, p: Phase, crawled: seq<string>, forms: seq<string>, findings: seq<Finding>, message: string)
    ensures var r := Failure(EntryAt(e, p, crawled, forms, findings), message);
      && r.url == e.url && r.threads == e.threads && r.reportDir == e.reportDir && r.stats == e.stats
      && (PhaseIndex(p) >= 3 ==> r.crawledUrls == Some(crawled) && r.forms == Some(forms))
      && (PhaseIndex(p) < 3 ==> r.crawledUrls == e.crawledUrls && r.forms == e.forms)
      && (PhaseIndex(p) == 4 ==> r.vulnerabilities == findings && r.total == |findings|)
      && (PhaseIndex(p) < 4 ==> r.vulnerabilities == e.vulnerabilities && r.total == e.total)
  {
  }

  /** A completed run keeps the entry's URL and thread count and holds everything the scan produced. */
  lemma CompletedEntryHolds(e: ScanEntry, crawled: seq<string>, forms: seq<string>, findings: seq<Finding>, reportDir: string)
    ensures var r := CompletedEntry(e, crawled, forms, findings, reportDir);
      && r.url == e.url && r.threads == e.threads && r.error == e.error
      && r.status == Completed && r.progress == 100 && r.vulnerabilities == findings && r.total == |findings|
      && r.crawledUrls == Some(crawled) && r.forms == Some(forms) && r.crawledCount == Some(|crawled|)
      && r.formsCount == Some(|forms|) && r.reportDir == Some(reportDir)
      && r.stats == Some(StatusTally(Severities(findings))) && r.stats.value.Total() == |findings|
  {
    StatusTallyTotal(Severities(findings));
  }

  /** The progress values of a run that completes. */
  const ProgressSteps: seq<int> := [10, 20, 40, 80, 100]

  /** `status` of `get_scan_status`: an active entry, an archived report, a read error (500) or not found (404). */
  datatype StatusResponse = Active(entry: ScanEntry) | Archived(entry: ScanEntry) | ReadError | NotFound

  /**
   * What the archived `rapport_scan_v2.json` of a scan holds, as far as the route
   * reads it: 'target' (None when absent), the 'vulnerabilities' list, and the
   * figures with the route's defaults already applied.
   */
  datatype Archive = Archive(target: Option<string>, findings: seq<Finding>,
                             total: nat, threads: int, crawledCount: nat, formsCount: nat, folder: string)

  /** The severity tally loop of the API: unknown or missing severities are counted as LOW. */
  method SeverityStats(sevs: seq<Option<string>>) returns (stats: Tally)
    ensures stats == StatusTally(sevs)
    ensures stats.Total() == |sevs|
  {
    stats := Tally(0, 0, 0, 0);
    var i := 0;
    while i < |sevs|
      invariant 0 <= i <= |sevs|
      invariant stats == StatusTally(sevs[..i])
    {
      var sev := SeverityKey(sevs[i]);
      if !IsTallyKey(sev) {
        sev := "LOW";
      }
      assert sevs[..i + 1][..i] == sevs[..i];
      assert sev == StatusKey(sevs[i]);
      if sev == "CRITICAL" {
        stats := stats.(critical := stats.critical + 1);
      } else if sev == "HIGH" {
        stats := stats.(high := stats.high + 1);
      } else if sev == "MEDIUM" {
        stats := stats.(medium := stats.medium + 1);
      } else {
        stats := stats.(low := stats.low + 1);
      }
      i := i + 1;
    }
    assert sevs[..|sevs|] == sevs;
    StatusTallyTotal(sevs);
  }

  /** The `get_scan_status` answer built from an archived report. */
  function ArchivedEntry(a: Archive): ScanEntry {
    ScanEntry(a.target, Completed, 100, a.threads, a.findings, a.total,
              None, None, Some(StatusTally(Severities(a.findings))), Some(a.crawledCount), Some(a.formsCount), Some(a.folder), None)
  }

  /** The ids of `scans` whose entry is running. */
  function RunningIds(scans: map<string, ScanEntry>): set<string> {
    set id | id in scans && scans[id].status == Running
  }

  /** The `active_scans` figure of `get_stats`. */
  function RunningScans(scans: map<string, ScanEntry>): nat {
    |RunningIds(scans)|
  }

  /** The running count is at most the number of entries, and equals it exactly when all entries are running. */
  lemma RunningScansBound(scans: map<string, ScanEntry>)
    ensures RunningScans(scans) <= |scans|
    ensures RunningScans(scans) == |scans| <==> forall id :: id in scans ==> scans[id].status == Running
  {
    var r := RunningIds(scans);
    SubsetCard(r, scans.Keys);
    if forall id :: id in scans ==> scans[id].status == Running {
      assert r == scans.Keys;
    }
  }

  /** Writing one entry changes the running count by that entry alone. */
  lemma RunningScansAfterWrite(scans: map<string, ScanEntry>, id: string, e: ScanEntry)
    ensures RunningScans(scans[id := e]) == RunningScans(scans - {id}) + (if e.status == Running then 1 else 0)
  {
    var without := RunningIds(scans - {id});
    var one: set<string> := if e.status == Running then {id} else {};
    forall x ensures x in RunningIds(scans[id := e]) <==> x in without + one {
      if x == id {
        assert x !in without;
      } else {
        assert x in scans[id := e] <==> x in scans - {id};
      }
    }
    assert RunningIds(scans[id := e]) == without + one;
    assert id !in without;
  }

  /** Removing one entry lowers the running count by one exactly when that entry was running. */
  lemma RunningScansAfterRemove(scans: map<string, ScanEntry>, id: string)
    ensures RunningScans(scans - {id}) == RunningScans(scans) - (if id in scans && scans[id].status == Running then 1 else 0)
  {
    var without := RunningIds(scans - {id});
    var gone: set<string> := if id in scans && scans[id].status == Running then {id} else {};
    forall x ensures x in RunningIds(scans) <==> x in without + gone {
      if x != id {
        assert x in scans <==> x in scans - {id};
      }
    }
    assert RunningIds(scans) == without + gone;
    assert id !in without;
  }

  /** The registry: `active_scans`. */
  class ScanRegistry {
    var scans: map<string, ScanEntry>

    predicate Valid()
      reads this
    {
      forall id :: id in scans ==> EntryValid(scans[id])
    }

    constructor()
      ensures scans == map[] && Valid()
    {
      scans := map[];
    }

    /**
     * `start_scan`: `url` is the request's 'url' (None when absent), `scanId` the
     * fresh uuid, `threads` the request's 'threads' (5 when absent). An empty or blank URL gives 400 and leaves the registry alone;
     * otherwise the URL gets a scheme if it lacks one and a new starting entry is
     * stored under the id, with 201.
     */
    method StartScan(url: Option<string>, threads: Option<int>, scanId: string) returns (code: int, target: Option<string>)
      requires Valid()
      modifies this
      ensures Valid()
      ensures var u := Strip(url.GetOr(""));
        && (u == [] ==> code == 400 && target.None? && scans == old(scans))
        && (u != [] ==> code == 201 && target == Some(WithScheme(u))
                        && scans == old(scans)[scanId := NewEntry(WithScheme(u), threads.GetOr(5))])
    {
      var u := Strip(url.GetOr(""));
      if u == [] {
        return 400, None;
      }
      var full := WithScheme(u);
      var e := NewEntry(full, threads.GetOr(5));
      assert EntryValid(e);
      scans := scans[scanId := e];
      return 201, Some(full);
    }

    /**
     * `ScanThread.run` for entry `scanId`, given what the scanner produced and where,
     * if anywhere, it raised. `steps` are the progress values written, in order: a
     * run that completes writes 10, 20, 40, 80, 100; one that raises writes the
     * values up to its phase, then 0. No other entry changes. An entry that is no
     * longer registered makes the first write raise, in the `except` branch too,
     * so the registry stays as it was.
     */
    method RunScanThread(scanId: string, crawled: seq<string>, forms: seq<string>, findings: seq<Finding>,
                         reportDir: string, failure: Option<(Phase, string)>) returns (ghost steps: seq<int>)
      requires Valid()
      modifies this
      ensures Valid()
      ensures scanId !in old(scans) ==> scans == old(scans) && steps == []
      ensures OthersAsIn(old(scans), scanId)
      ensures scanId in old(scans) && failure.None? ==> steps == ProgressSteps
      ensures scanId in old(scans) && failure.None? ==>
        scans[scanId] == CompletedEntry(old(scans)[scanId], crawled, forms, findings, reportDir)
      ensures scanId in old(scans) && failure.Some? ==> steps == ProgressSteps[..PhaseIndex(failure.value.0)] + [0]
      ensures scanId in old(scans) && failure.Some? ==>
        scans[scanId] == Failure(EntryAt(old(scans)[scanId], failure.value.0, crawled, forms, findings), failure.value.1)
    {
      if scanId !in scans {
        return [];
      }
      ghost var before := scans;
      var e := scans[scanId];
      if failure.Some? && failure.value.0 == Setup {
        Put(scanId, Failure(e, failure.value.1), before);
        return ProgressSteps[..PhaseIndex(failure.value.0)] + [0];
      }
      EntryAtValid(e, Construct, crawled, forms, findings, reportDir);
      Put(scanId, EntryAt(e, Construct, crawled, forms, findings), before);
      if failure.Some? && failure.value.0 == Construct {
        Put(scanId, Failure(EntryAt(e, Construct, crawled, forms, findings), failure.value.1), before);
        return ProgressSteps[..PhaseIndex(failure.value.0)] + [0];
      }
      EntryAtValid(e, CrawlPhase, crawled, forms, findings, reportDir);
      Put(scanId, EntryAt(e, CrawlPhase, crawled, forms, findings), before);
      if failure.Some? && failure.value.0 == CrawlPhase {
        Put(scanId, Failure(EntryAt(e, CrawlPhase, crawled, forms, findings), failure.value.1), before);
        return ProgressSteps[..PhaseIndex(failure.value.0)] + [0];
      }
      EntryAtValid(e, ProbePhase, crawled, forms, findings, reportDir);
      Put(scanId, EntryAt(e, ProbePhase, crawled, forms, findings), before);
      if failure.Some? && failure.value.0 == ProbePhase {
        Put(scanId, Failure(EntryAt(e, ProbePhase, crawled, forms, findings), failure.value.1), before);
        return ProgressSteps[..PhaseIndex(failure.value.0)] + [0];
      }
      EntryAtValid(e, ReportPhase, crawled, forms, findings, reportDir);
      Put(scanId, EntryAt(e, ReportPhase, crawled, forms, findings), before);
      if failure.Some? && failure.value.0 == ReportPhase {
        Put(scanId, Failure(EntryAt(e, ReportPhase, crawled, forms, findings), failure.value.1), before);
        return ProgressSteps[..PhaseIndex(failure.value.0)] + [0];
      }
      var stats := SeverityStats(Severities(findings));
      Put(scanId, EntryAt(e, ReportPhase, crawled, forms, findings).(
        status := Completed, progress := 100, reportDir := Some(reportDir), stats := Some(stats),
        crawledCount := Some(|crawled|), formsCount := Some(|forms|)), before);
      return ProgressSteps;
    }

    /** The registry has the keys of `before` and, apart from `scanId`, its entries. */
    predicate OthersAsIn(before: map<string, ScanEntry>, scanId: string)
      reads this
    {
      scans.Keys == before.Keys && forall other :: other in scans && other != scanId ==> scans[other] == before[other]
    }

    /** One write of a whole entry, which keeps every entry valid. */
    method Put(scanId: string, e: ScanEntry, ghost before: map<string, ScanEntry>)
      requires Valid() && EntryValid(e) && scanId in scans && OthersAsIn(before, scanId)
      modifies this
      ensures Valid() && scanId in scans && scans[scanId] == e && OthersAsIn(before, scanId)
    {
      scans := scans[scanId := e];
    }

    /**
     * `get_scan_status`: an active entry takes precedence; otherwise the archived
     * report (None when there is no report file, `Some(None)` when reading it fails).
     */
    method GetScanStatus(scanId: string, archive: Option<Option<Archive>>) returns (r: StatusResponse)
      requires Valid()
      ensures scanId in scans ==> r == Active(scans[scanId])
      ensures scanId !in scans && archive.None? ==> r == NotFound
      ensures scanId !in scans && archive == Some(None) ==> r == ReadError
      ensures scanId !in scans && archive.Some? && archive.value.Some? ==>
        var a := archive.value.value;
        && r == Archived(ArchivedEntry(a)) && r.entry.status == Completed && r.entry.progress == 100
        && r.entry.url == a.target && r.entry.vulnerabilities == a.findings
        && r.entry.stats == Some(StatusTally(Severities(r.entry.vulnerabilities)))
        && r.entry.stats.value.Total() == |r.entry.vulnerabilities|
    {
      if scanId in scans {
        return Active(scans[scanId]);
      }
      if archive.None? {
        return NotFound;
      }
      if archive.value.None? {
        return ReadError;
      }
      var a := archive.value.value;
      var stats := SeverityStats(Severities(a.findings));
      r := Archived(ScanEntry(a.target, Completed, 100, a.threads, a.findings, a.total,
                              None, None, Some(stats), Some(a.crawledCount), Some(a.formsCount), Some(a.folder), None));
    }

    /**
     * `delete_scan`: the id always leaves the registry; the answer is 404 without a
     * scan folder, 200 when removing it succeeds and 500 when that raises.
     */
    method DeleteScan(scanId: string, folderExists: bool, removeSucceeds: bool) returns (code: int)
      requires Valid()
      modifies this
      ensures Valid()
      ensures scans == old(scans) - {scanId}
      ensures code == (if !folderExists then 404 else if removeSucceeds then 200 else 500)
    {
      if scanId in scans {
        scans := scans - {scanId};
      }
      if folderExists {
        if removeSucceeds {
          return 200;
        }
        return 500;
      }
      return 404;
    }

    /** `reset_history`: the registry is emptied; 500 only when listing the scans folder raises. */
    method ResetHistory(listingSucceeds: bool) returns (code: int)
      modifies this
      ensures Valid()
      ensures scans == map[]
      ensures code == (if listingSucceeds then 200 else 500)
    {
      scans := map[];
      code := if listingSucceeds then 200 else 500;
    }
  }

  /** A valid entry is completed only at progress 100 and failed only at progress 0. */
  lemma ValidEntryProgress(e: ScanEntry)
    requires EntryValid(e)
    ensures e.status == Completed ==> e.progress == 100
    ensures e.progress == 100 ==> e.status == Completed
    ensures e.status == Failed ==> e.progress == 0
    ensures 0 <= e.progress <= 100
  {
  }
}
