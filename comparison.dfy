/**
 * The two scoring variants side by side: scanner_vulnerabilites_v2.py's score and
 * innovations_module.py's, fed the same findings, ports and TLS verdict.
 */
module Comparison {
  import opened Wrappers
  import opened Text
  import opened Seqs
  import opened Types
  import Scoring
  import Innovations

  predicate IsMedium(f: Finding) {
    Upper(f.severity) == "MEDIUM"
  }

  /** Per finding the variants differ only on MEDIUM, which costs 15 in one and 10 in the other. */
  lemma {:induction false} PenaltySumsDiffer(fs: seq<Finding>)
    ensures Sum(fs, Scoring.Penalty) == Sum(Scoring.Severities(fs), Innovations.Penalty) + 5 * Count(fs, IsMedium)
  {
    if fs != [] {
      var init := fs[..|fs| - 1];
      PenaltySumsDiffer(init);
      assert Scoring.Severities(fs)[..|fs| - 1] == Scoring.Severities(init);
      assert Scoring.Severities(fs)[|fs| - 1] == Some(fs[|fs| - 1].severity);
    }
  }

  /**
   * On the same scan, with the TLS verdict `valid` and no server banner, the v2
   * score before clamping is the other's less 5 per MEDIUM finding and 3 per open
   * port, plus 5 when TLS is not valid (v2 deducts 10 for that, the other 15).
   */
  lemma RawScoreGap(fs: seq<Finding>, ports: seq<int>, labels: seq<string>, valid: bool)
    requires |labels| == |ports|
    ensures Scoring.RawScore(fs, ports, Some(if valid then "Oui" else "Non"))
         == Innovations.RawScore(Some(Scoring.Severities(fs)), Some(labels), Some(map["valid" := Innovations.VBool(valid)]), None)
            - 5 * Count(fs, IsMedium) - 3 * |ports| + (if valid then 0 else 5)
  {
    PenaltySumsDiffer(fs);
    assert !Innovations.OldApache(Innovations.ServerString(None)) by {
      assert Lower("") == "";
      assert !Contains("", "apache/2.2") && !Contains("", "apache/2.0");
    }
  }

  /** One MEDIUM finding on a clean TLS target scores 85 with v2 and 90 with the other variant. */
  lemma OneMediumFindingDiverges(f: Finding)
    requires f.severity == "MEDIUM"
    ensures Scoring.Score([f], [], Some("Oui")) == 85
    ensures Innovations.Score(Some(Scoring.Severities([f])), Some([]), Some(map["valid" := Innovations.VBool(true)]), None) == 90
  {
    assert Upper("MEDIUM") == "MEDIUM";
    assert Count([f], IsMedium) == 1 by {
      assert [f][..0] == [];
    }
    assert Sum([f], Scoring.Penalty) == 15 by {
      assert [f][..0] == [];
    }
    RawScoreGap([f], [], [], true);
  }
}
