/** The clash detection handler: the two loops over the rows, and the loop over the reports. */
module ClashDetection {
  import opened Common
  import opened ClashGeometry
  import opened ClashSpec

  datatype Analysis = Analysis(
    reports: seq<Clash>,
    counts: map<Severity, nat>,
    totalClashes: nat,
    criticalRatio: real,
    resolutions: seq<Resolution>,
    elementsChecked: nat,
    comparisonsMade: nat)

  /** No ignore rule is implemented. */
  predicate ShouldIgnore(e: Element, f: Element, rules: seq<string>) { false }

  method GenerateClashResolutions(reports: seq<Clash>) returns (resolutions: seq<Resolution>)
    ensures Resolves(resolutions, reports)
  {
    resolutions := [];
    for k := 0 to |reports|
      invariant |resolutions| == k
      invariant forall i | 0 <= i < k :: resolutions[i] == Resolution(reports[i].clashId, PriorityOf(reports[i].severity))
    {
      var clash := reports[k];
      if clash.severity == Critical {
        resolutions := resolutions + [Resolution(clash.clashId, 1)];
      } else if clash.severity == Major {
        resolutions := resolutions + [Resolution(clash.clashId, 2)];
      } else {
        resolutions := resolutions + [Resolution(clash.clashId, 3)];
      }
    }
  }

  predicate Counted(counts: map<Severity, nat>, reports: seq<Clash>) {
    && counts.Keys == {Critical, Major, Minor}
    && counts[Critical] == CountOf(reports, Critical)
    && counts[Major] == CountOf(reports, Major)
    && counts[Minor] == CountOf(reports, Minor)
  }

  lemma CountedGrows(counts: map<Severity, nat>, reports: seq<Clash>, clash: Clash)
    requires Counted(counts, reports) && clash.severity in counts
    ensures Counted(counts[clash.severity := counts[clash.severity] + 1], reports + [clash])
  {
    assert (reports + [clash])[..|reports|] == reports;
  }

  method Count(counts: map<Severity, nat>, ghost reports: seq<Clash>, clash: Clash) returns (newCounts: map<Severity, nat>)
    requires Counted(counts, reports)
    ensures Counted(newCounts, reports + [clash])
  {
    AnySeverityIsCounted(counts, reports, clash.severity);
    CountedGrows(counts, reports, clash);
    newCounts := counts[clash.severity := counts[clash.severity] + 1];
  }

  lemma AnySeverityIsCounted(counts: map<Severity, nat>, reports: seq<Clash>, severity: Severity)
    requires Counted(counts, reports)
    ensures severity in counts
  {
    match severity
    case Critical =>
    case Major =>
    case Minor =>
  }

  /** The body of the inner loop: one row against one other, after the pairs `done`. */
  method ComparePair(rows: seq<Element>, p: nat, q: nat, tolerance: real, ignoreRules: seq<string>,
                     ghost done: seq<Pair>, reports: seq<Clash>, counts: map<Severity, nat>)
    returns (newReports: seq<Clash>, newCounts: map<Severity, nat>)
    requires p < |rows| && q < |rows| && rows[p].index < rows[q].index
    requires Reported(rows, done + RowPairs(Hits(rows), p, q), tolerance, reports) && Counted(counts, reports)
    ensures Reported(rows, done + RowPairs(Hits(rows), p, q + 1), tolerance, newReports)
    ensures Counted(newCounts, newReports)
  {
    newReports, newCounts := reports, counts;
    ReportedGrows(rows, done, tolerance, reports, p, q);
    if ShouldIgnore(rows[p], rows[q], ignoreRules) { return; }
    var clash := ClashOf(rows[p], rows[q], tolerance);
    if clash.volume > 0.0 {
      newCounts := Count(counts, reports, clash);
      newReports := reports + [clash];
    }
  }

  /** The inner loop: one row against all rows, after the pairs `done`. */
  method CompareRow(rows: seq<Element>, p: nat, tolerance: real, ignoreRules: seq<string>,
                    ghost done: seq<Pair>, reports: seq<Clash>, counts: map<Severity, nat>)
    returns (newReports: seq<Clash>, newCounts: map<Severity, nat>, compared: nat)
    requires p < |rows| && Reported(rows, done, tolerance, reports) && Counted(counts, reports)
    ensures Reported(rows, done + RowPairs(Hits(rows), p, |rows|), tolerance, newReports)
    ensures Counted(newCounts, newReports)
    ensures compared == Larger(rows, rows[p].index, |rows|)
  {
    newReports, newCounts, compared := reports, counts, 0;
    assert done + RowPairs(Hits(rows), p, 0) == done;
    for q := 0 to |rows|
      invariant Reported(rows, done + RowPairs(Hits(rows), p, q), tolerance, newReports)
      invariant Counted(newCounts, newReports)
      invariant compared == Larger(rows, rows[p].index, q)
    {
      if rows[p].index >= rows[q].index {
        ReportedGrows(rows, done, tolerance, newReports, p, q);
        continue;
      }
      compared := compared + 1;
      newReports, newCounts := ComparePair(rows, p, q, tolerance, ignoreRules, done, newReports, newCounts);
    }
  }

  method DetectElementClashes(rows: seq<Element>, tolerance: real, ignoreRules: seq<string>)
    returns (r: Analysis, compared: nat)
    ensures Reported(rows, ClashPairs(rows), tolerance, r.reports)
    ensures Counted(r.counts, r.reports) && r.totalClashes == |r.reports|
    ensures r.criticalRatio == CriticalRatio(CountOf(r.reports, Critical), |r.reports|)
    ensures Resolves(r.resolutions, r.reports)
    ensures r.elementsChecked == |rows| && compared == Compared(rows, |rows|, |rows|)
    ensures r.comparisonsMade == compared <==> DistinctLabels(rows, |rows|)
  {
    var reports: seq<Clash> := [];
    var counts: map<Severity, nat> := map[Critical := 0, Major := 0, Minor := 0];
    compared := 0;
    for p := 0 to |rows|
      invariant Reported(rows, HitPairs(Hits(rows), p, |rows|), tolerance, reports)
      invariant Counted(counts, reports)
      invariant compared == Compared(rows, p, |rows|)
    {
      assert HitPairs(Hits(rows), p + 1, |rows|) == HitPairs(Hits(rows), p, |rows|) + RowPairs(Hits(rows), p, |rows|);
      var n;
      reports, counts, n := CompareRow(rows, p, tolerance, ignoreRules, HitPairs(Hits(rows), p, |rows|), reports, counts);
      compared := compared + n;
    }
    var resolutions := GenerateClashResolutions(reports);
    ComparisonsMadeIsRightIff(rows);
    r := Analysis(reports, counts, |reports|, CriticalRatio(counts[Critical], |reports|), resolutions, |rows|, PairCount(|rows|));
  }
}
