/**
 * `main()` of the analysis without its printing, and the cross-check that
 * running `sum_inbound` over the written origin table gives back the total
 * of the filtered rows.
 */
module Pipeline {

  import opened Wrappers
  import opened Text
  import opened Seqs
  import opened Ranker
  import opened Loader
  import opened Aggregator
  import opened DetailReporter
  import opened Verifier

  /** Everything one run produces: the origin table, the ranked county
      summary and one detail file per county. */
  datatype Report = Report(overall: seq<OriginTotal>, counties: seq<CountySummary>, details: seq<DetailFile>)

  /** `main()`: load and filter, then the three analyses on the same rows.
      Some row must survive the filter, since the county summary raises on
      an empty table. */
  method RunAnalysis(raw: seq<Row>, stateLines: seq<string>) returns (report: Report)
    requires ExcludeDestination(raw) != []
    ensures var rows := ExcludeDestination(raw);
            && report.overall == OverallMigration(rows)
            && multiset(report.counties) == multiset(CountyTable(rows, LoadStates(stateLines)))
            && NonIncreasing(report.counties, TotalMigrationOf)
            && |report.details| == |report.counties|
    ensures forall i :: 0 <= i < |report.details| ==>
              && report.details[i].rank == i + 1
              && report.details[i].county == report.counties[i].county
              && SumBy(report.details[i].rows, DetailInbound) == report.counties[i].totalMigration
              && IsCountyDetail(report.details[i], i + 1, report.counties[i].county, ExcludeDestination(raw))
    ensures forall i, j :: 0 <= i < j < |report.details| ==>
              report.details[i].county != report.details[j].county
              && report.details[i].filename != report.details[j].filename
    ensures forall r :: r in ExcludeDestination(raw) ==>
              exists i :: 0 <= i < |report.details| && report.details[i].county == r.county
  {
    var loaded := LoadData(raw, stateLines);
    var rows, states := loaded.0, loaded.1;
    var overall := OverallMigration(rows);
    var ranked := AnalyzeMigrationByCounty(rows, states);
    var details := AnalyzeByCountyDetail(rows, ranked);
    report := Report(overall, ranked, details);
    forall i | 0 <= i < |details|
      ensures SumBy(details[i].rows, DetailInbound) == ranked[i].totalMigration
    {
      assert ranked[i] == SummaryOf(ranked[i].county, rows, states);
    }
    EveryCountyRanked(rows, states, ranked);
  }

  /** Every county of the rows is some entry of any ranking of the county table. */
  lemma EveryCountyRanked(rows: seq<Row>, states: seq<string>, ranked: seq<CountySummary>)
    requires multiset(ranked) == multiset(CountyTable(rows, states))
    ensures forall r :: r in rows ==> exists i :: 0 <= i < |ranked| && ranked[i].county == r.county
  {
    var t := CountyTable(rows, states);
    CountyTableCovers(rows, states);
    forall r | r in rows ensures exists i :: 0 <= i < |ranked| && ranked[i].county == r.county {
      var k :| 0 <= k < |rows| && rows[k] == r;
      var j :| 0 <= j < |t| && t[j].county == rows[k].county;
      assert t[j] in multiset(ranked);
      var i :| 0 <= i < |ranked| && ranked[i] == t[j];
    }
  }

  // ---------------------------------------------------------------------
  // Re-reading the origin table

  /** The header of `montana-migration.csv`. */
  const OriginHeader: seq<string> := ["originState", "inboundFromState"]

  /** How one line of the origin table is read back: its two cells, the count
      written as plain decimal text. */
  function OriginRecord(t: OriginTotal): map<string, Option<string>> {
    map["originState" := Some(t.originState), "inboundFromState" := Some(DecimalText(t.inboundFromState))]
  }

  function OriginRecords(table: seq<OriginTotal>): (records: seq<map<string, Option<string>>>)
    ensures |records| == |table|
  {
    seq(|table|, i requires 0 <= i < |table| => OriginRecord(table[i]))
  }

  /** Every written count parses back: nothing is skipped and the re-sum is the
      sum of the table's counts. */
  lemma {:induction false} WrittenCountsResum(table: seq<OriginTotal>, floatParse: string -> Option<int>)
    ensures Skipped(Cells(OriginRecords(table)), floatParse) == 0
    ensures ParsedTotal(Cells(OriginRecords(table)), floatParse) == SumBy(table, OriginInbound)
  {
    if table != [] {
      var init, last := table[..|table| - 1], table[|table| - 1];
      var cells := Cells(OriginRecords(table));
      assert cells[..|cells| - 1] == Cells(OriginRecords(init));
      assert cells[|cells| - 1] == Some(DecimalText(last.inboundFromState));
      ParseIntDecimal(last.inboundFromState, floatParse);
      WrittenCountsResum(init, floatParse);
    }
  }

  /** Re-summing the written origin table gives back the total of the filtered
      rows: the header has the column, no row is skipped, one row per origin. */
  lemma VerifierRoundTrip(raw: seq<Row>, floatParse: string -> Option<int>)
    ensures Target in OriginHeader
    ensures var table := OverallMigration(ExcludeDestination(raw));
            var cells := Cells(OriginRecords(table));
            && |cells| == |GroupByOrigin(ExcludeDestination(raw))|
            && Skipped(cells, floatParse) == 0
            && ParsedTotal(cells, floatParse) == Total(ExcludeDestination(raw))
  {
    var table := OverallMigration(ExcludeDestination(raw));
    WrittenCountsResum(table, floatParse);
    assert |table| == |multiset(table)| == |multiset(GroupByOrigin(ExcludeDestination(raw)))|;
  }
}
