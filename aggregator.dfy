/**
 * The two aggregations of the filtered rows: totals by origin
 * (`analyze_overall_migration`) and the per-county internal/external
 * summary (`analyze_migration_by_county`).
 */
module Aggregator {

  import opened Seqs
  import opened Ranker
  import opened Loader

  function Origin(r: Row): string { r.originState }
  function County(r: Row): string { r.county }
  function Inbound(r: Row): int { r.inboundFromState }

  /** `df['inboundFromState'].sum()`. */
  function Total(rows: seq<Row>): int {
    SumBy(rows, Inbound)
  }

  /** The column `key` of the table, such as `df['county']`. */
  function Column(rows: seq<Row>, key: Row -> string): (r: seq<string>)
    ensures |r| == |rows|
    ensures forall i :: 0 <= i < |rows| ==> r[i] == key(rows[i])
  {
    Map(rows, key)
  }

  /** `df[df[key] == k]`: the rows whose `key` is `k`, in their original order. */
  function RowsWith(rows: seq<Row>, key: Row -> string, k: string): (r: seq<Row>)
    ensures forall i :: 0 <= i < |r| ==> key(r[i]) == k
    ensures forall x :: multiset(r)[x] == if key(x) == k then multiset(rows)[x] else 0
    ensures IsSubsequence(r, rows)
  {
    Filter(rows, (x: Row) => key(x) == k)
  }

  lemma RowsWithAppend(rows: seq<Row>, x: Row, key: Row -> string, k: string)
    ensures RowsWith(rows + [x], key, k) == RowsWith(rows, key, k) + (if key(x) == k then [x] else [])
  {
    TakeAppend(rows, x);
  }

  /** The sum, over the groups named by `keys`, of each group's total. */
  function SumAcross(keys: seq<string>, rows: seq<Row>, key: Row -> string): int {
    if keys == [] then 0
    else SumAcross(keys[..|keys| - 1], rows, key) + Total(RowsWith(rows, key, keys[|keys| - 1]))
  }

  lemma {:induction false} SumAcrossNoRows(keys: seq<string>, key: Row -> string)
    ensures SumAcross(keys, [], key) == 0
  {
    if keys != [] {
      SumAcrossNoRows(keys[..|keys| - 1], key);
    }
  }

  /** One more row adds its count to exactly the group it belongs to. */
  lemma {:induction false} SumAcrossAppend(keys: seq<string>, rows: seq<Row>, x: Row, key: Row -> string)
    requires NoDuplicates(keys)
    ensures SumAcross(keys, rows + [x], key)
            == SumAcross(keys, rows, key) + (if key(x) in keys then x.inboundFromState else 0)
  {
    if keys != [] {
      var init, last := keys[..|keys| - 1], keys[|keys| - 1];
      SplitLast(keys);
      SumAcrossAppend(init, rows, x, key);
      RowsWithAppend(rows, x, key, last);
      assert Total(RowsWith(rows, key, last) + [x]) == Total(RowsWith(rows, key, last)) + x.inboundFromState;
    }
  }

  /** Regrouping conserves the total: when every row's key is among the
      distinct `keys`, the group totals add up to the total of all rows. */
  lemma {:induction false} SumAcrossTotal(keys: seq<string>, rows: seq<Row>, key: Row -> string)
    requires NoDuplicates(keys)
    requires forall i :: 0 <= i < |rows| ==> key(rows[i]) in keys
    ensures SumAcross(keys, rows, key) == Total(rows)
  {
    if rows == [] {
      SumAcrossNoRows(keys, key);
    } else {
      var init, last := rows[..|rows| - 1], rows[|rows| - 1];
      SplitLast(rows);
      SumAcrossTotal(keys, init, key);
      SumAcrossAppend(keys, init, last, key);
    }
  }

  // ---------------------------------------------------------------------
  // Totals by origin

  /** A row of the overall table: an origin and the people who came from it. */
  datatype OriginTotal = OriginTotal(originState: string, inboundFromState: int)

  function OriginInbound(t: OriginTotal): int { t.inboundFromState }

  /** The group of origin `k`: the origin and the total of its rows. */
  function OriginGroup(k: string, rows: seq<Row>): OriginTotal {
    OriginTotal(k, Total(RowsWith(rows, Origin, k)))
  }

  /** One group per key, in the order of `keys`, each holding that origin's total. */
  function OriginTotals(keys: seq<string>, rows: seq<Row>): (r: seq<OriginTotal>)
    ensures |r| == |keys|
    ensures forall i :: 0 <= i < |r| ==> r[i].originState == keys[i]
    ensures forall i :: 0 <= i < |r| ==> r[i].inboundFromState == Total(RowsWith(rows, Origin, keys[i]))
  {
    Map(keys, k => OriginGroup(k, rows))
  }

  /** The origin totals add up, group by group, like the origin groups of rows. */
  lemma {:induction false} OriginTotalsSum(keys: seq<string>, rows: seq<Row>)
    ensures SumBy(OriginTotals(keys, rows), OriginInbound) == SumAcross(keys, rows, Origin)
  {
    if keys != [] {
      var init := keys[..|keys| - 1];
      OriginTotalsSum(init, rows);
      MapSnoc(keys, k => OriginGroup(k, rows));
      TakeAppend(OriginTotals(init, rows), OriginGroup(keys[|keys| - 1], rows));
    }
  }

  /** `df.groupby('originState', sort=False)['inboundFromState'].sum()`: each
      origin once, with the total of its rows; together the groups hold every
      row's count.  GroupByOriginCovers and GroupByOriginOrder say which
      origins appear and in what order. */
  function GroupByOrigin(rows: seq<Row>): (r: seq<OriginTotal>)
    ensures forall i, j :: 0 <= i < j < |r| ==> r[i].originState != r[j].originState
    ensures forall j :: 0 <= j < |r| ==> r[j].inboundFromState == Total(RowsWith(rows, Origin, r[j].originState))
    ensures SumBy(r, OriginInbound) == Total(rows)
  {
    var origins := Distinct(Column(rows, Origin));
    OriginsCovered(rows);
    SumAcrossTotal(origins, rows, Origin);
    OriginTotalsSum(origins, rows);
    OriginTotals(origins, rows)
  }

  lemma OriginsCovered(rows: seq<Row>)
    ensures forall i :: 0 <= i < |rows| ==> rows[i].originState in Distinct(Column(rows, Origin))
  {
    forall i | 0 <= i < |rows| ensures rows[i].originState in Distinct(Column(rows, Origin)) {
      assert Column(rows, Origin)[i] == rows[i].originState;
    }
  }

  /** Every origin of the rows has a group, and every group is an origin of the rows. */
  lemma GroupByOriginCovers(rows: seq<Row>)
    ensures forall i :: 0 <= i < |rows| ==>
              exists j :: 0 <= j < |GroupByOrigin(rows)| && GroupByOrigin(rows)[j].originState == rows[i].originState
    ensures forall j :: 0 <= j < |GroupByOrigin(rows)| ==> GroupByOrigin(rows)[j].originState in Column(rows, Origin)
  {
    var origins := Distinct(Column(rows, Origin));
    var r := GroupByOrigin(rows);
    assert r == OriginTotals(origins, rows);
    OriginsCovered(rows);
    forall i | 0 <= i < |rows| ensures exists j :: 0 <= j < |r| && r[j].originState == rows[i].originState {
      var j :| 0 <= j < |origins| && origins[j] == rows[i].originState;
      assert r[j].originState == origins[j];
    }
    forall j | 0 <= j < |r| ensures r[j].originState in Column(rows, Origin) {
      assert r[j].originState == origins[j];
    }
  }

  /** The groups come in the order in which their origins first appear. */
  lemma GroupByOriginOrder(rows: seq<Row>)
    ensures forall j :: 0 <= j < |GroupByOrigin(rows)| ==> GroupByOrigin(rows)[j].originState in Column(rows, Origin)
    ensures forall i, j :: 0 <= i < j < |GroupByOrigin(rows)| ==>
              FirstIndex(Column(rows, Origin), GroupByOrigin(rows)[i].originState)
              < FirstIndex(Column(rows, Origin), GroupByOrigin(rows)[j].originState)
  {
    var col := Column(rows, Origin);
    var origins := Distinct(col);
    var r := GroupByOrigin(rows);
    assert r == OriginTotals(origins, rows);
    assert forall j :: 0 <= j < |r| ==> r[j].originState == origins[j];
  }

  /** `analyze_overall_migration`: the grouped table ranked by count, descending. */
  function OverallMigration(rows: seq<Row>): (r: seq<OriginTotal>)
    ensures multiset(r) == multiset(GroupByOrigin(rows))
    ensures NonIncreasing(r, OriginInbound)
    ensures SumBy(r, OriginInbound) == Total(rows)
  {
    var r := SortDescending(GroupByOrigin(rows), OriginInbound);
    SumByPermutation(r, GroupByOrigin(rows), OriginInbound);
    r
  }

  // ---------------------------------------------------------------------
  // Per-county summary

  /** `part / total * 100` behind the `total > 0` guard, as an exact
      rational (the source's later `round(..., 2)` is not modelled).
      PercentScales says what it means. */
  function Percent(part: int, total: int): (p: real)
    ensures total <= 0 ==> p == 0.0
  {
    if total > 0 then (part as real) / (total as real) * 100.0 else 0.0
  }

  /** A share is the part scaled to a total of 100; without a positive total it is 0. */
  lemma PercentScales(part: int, total: int)
    ensures total > 0 ==> Percent(part, total) * (total as real) == (part as real) * 100.0
    ensures total <= 0 ==> Percent(part, total) == 0.0
  {
    if total > 0 {
      var t := total as real;
      assert (part as real) / t * t == part as real;
    }
  }

  /** Shares of one total add up like the parts. */
  lemma PercentAdditive(a: int, b: int, total: int)
    ensures Percent(a, total) + Percent(b, total) == Percent(a + b, total)
  {
    PercentScales(a, total);
    PercentScales(b, total);
    PercentScales(a + b, total);
    if total > 0 {
      var t := total as real;
      assert (Percent(a, total) + Percent(b, total)) * t == (a + b) as real * 100.0;
      assert Percent(a + b, total) * t == (a + b) as real * 100.0;
    }
  }

  /** The whole is 100 percent of itself. */
  lemma PercentOfWhole(total: int)
    requires total > 0
    ensures Percent(total, total) == 100.0
  {
    var t := total as real;
    assert t / t == 1.0;
  }

  /** `origin in states`: exact membership in the list of states. */
  predicate IsInternal(r: Row, states: seq<string>) {
    r.originState in states
  }

  /** The counts of the rows whose origin is one of `states`. */
  function InternalSum(rows: seq<Row>, states: seq<string>): int {
    if rows == [] then 0
    else
      var last := rows[|rows| - 1];
      InternalSum(rows[..|rows| - 1], states) + (if IsInternal(last, states) then last.inboundFromState else 0)
  }

  /** The counts of the rows whose origin is not one of `states`. */
  function ExternalSum(rows: seq<Row>, states: seq<string>): int {
    if rows == [] then 0
    else
      var last := rows[|rows| - 1];
      ExternalSum(rows[..|rows| - 1], states) + (if IsInternal(last, states) then 0 else last.inboundFromState)
  }

  /** The mask `df['originState'].isin(states)` and its negation. */
  function InternalTo(states: seq<string>): Row -> bool {
    r => IsInternal(r, states)
  }

  function ExternalTo(states: seq<string>): Row -> bool {
    r => !IsInternal(r, states)
  }

  /** The two running sums are the totals of the rows the masks select. */
  lemma {:induction false} SumsSelect(rows: seq<Row>, states: seq<string>)
    ensures InternalSum(rows, states) == Total(Filter(rows, InternalTo(states)))
    ensures ExternalSum(rows, states) == Total(Filter(rows, ExternalTo(states)))
  {
    if rows != [] {
      var init, last := rows[..|rows| - 1], rows[|rows| - 1];
      SumsSelect(init, states);
      TakeAppend(Filter(init, InternalTo(states)), last);
      TakeAppend(Filter(init, ExternalTo(states)), last);
    }
  }

  /** Every row is internal or external and not both. */
  lemma {:induction false} SplitIsTotal(rows: seq<Row>, states: seq<string>)
    ensures InternalSum(rows, states) + ExternalSum(rows, states) == Total(rows)
  {
    if rows != [] {
      SplitIsTotal(rows[..|rows| - 1], states);
    }
  }

  /** One line of `total-migration-by-county.csv`. */
  datatype CountySummary = CountySummary(
    county: string,
    totalMigration: int,
    totalInternalMigration: int,
    totalExternalMigration: int,
    pctInternal: real,
    pctExternal: real)

  function TotalMigrationOf(s: CountySummary): int { s.totalMigration }

  /** The summary of one county from that county's rows. */
  function Summarize(county: string, countyRows: seq<Row>, states: seq<string>): (s: CountySummary)
    ensures s.county == county
    ensures s.totalInternalMigration + s.totalExternalMigration == s.totalMigration == Total(countyRows)
    ensures s.totalInternalMigration == InternalSum(countyRows, states)
    ensures s.totalExternalMigration == ExternalSum(countyRows, states)
    ensures s.pctInternal == Percent(s.totalInternalMigration, s.totalMigration)
    ensures s.pctExternal == Percent(s.totalExternalMigration, s.totalMigration)
    ensures s.totalMigration > 0 ==> s.pctInternal + s.pctExternal == 100.0
    ensures s.totalMigration <= 0 ==> s.pctInternal == 0.0 && s.pctExternal == 0.0
  {
    var internal := InternalSum(countyRows, states);
    var external := ExternalSum(countyRows, states);
    var total := internal + external;
    SplitIsTotal(countyRows, states);
    PercentAdditive(internal, external, total);
    PercentScales(internal, total);
    PercentScales(external, total);
    assert total > 0 ==> Percent(total, total) == 100.0 by {
      if total > 0 {
        PercentOfWhole(total);
      }
    }
    CountySummary(county, total, internal, external, Percent(internal, total), Percent(external, total))
  }

  /** A summary built from the two running sums is the county's summary. */
  lemma SummaryFromSums(county: string, countyRows: seq<Row>, states: seq<string>, internal: int, external: int)
    requires internal == InternalSum(countyRows, states) && external == ExternalSum(countyRows, states)
    ensures Summarize(county, countyRows, states)
            == CountySummary(county, internal + external, internal, external,
                             Percent(internal, internal + external), Percent(external, internal + external))
  {
  }

  /** The summary of county `k` from the rows of that county. */
  function SummaryOf(k: string, rows: seq<Row>, states: seq<string>): CountySummary {
    Summarize(k, RowsWith(rows, County, k), states)
  }

  /** The summaries of the counties `keys`, in that order. */
  function CountySummaries(keys: seq<string>, rows: seq<Row>, states: seq<string>): (r: seq<CountySummary>)
    ensures |r| == |keys|
    ensures forall i :: 0 <= i < |r| ==> r[i] == SummaryOf(keys[i], rows, states)
  {
    Map(keys, k => SummaryOf(k, rows, states))
  }

  lemma CountySummariesSnoc(keys: seq<string>, rows: seq<Row>, states: seq<string>)
    requires keys != []
    ensures CountySummaries(keys, rows, states)
            == CountySummaries(keys[..|keys| - 1], rows, states) + [SummaryOf(keys[|keys| - 1], rows, states)]
  {
    MapSnoc(keys, k => SummaryOf(k, rows, states));
  }

  /** The county totals add up, group by group, like the county groups of rows. */
  lemma {:induction false} CountySummariesTotal(keys: seq<string>, rows: seq<Row>, states: seq<string>)
    ensures SumBy(CountySummaries(keys, rows, states), TotalMigrationOf) == SumAcross(keys, rows, County)
  {
    if keys != [] {
      var init := keys[..|keys| - 1];
      CountySummariesTotal(init, rows, states);
      CountySummariesSnoc(keys, rows, states);
      TakeAppend(CountySummaries(init, rows, states), SummaryOf(keys[|keys| - 1], rows, states));
    }
  }

  lemma CountiesCovered(rows: seq<Row>)
    ensures forall i :: 0 <= i < |rows| ==> rows[i].county in Distinct(Column(rows, County))
  {
    forall i | 0 <= i < |rows| ensures rows[i].county in Distinct(Column(rows, County)) {
      assert Column(rows, County)[i] == rows[i].county;
    }
  }

  /** The county summary before ranking: one entry per distinct county, each
      summarising exactly that county's rows.  CountyTableCovers,
      CountyTableOrder and CountyTableGrandTotal give the rest. */
  function CountyTable(rows: seq<Row>, states: seq<string>): (t: seq<CountySummary>)
    ensures forall i, j :: 0 <= i < j < |t| ==> t[i].county != t[j].county
    ensures forall j :: 0 <= j < |t| ==> t[j] == SummaryOf(t[j].county, rows, states)
  {
    CountySummaries(Distinct(Column(rows, County)), rows, states)
  }

  /** Every county of the rows has an entry, and every entry is a county of the rows. */
  lemma CountyTableCovers(rows: seq<Row>, states: seq<string>)
    ensures forall i :: 0 <= i < |rows| ==>
              exists j :: 0 <= j < |CountyTable(rows, states)| && CountyTable(rows, states)[j].county == rows[i].county
    ensures forall j :: 0 <= j < |CountyTable(rows, states)| ==> CountyTable(rows, states)[j].county in Column(rows, County)
  {
    var counties := Distinct(Column(rows, County));
    var t := CountyTable(rows, states);
    CountiesCovered(rows);
    forall i | 0 <= i < |rows| ensures exists j :: 0 <= j < |t| && t[j].county == rows[i].county {
      var j :| 0 <= j < |counties| && counties[j] == rows[i].county;
      assert t[j].county == counties[j];
    }
    forall j | 0 <= j < |t| ensures t[j].county in Column(rows, County) {
      assert t[j].county == counties[j];
    }
  }

  /** The entries come in the order in which their counties first appear (`unique()`). */
  lemma CountyTableOrder(rows: seq<Row>, states: seq<string>)
    ensures forall j :: 0 <= j < |CountyTable(rows, states)| ==> CountyTable(rows, states)[j].county in Column(rows, County)
    ensures forall i, j :: 0 <= i < j < |CountyTable(rows, states)| ==>
              FirstIndex(Column(rows, County), CountyTable(rows, states)[i].county)
              < FirstIndex(Column(rows, County), CountyTable(rows, states)[j].county)
  {
  }

  /** The county totals add up to the grand total of all rows. */
  lemma CountyTableGrandTotal(rows: seq<Row>, states: seq<string>)
    ensures SumBy(CountyTable(rows, states), TotalMigrationOf) == Total(rows)
  {
    var counties := Distinct(Column(rows, County));
    CountiesCovered(rows);
    SumAcrossTotal(counties, rows, County);
    CountySummariesTotal(counties, rows, states);
  }

  /** The inner loop of `analyze_migration_by_county`: one pass over a county's
      rows keeps a running sum of the internal and of the external counts. */
  method SplitByMembership(countyRows: seq<Row>, states: seq<string>) returns (internal: int, external: int)
    ensures internal == InternalSum(countyRows, states)
    ensures external == ExternalSum(countyRows, states)
    ensures internal + external == Total(countyRows)
  {
    internal, external := 0, 0;
    var j := 0;
    while j < |countyRows|
      invariant 0 <= j <= |countyRows|
      invariant internal == InternalSum(countyRows[..j], states)
      invariant external == ExternalSum(countyRows[..j], states)
    {
      var row := countyRows[j];
      TakeNext(countyRows, j);
      if row.originState in states {
        internal := internal + row.inboundFromState;
      } else {
        external := external + row.inboundFromState;
      }
      j := j + 1;
    }
    assert countyRows[..j] == countyRows;
    SplitIsTotal(countyRows, states);
  }

  function CountyOf(s: CountySummary): string { s.county }

  /** What any ranking of the county table keeps: one entry per county, each
      the summary of that county's rows. */
  lemma RankingKeepsSummaries(rows: seq<Row>, states: seq<string>, ranked: seq<CountySummary>)
    requires multiset(ranked) == multiset(CountyTable(rows, states))
    ensures forall i, j :: 0 <= i < j < |ranked| ==> ranked[i].county != ranked[j].county
    ensures forall i :: 0 <= i < |ranked| ==> ranked[i] == SummaryOf(ranked[i].county, rows, states)
    ensures forall i :: 0 <= i < |ranked| ==> ranked[i].county in Column(rows, County)
  {
    var t := CountyTable(rows, states);
    PermutationKeepsKeysDistinct(t, ranked, CountyOf);
    CountyTableCovers(rows, states);
    forall i | 0 <= i < |ranked|
      ensures ranked[i] == SummaryOf(ranked[i].county, rows, states) && ranked[i].county in Column(rows, County)
    {
      assert ranked[i] in multiset(t);
      var j :| 0 <= j < |t| && t[j] == ranked[i];
    }
  }

  /** `analyze_migration_by_county`: for each county, in order of first
      appearance, one pass over its rows keeps the internal and external
      running sums; the summaries are then ranked by total, descending.
      The table must have rows: with no county the summary frame has no
      `totalMigration` column, and sorting it raises a `KeyError`. */
  method AnalyzeMigrationByCounty(rows: seq<Row>, states: seq<string>) returns (ranked: seq<CountySummary>)
    requires rows != []
    ensures multiset(ranked) == multiset(CountyTable(rows, states))
    ensures NonIncreasing(ranked, TotalMigrationOf)
    ensures forall i, j :: 0 <= i < j < |ranked| ==> ranked[i].county != ranked[j].county
    ensures forall i :: 0 <= i < |ranked| ==> ranked[i] == SummaryOf(ranked[i].county, rows, states)
    ensures forall i :: 0 <= i < |ranked| ==> ranked[i].county in Column(rows, County)
  {
    var counties := Distinct(Column(rows, County));
    var countyData: seq<CountySummary> := [];
    var k := 0;
    while k < |counties|
      invariant 0 <= k <= |counties|
      invariant countyData == CountySummaries(counties[..k], rows, states)
    {
      var county := counties[k];
      var countyRows := RowsWith(rows, County, county);
      var internal, external := SplitByMembership(countyRows, states);
      var total := internal + external;
      var pctInternal := Percent(internal, total);
      var pctExternal := Percent(external, total);
      var summary := CountySummary(county, total, internal, external, pctInternal, pctExternal);
      SummaryFromSums(county, countyRows, states, internal, external);
      assert summary == SummaryOf(county, rows, states);
      TakeNext(counties, k);
      TakeAppend(counties[..k], county);
      CountySummariesSnoc(counties[..k + 1], rows, states);
      countyData := countyData + [summary];
      k := k + 1;
    }
    assert counties[..k] == counties;
    ranked := SortDescending(countyData, TotalMigrationOf);
    RankingKeepsSummaries(rows, states, ranked);
  }
}
