/**
 * `analyze_by_county_detail`: for each county of the ranked summary, its own
 * rows with each row's share of the county total, ranked by count, written
 * to a file whose name starts with the county's rank.
 */
module DetailReporter {

  import opened Text
  import opened Seqs
  import opened Ranker
  import opened Loader
  import opened Aggregator

  /** One line of a county's detail file. */
  datatype DetailRow = DetailRow(originState: string, inboundFromState: int, pctOfTotal: real)

  function DetailInbound(d: DetailRow): int { d.inboundFromState }

  /** The detail line for one row of a county whose total is `total`. */
  function DetailOf(r: Row, total: int): (d: DetailRow)
    ensures d.originState == r.originState && d.inboundFromState == r.inboundFromState
    ensures total <= 0 ==> d.pctOfTotal == 0.0
  {
    DetailRow(r.originState, r.inboundFromState, Percent(r.inboundFromState, total))
  }

  /** With a positive county total, a line's share times the total is its
      count times 100. */
  lemma DetailShare(r: Row, total: int)
    requires total > 0
    ensures DetailOf(r, total).pctOfTotal * (total as real) == (r.inboundFromState as real) * 100.0
  {
    PercentScales(r.inboundFromState, total);
  }

  /** The detail lines of the county rows `rows`, in row order. */
  function DetailRowsOf(rows: seq<Row>, total: int): (ds: seq<DetailRow>)
    ensures |ds| == |rows|
    ensures forall k :: 0 <= k < |rows| ==> ds[k] == DetailOf(rows[k], total)
  {
    Map(rows, r => DetailOf(r, total))
  }

  lemma DetailRowsSnoc(rows: seq<Row>, total: int)
    requires rows != []
    ensures DetailRowsOf(rows, total) == DetailRowsOf(rows[..|rows| - 1], total) + [DetailOf(rows[|rows| - 1], total)]
  {
    MapSnoc(rows, r => DetailOf(r, total));
  }

  /** The detail lines carry the county's counts, no more and no fewer. */
  lemma {:induction false} DetailRowsTotal(rows: seq<Row>, total: int)
    ensures SumBy(DetailRowsOf(rows, total), DetailInbound) == Total(rows)
  {
    if rows != [] {
      var init := rows[..|rows| - 1];
      DetailRowsTotal(init, total);
      DetailRowsSnoc(rows, total);
      TakeAppend(DetailRowsOf(init, total), DetailOf(rows[|rows| - 1], total));
    }
  }

  /** The sum of the `pctOfTotal` column. */
  function SumPct(ds: seq<DetailRow>): real {
    if ds == [] then 0.0 else SumPct(ds[..|ds| - 1]) + ds[|ds| - 1].pctOfTotal
  }

  /** Shares of one total add up to the share of the sum. */
  lemma {:induction false} SharesAddUp(ds: seq<DetailRow>, total: int)
    requires forall k :: 0 <= k < |ds| ==> ds[k].pctOfTotal == Percent(ds[k].inboundFromState, total)
    ensures SumPct(ds) == Percent(SumBy(ds, DetailInbound), total)
  {
    if ds != [] {
      var init, last := ds[..|ds| - 1], ds[|ds| - 1];
      SharesAddUp(init, total);
      PercentAdditive(SumBy(init, DetailInbound), last.inboundFromState, total);
    }
  }

  /** `f"{rank}-{county.lower().replace(' ', '-')}.csv"`. */
  function Filename(rank: nat, county: string): (f: string)
    ensures ' ' !in f
    ensures forall k :: 0 <= k < |f| ==> !('A' <= f[k] <= 'Z')
    ensures |f| == |DecimalText(rank)| + 1 + |county| + 4
    ensures f[..|DecimalText(rank)| + 1] == DecimalText(rank) + "-"
    ensures forall k :: 0 <= k < |county| ==>
              f[|DecimalText(rank)| + 1 + k] == (if county[k] == ' ' then '-' else LowerChar(county[k]))
    ensures f[|f| - 4..] == ".csv"
  {
    var d, c := DecimalText(rank), ReplaceChar(Lower(county), ' ', '-');
    var f := d + "-" + c + ".csv";
    assert forall k :: 0 <= k < |c| ==> f[|d| + 1 + k] == c[k];
    assert forall k :: 0 <= k < |d| ==> f[k] == d[k];
    f
  }

  /** The rank can be read back from a filename: the digits before the first `-`. */
  lemma FilenameKeepsRank(rank: nat, county: string)
    ensures var f := Filename(rank, county);
            var n := |DecimalText(rank)|;
            n < |f| && f[n] == '-' && AllDigits(f[..n]) && ParseDigits(f[..n]) == rank
  {
    var f := Filename(rank, county);
    var d := DecimalText(rank);
    assert f[..|d|] == d;
    ParseNatDigits(rank);
  }

  /** Files of different ranks never share a name, whatever the county names. */
  lemma DistinctRanksDistinctFilenames(r1: nat, c1: string, r2: nat, c2: string)
    requires r1 != r2
    ensures Filename(r1, c1) != Filename(r2, c2)
  {
    FilenameKeepsRank(r1, c1);
    FilenameKeepsRank(r2, c2);
  }

  /** One county's output: its rank, the file name, and the sorted detail lines. */
  datatype DetailFile = DetailFile(rank: nat, county: string, filename: string, rows: seq<DetailRow>)

  /** What the source promises of the file for `county` at position `rank`:
      its name follows the rank rule; its lines are that county's rows, each
      once, ranked by count, with counts adding up to the county total and
      each share measured against that total. */
  ghost predicate IsCountyDetail(f: DetailFile, rank: nat, county: string, rows: seq<Row>) {
    var countyRows := RowsWith(rows, County, county);
    var total := Total(countyRows);
    && f.rank == rank
    && f.county == county
    && f.filename == Filename(rank, county)
    && multiset(f.rows) == multiset(DetailRowsOf(countyRows, total))
    && NonIncreasing(f.rows, DetailInbound)
    && SumBy(f.rows, DetailInbound) == total
    && (forall k :: 0 <= k < |f.rows| ==> f.rows[k].pctOfTotal == Percent(f.rows[k].inboundFromState, total))
  }

  /** The body of the outer loop for one county: select its rows, recompute
      its total, build one line per row, and sort the lines by count.  The
      county must have rows: sorting the frame built from no lines raises a
      `KeyError`, as it has no `inboundFromState` column, and the outer loop
      only passes counties of the table. */
  method CountyDetail(rows: seq<Row>, rank: nat, county: string) returns (f: DetailFile)
    requires county in Column(rows, County)
    ensures IsCountyDetail(f, rank, county, rows)
  {
    var countyRows := RowsWith(rows, County, county);
    var total := Total(countyRows);
    var countyDetail: seq<DetailRow> := [];
    var j := 0;
    while j < |countyRows|
      invariant 0 <= j <= |countyRows|
      invariant countyDetail == DetailRowsOf(countyRows[..j], total)
    {
      var r := countyRows[j];
      var pctOfTotal := Percent(r.inboundFromState, total);
      TakeNext(countyRows, j);
      TakeAppend(countyRows[..j], r);
      DetailRowsSnoc(countyRows[..j + 1], total);
      countyDetail := countyDetail + [DetailRow(r.originState, r.inboundFromState, pctOfTotal)];
      j := j + 1;
    }
    assert countyRows[..j] == countyRows;
    var sorted := SortDescending(countyDetail, DetailInbound);
    DetailRowsTotal(countyRows, total);
    SumByPermutation(sorted, countyDetail, DetailInbound);
    DetailSharesKept(countyRows, total, sorted);
    f := DetailFile(rank, county, Filename(rank, county), sorted);
  }

  /** Every line of any reordering of DetailRowsOf carries its share of `total`. */
  lemma DetailSharesKept(countyRows: seq<Row>, total: int, ds: seq<DetailRow>)
    requires multiset(ds) == multiset(DetailRowsOf(countyRows, total))
    ensures forall k :: 0 <= k < |ds| ==> ds[k].pctOfTotal == Percent(ds[k].inboundFromState, total)
  {
    forall k | 0 <= k < |ds| ensures ds[k].pctOfTotal == Percent(ds[k].inboundFromState, total) {
      assert ds[k] in multiset(DetailRowsOf(countyRows, total));
    }
  }

  /** `analyze_by_county_detail`: one file per entry of the ranked summary, the
      entry at position `idx` getting rank `idx + 1`. */
  method AnalyzeByCountyDetail(rows: seq<Row>, ranked: seq<CountySummary>) returns (files: seq<DetailFile>)
    requires forall i :: 0 <= i < |ranked| ==> ranked[i].county in Column(rows, County)
    ensures |files| == |ranked|
    ensures forall i :: 0 <= i < |files| ==> IsCountyDetail(files[i], i + 1, ranked[i].county, rows)
    ensures forall i, j :: 0 <= i < j < |files| ==> files[i].filename != files[j].filename
  {
    files := [];
    var idx := 0;
    while idx < |ranked|
      invariant 0 <= idx <= |ranked|
      invariant |files| == idx
      invariant forall i :: 0 <= i < idx ==> IsCountyDetail(files[i], i + 1, ranked[i].county, rows)
      invariant forall i :: 0 <= i < idx ==> files[i].filename == Filename(i + 1, ranked[i].county)
    {
      var rank := idx + 1;
      var f := CountyDetail(rows, rank, ranked[idx].county);
      DetailFilesAppend(files, f, ranked, rows);
      files := files + [f];
      idx := idx + 1;
    }
    RankedFilenamesDistinct(files, ranked);
  }

  lemma DetailFilesAppend(files: seq<DetailFile>, f: DetailFile, ranked: seq<CountySummary>, rows: seq<Row>)
    requires |files| < |ranked|
    requires forall i :: 0 <= i < |files| ==> IsCountyDetail(files[i], i + 1, ranked[i].county, rows)
    requires IsCountyDetail(f, |files| + 1, ranked[|files|].county, rows)
    ensures forall i :: 0 <= i <= |files| ==> IsCountyDetail((files + [f])[i], i + 1, ranked[i].county, rows)
    ensures forall i :: 0 <= i <= |files| ==> (files + [f])[i].filename == Filename(i + 1, ranked[i].county)
  {
    forall i | 0 <= i <= |files|
      ensures IsCountyDetail((files + [f])[i], i + 1, ranked[i].county, rows)
    {
      if i < |files| {
        assert (files + [f])[i] == files[i];
      }
    }
  }

  /** Files named by consecutive ranks all have different names. */
  lemma RankedFilenamesDistinct(files: seq<DetailFile>, ranked: seq<CountySummary>)
    requires |files| == |ranked|
    requires forall i :: 0 <= i < |files| ==> files[i].filename == Filename(i + 1, ranked[i].county)
    ensures forall i, j :: 0 <= i < j < |files| ==> files[i].filename != files[j].filename
  {
    forall i, j | 0 <= i < j < |files| ensures files[i].filename != files[j].filename {
      var r1, r2 := i + 1, j + 1;
      DistinctRanksDistinctFilenames(r1, ranked[i].county, r2, ranked[j].county);
      assert files[i].filename == Filename(r1, ranked[i].county);
      assert files[j].filename == Filename(r2, ranked[j].county);
    }
  }

  /** Within each file the shares add up to 100 when the county total is
      positive, and are all 0 otherwise. */
  lemma DetailSharesSumToHundred(f: DetailFile, rank: nat, county: string, rows: seq<Row>)
    requires IsCountyDetail(f, rank, county, rows)
    ensures Total(RowsWith(rows, County, county)) > 0 ==> SumPct(f.rows) == 100.0
    ensures Total(RowsWith(rows, County, county)) <= 0 ==> forall k :: 0 <= k < |f.rows| ==> f.rows[k].pctOfTotal == 0.0
  {
    var total := Total(RowsWith(rows, County, county));
    SharesAddUp(f.rows, total);
    if total > 0 {
      PercentOfWhole(total);
    }
  }
}
