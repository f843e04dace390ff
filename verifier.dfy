/**
 * `scripts/sum_inbound.py`: re-reads a written table and re-sums its
 * `inboundFromState` column, skipping cells that do not parse.
 *
 * The file is abstracted as whether it exists, the header `csv.DictReader`
 * reports (`None` for an empty file) and the records it yields, each a map
 * from column name to cell.  A cell is `Some(text)`, or `None` for the value
 * DictReader puts in the cells missing from a short row.
 */
module Verifier {

  import opened Wrappers
  import opened Text
  import opened Seqs

  /** The column that is re-summed. */
  const Target: string := "inboundFromState"

  /** `parse_int`: `int(value)`, else `int(float(value))`, else `None`.  The
      integer branch is modelled for ASCII decimal literals; the float branch
      is the parameter `floatParse`, about which nothing is assumed. */
  function ParseInt(value: string, floatParse: string -> Option<int>): (r: Option<int>)
    ensures ParseIntLiteral(value).Some? ==> r == ParseIntLiteral(value)
    ensures ParseIntLiteral(value).None? ==> r == floatParse(value)
    ensures r.None? <==> ParseIntLiteral(value).None? && floatParse(value).None?
  {
    match ParseIntLiteral(value)
    case Some(n) => Some(n)
    case None => floatParse(value)
  }

  /** `parse_int(str(n)) == n`, whatever the float fallback does. */
  lemma ParseIntDecimal(n: int, floatParse: string -> Option<int>)
    ensures ParseInt(DecimalText(n), floatParse) == Some(n)
  {
    DecimalTextRoundTrip(n);
  }

  /** `r.get('inboundFromState', '')` on a record: a record without the
      column gives the empty text, which `int()` rejects. */
  function Cell(record: map<string, Option<string>>): (c: Option<string>)
    ensures Target in record ==> c == record[Target]
    ensures Target !in record ==> c.Some? && ParseIntLiteral(c.value).None?
  {
    if Target in record then record[Target] else Some("")
  }

  /** The parse of one cell: a `None` cell makes both `int(None)` and
      `float(None)` raise, so `parse_int` returns `None`. */
  function ParseCell(cell: Option<string>, floatParse: string -> Option<int>): (r: Option<int>)
    ensures cell.None? ==> r.None?
    ensures cell.Some? ==> r == ParseInt(cell.value, floatParse)
  {
    match cell
    case None => None
    case Some(v) => ParseInt(v, floatParse)
  }

  /** The target column as the records hold it. */
  function Cells(records: seq<map<string, Option<string>>>): (cells: seq<Option<string>>)
    ensures |cells| == |records|
    ensures forall i :: 0 <= i < |records| ==> cells[i] == Cell(records[i])
  {
    Map(records, Cell)
  }

  /** The number of cells that do not parse. */
  function Skipped(cells: seq<Option<string>>, floatParse: string -> Option<int>): (n: nat)
    ensures n <= |cells|
  {
    if cells == [] then 0
    else Skipped(cells[..|cells| - 1], floatParse) + (if ParseCell(cells[|cells| - 1], floatParse).None? then 1 else 0)
  }

  /** The sum of the values of the cells that parse. */
  function ParsedTotal(cells: seq<Option<string>>, floatParse: string -> Option<int>): (t: int)
    ensures Skipped(cells, floatParse) == |cells| ==> t == 0
    ensures (forall i :: 0 <= i < |cells| ==> ParseCell(cells[i], floatParse).Some? ==> ParseCell(cells[i], floatParse).value >= 0) ==> t >= 0
  {
    if cells == [] then 0
    else
      var v := ParseCell(cells[|cells| - 1], floatParse);
      ParsedTotal(cells[..|cells| - 1], floatParse) + (if v.Some? then v.value else 0)
  }

  lemma {:induction false} CountsConcat(a: seq<Option<string>>, b: seq<Option<string>>, floatParse: string -> Option<int>)
    ensures Skipped(a + b, floatParse) == Skipped(a, floatParse) + Skipped(b, floatParse)
    ensures ParsedTotal(a + b, floatParse) == ParsedTotal(a, floatParse) + ParsedTotal(b, floatParse)
  {
    if b == [] {
      assert a + b == a;
    } else {
      assert (a + b)[..|a + b| - 1] == a + b[..|b| - 1];
      CountsConcat(a, b[..|b| - 1], floatParse);
    }
  }

  /** A bad cell anywhere adds one to the skip count and nothing to the total:
      it never aborts the pass or disturbs the other rows. */
  lemma BadCellIsSkipped(a: seq<Option<string>>, c: Option<string>, b: seq<Option<string>>, floatParse: string -> Option<int>)
    requires ParseCell(c, floatParse).None?
    ensures Skipped(a + [c] + b, floatParse) == Skipped(a + b, floatParse) + 1
    ensures ParsedTotal(a + [c] + b, floatParse) == ParsedTotal(a + b, floatParse)
  {
    CountsConcat(a + [c], b, floatParse);
    CountsConcat(a, [c], floatParse);
    CountsConcat(a, b, floatParse);
    assert [c][..0] == [];
  }

  /** One more record extends both counts by its cell. */
  lemma CellsNext(records: seq<map<string, Option<string>>>, rows: nat, floatParse: string -> Option<int>)
    requires rows < |records|
    ensures var cells, v := Cells(records), ParseCell(Cell(records[rows]), floatParse);
            && Skipped(cells[..rows + 1], floatParse) == Skipped(cells[..rows], floatParse) + (if v.None? then 1 else 0)
            && ParsedTotal(cells[..rows + 1], floatParse) == ParsedTotal(cells[..rows], floatParse) + (if v.Some? then v.value else 0)
  {
    var cells := Cells(records);
    TakeNext(cells, rows);
    TakeAppend(cells[..rows], Cell(records[rows]));
  }

  /** How `sum_inbound` ends. */
  datatype Outcome =
    | FileNotFound                               // "File not found", return 2
    | HeaderUnavailable                          // empty file: `... not in None` raises TypeError
    | MissingColumn(fieldnames: seq<string>)     // header lacks the column, return 3
    | Summed(rows: nat, skipped: nat, total: int) // the counts printed, return 0

  /** The process exit status for each outcome; an uncaught exception exits with 1. */
  function ExitStatus(o: Outcome): (status: int)
    ensures status == 0 <==> o.Summed?
    ensures status == 1 <==> o.HeaderUnavailable?
    ensures status == 2 <==> o.FileNotFound?
    ensures status == 3 <==> o.MissingColumn?
  {
    match o
    case FileNotFound => 2
    case HeaderUnavailable => 1
    case MissingColumn(_) => 3
    case Summed(_, _, _) => 0
  }

  /** `sum_inbound(path)`. */
  method SumInbound(present: bool, fieldnames: Option<seq<string>>, records: seq<map<string, Option<string>>>,
                    floatParse: string -> Option<int>) returns (outcome: Outcome)
    ensures !present ==> outcome == FileNotFound
    ensures present && fieldnames.None? ==> outcome == HeaderUnavailable
    ensures present && fieldnames.Some? && Target !in fieldnames.value ==> outcome == MissingColumn(fieldnames.value)
    ensures present && fieldnames.Some? && Target in fieldnames.value ==>
              outcome == Summed(|records|, Skipped(Cells(records), floatParse), ParsedTotal(Cells(records), floatParse))
  {
    if !present {
      return FileNotFound;
    }
    var total := 0;
    var rows := 0;
    var skipped := 0;
    if fieldnames.None? {
      return HeaderUnavailable;
    }
    if Target !in fieldnames.value {
      return MissingColumn(fieldnames.value);
    }
    ghost var cells := Cells(records);
    while rows < |records|
      invariant 0 <= rows <= |records|
      invariant skipped == Skipped(cells[..rows], floatParse)
      invariant total == ParsedTotal(cells[..rows], floatParse)
    {
      var r := records[rows];
      CellsNext(records, rows, floatParse);
      rows := rows + 1;
      var val := ParseCell(Cell(r), floatParse);
      if val.None? {
        skipped := skipped + 1;
        continue;
      }
      total := total + val.value;
    }
    assert cells[..rows] == cells;
    return Summed(rows, skipped, total);
  }
}
