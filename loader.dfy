/**
 * `load_data`: the survey rows and the list of recognised state names, with
 * every row whose origin is Montana itself removed.  Reading the two files is
 * not modelled; they arrive as a sequence of rows and a sequence of lines.
 */
module Loader {

  import opened Text
  import opened Seqs

  /** One survey row: people who moved from `originState` into `county`. */
  datatype Row = Row(county: string, originState: string, inboundFromState: int)

  /** The destination region's own name, as the filter compares it. */
  const Destination: string := "montana"

  /** `origin.strip().lower() == 'montana'`. */
  predicate IsDestination(origin: string) {
    Lower(Strip(origin)) == Destination
  }

  /** Whether a row survives the load-time filter. */
  predicate KeepsRow(r: Row) {
    !IsDestination(r.originState)
  }

  /** `df[df['originState'].str.strip().str.lower() != 'montana']`: the rows
      whose origin is not Montana, every one of them, in their original order. */
  function ExcludeDestination(rows: seq<Row>): (r: seq<Row>)
    ensures IsSubsequence(r, rows)
    ensures forall x :: multiset(r)[x] == if IsDestination(x.originState) then 0 else multiset(rows)[x]
    ensures forall i :: 0 <= i < |r| ==> !IsDestination(r[i].originState)
  {
    Filter(rows, KeepsRow)
  }

  /** `[line.strip() for line in f.readlines()]`: one name per line, each
      without surrounding whitespace. */
  function LoadStates(lines: seq<string>): (states: seq<string>)
    ensures |states| == |lines|
    ensures forall i :: 0 <= i < |lines| ==> PaddedBy(lines[i], states[i], |lines[i]| - |TrimStart(lines[i], IsSpace)|, IsSpace)
    ensures forall i :: 0 <= i < |states| ==> states[i] == [] || (!IsSpace(states[i][0]) && !IsSpace(states[i][|states[i]| - 1]))
  {
    Map(lines, Strip)
  }

  /** `load_data()`: the filtered rows and the state list. */
  function LoadData(raw: seq<Row>, stateLines: seq<string>): (r: (seq<Row>, seq<string>))
    ensures IsSubsequence(r.0, raw)
    ensures forall x :: multiset(r.0)[x] == if IsDestination(x.originState) then 0 else multiset(raw)[x]
    ensures forall x :: x in r.0 ==> x in raw && !IsDestination(x.originState)
    ensures forall x :: x in raw && !IsDestination(x.originState) ==> x in r.0
    ensures |r.1| == |stateLines|
    ensures forall i :: 0 <= i < |r.1| ==> r.1[i] == Strip(stateLines[i])
  {
    (ExcludeDestination(raw), LoadStates(stateLines))
  }

  /** The origin test ignores case. */
  lemma UpperCaseIsDestination()
    ensures IsDestination("MONTANA")
  {
    StripUnchanged("MONTANA", IsSpace);
    assert Lower("MONTANA") == Destination;
  }

  /** The origin test ignores whitespace around the name. */
  lemma PaddingIgnored(p: string, s: string, q: string)
    requires forall k :: 0 <= k < |p| ==> IsSpace(p[k])
    requires forall k :: 0 <= k < |q| ==> IsSpace(q[k])
    requires s != [] && !IsSpace(s[0]) && !IsSpace(s[|s| - 1])
    ensures IsDestination(p + s + q) == IsDestination(s)
  {
    StripPadding(p, s, q);
    StripUnchanged(s, IsSpace);
  }

  /** Montana in capitals with any whitespace around it is still Montana. */
  lemma PaddedUpperCaseIsDestination(p: string, q: string)
    requires forall k :: 0 <= k < |p| ==> IsSpace(p[k])
    requires forall k :: 0 <= k < |q| ==> IsSpace(q[k])
    ensures IsDestination(p + "MONTANA" + q)
  {
    PaddingIgnored(p, "MONTANA", q);
    UpperCaseIsDestination();
  }

  /** Only the whole stripped origin is compared: whatever is recognised as
      Montana has exactly as many characters, once stripped, as `montana`. */
  lemma DestinationLength(o: string)
    ensures IsDestination(o) ==> |Strip(o)| == |Destination|
  {
    if IsDestination(o) {
      assert |Lower(Strip(o))| == |Strip(o)|;
    }
  }

  /** So a longer name such as `Montana City` is not Montana. */
  lemma LongerNameIsNotDestination()
    ensures !IsDestination("Montana City")
  {
    StripUnchanged("Montana City", IsSpace);
    DestinationLength("Montana City");
  }
}
