/**
 * The price-history parser of the stock chart screen. The store keeps one text blob per symbol:
 * one record "<epochMillis>, <price>" per line, newest record first, every line ended by a newline.
 * The screen drops the last newline-separated segment, walks the rest oldest first, and turns every
 * good record into a chart entry (x = seconds since the first record whose timestamp parses,
 * y = price) and a label (x -> short date of the record).
 *
 * Price parsing (`Float.parseFloat`) and date formatting (`DateFormat.format`) are library calls
 * and enter as the function parameters `parsePrice` and `shortDate`.
 */
module HistoryParser {
  import opened Wrappers
  import opened Text
  import opened Longs

  const NEWLINE: string := "\n"
  const FIELD_SEPARATOR: string := ", "
  const MILLIS_PER_SECOND: int := 1000

  /** A chart point: seconds after the reference record, and the price. */
  datatype Entry = Entry(x: int, y: real)

  /** What the parsing loop has built so far: the entries, the date labels, the latched reference second. */
  datatype ParseState = ParseState(entries: seq<Entry>, dates: map<int, string>, reference: Option<int>)

  const Initial: ParseState := ParseState([], map[], None)

  /** `Collections.reverse` on a copy. */
  function Reverse<T>(s: seq<T>): (r: seq<T>)
    ensures |r| == |s|
  {
    if s == [] then [] else Reverse(s[1..]) + [s[0]]
  }

  /** The i-th element of the reverse is the i-th element from the end. */
  lemma {:induction false} ReverseAt<T>(s: seq<T>)
    ensures forall i :: 0 <= i < |s| ==> Reverse(s)[i] == s[|s| - 1 - i]
  {
    if s != [] {
      ReverseAt(s[1..]);
    }
  }

  /**
   * The records the loop visits: every newline-separated segment except the last, in reverse order
   * of their appearance in the blob.
   */
  function Records(historyData: string): (r: seq<string>)
    requires |historyData| > 0
    ensures var lines := TextUtilsSplit(historyData, NEWLINE);
      && |r| == |lines| - 1
      && forall i :: 0 <= i < |r| ==> r[i] == lines[|lines| - 2 - i]
  {
    var lines := TextUtilsSplit(historyData, NEWLINE);
    ReverseAt(lines[..|lines| - 1]);
    Reverse(lines[..|lines| - 1])
  }

  // ---------------------------------------------------------------------------------------------
  // One record

  function Fields(record: string): seq<string> {
    TextUtilsSplit(record, FIELD_SEPARATOR)
  }

  /** `Float.parseFloat` applied to a price field (`None` where it throws). */
  function ParseField(parsePrice: string -> Option<real>, field: string): Option<real> {
    parsePrice(field)
  }

  /** The short-date label of a timestamp, as `DateFormat.getDateInstance(SHORT)` formats it. */
  function DateLabel(shortDate: int -> string, millis: int): string {
    shortDate(millis)
  }

  /** What the loop body makes of one record before it touches the state. */
  datatype Outcome =
    | Skipped                                        // not two fields, or the timestamp is not a long
    | Latched(seconds: int)                          // the timestamp parses, the price does not
    | Point(seconds: int, millis: int, price: real)  // both fields parse

  /** The parsing half of the loop body: split, count the fields, parse the timestamp, truncate it to seconds, parse the price. */
  function Classify(record: string, parsePrice: string -> Option<real>): Outcome {
    var xy := TextUtilsSplit(record, FIELD_SEPARATOR);
    if |xy| != 2 then Skipped
    else match ParseLong(xy[0])
      case None => Skipped
      case Some(dateInMillis) =>
        var xLong := TruncDiv(dateInMillis, MILLIS_PER_SECOND);
        match ParseField(parsePrice, xy[1])
        case None => Latched(xLong)
        case Some(y) => Point(xLong, dateInMillis, y)
  }

  /**
   * The state half of the loop body: a record whose timestamp parses latches the reference if
   * none is latched yet (before its price is looked at); a record whose price parses too appends
   * its entry and puts its label under the entry's x.
   */
  function Accumulate(st: ParseState, o: Outcome, shortDate: int -> string): ParseState {
    match o
    case Skipped => st
    case Latched(xLong) => st.(reference := Some(st.reference.GetOr(xLong)))
    case Point(xLong, dateInMillis, y) =>
      var referenceDate := st.reference.GetOr(xLong);
      var x := xLong - referenceDate;
      ParseState(st.entries + [Entry(x, y)], st.dates[x := DateLabel(shortDate, dateInMillis)], Some(referenceDate))
  }

  /** One turn of the loop body. */
  function Step(st: ParseState, record: string, parsePrice: string -> Option<real>,
                shortDate: int -> string): ParseState
  {
    Accumulate(st, Classify(record, parsePrice), shortDate)
  }

  /** The outcome of every record, in order. */
  function Outcomes(records: seq<string>, parsePrice: string -> Option<real>): seq<Outcome> {
    seq(|records|, k requires 0 <= k < |records| => Classify(records[k], parsePrice))
  }

  /** The state after the loop has consumed `os`, from the initial state. */
  function RunOutcomes(os: seq<Outcome>, shortDate: int -> string): ParseState
    decreases |os|
  {
    if os == [] then Initial
    else Accumulate(RunOutcomes(os[..|os| - 1], shortDate), os[|os| - 1], shortDate)
  }

  /** The loop run over `records` in order, from the initial state. */
  function Run(records: seq<string>, parsePrice: string -> Option<real>, shortDate: int -> string): ParseState {
    RunOutcomes(Outcomes(records, parsePrice), shortDate)
  }

  /** What the chart screen builds from a history blob. */
  function Parse(historyData: string, parsePrice: string -> Option<real>, shortDate: int -> string): ParseState
    requires |historyData| > 0
  {
    Run(Records(historyData), parsePrice, shortDate)
  }

  /** Visiting one more record is one more turn of the loop body. */
  lemma RunAppend(records: seq<string>, r: string, parsePrice: string -> Option<real>, shortDate: int -> string)
    ensures Run(records + [r], parsePrice, shortDate) == Step(Run(records, parsePrice, shortDate), r, parsePrice, shortDate)
  {
    var os := Outcomes(records + [r], parsePrice);
    assert os[..|records|] == Outcomes(records, parsePrice);
    assert os[|records|] == Classify(r, parsePrice);
  }

  // ---------------------------------------------------------------------------------------------
  // The screen: `mEntries` is a field that the parsing loop appends to.

  class StockChartActivity {
    var entries: seq<Entry>

    constructor ()
      ensures entries == []
    {
      entries := [];
    }

    /** The parsing part of `onCreate`: appends the blob's entries and returns its date labels. */
    method LoadHistory(historyData: string, parsePrice: string -> Option<real>, shortDate: int -> string)
      returns (dates: map<int, string>)
      requires |historyData| > 0
      modifies this
      ensures entries == old(entries) + Parse(historyData, parsePrice, shortDate).entries
      ensures dates == Parse(historyData, parsePrice, shortDate).dates
    {
      var lines := TextUtilsSplit(historyData, NEWLINE);
      var dataPoints := Reverse(lines[..|lines| - 1]);
      var referenceDate: Option<int> := None;
      dates := map[];
      ghost var before := entries;
      ghost var state := Initial;
      for i := 0 to |dataPoints|
        invariant state == Run(dataPoints[..i], parsePrice, shortDate)
        invariant entries == before + state.entries
        invariant dates == state.dates
        invariant referenceDate == state.reference
      {
        assert dataPoints[..i + 1] == dataPoints[..i] + [dataPoints[i]];
        RunAppend(dataPoints[..i], dataPoints[i], parsePrice, shortDate);
        ghost var st := state;
        state := Step(st, dataPoints[i], parsePrice, shortDate);
        var xy := TextUtilsSplit(dataPoints[i], FIELD_SEPARATOR);
        if |xy| != 2 {
          continue;
        }
        var dateInMillis := ParseLong(xy[0]);
        if dateInMillis.None? {
          continue;
        }
        var xLong := TruncDiv(dateInMillis.value, MILLIS_PER_SECOND);
        if referenceDate.None? {
          referenceDate := Some(xLong);
        }
        var x := xLong - referenceDate.value;
        var y := ParseField(parsePrice, xy[1]);
        if y.None? {
          continue;
        }
        entries := entries + [Entry(x, y.value)];
        dates := dates[x := DateLabel(shortDate, dateInMillis.value)];
      }
      assert dataPoints[..|dataPoints|] == dataPoints;
    }
  }
}
