/**
 * The reference-second latch as the Java code writes it: `referenceDate` starts at -1 and the
 * test `referenceDate == -1` stands for "not latched yet". A latched value of -1 (a first
 * timestamp between -1999 and -1000 ms) is mistaken for "not latched", so the next record
 * latches again. `HistoryParser.Accumulate` uses an explicit `Option` instead; this module shows
 * the two agree whenever no record's seconds are -1, and where they part.
 */
module ReferenceLatch {
  import opened Wrappers
  import opened Text
  import opened Longs
  import opened HistoryParser
  import opened HistoryProperties
  import opened HistoryBlob

  const UNSET: int := -1

  datatype WrittenState = WrittenState(entries: seq<Entry>, dates: map<int, string>, referenceDate: int)

  /** The state half of the loop body with the `-1` sentinel. */
  function AccumulateAsWritten(st: WrittenState, o: Outcome, shortDate: int -> string): WrittenState {
    match o
    case Skipped => st
    case Latched(xLong) => st.(referenceDate := if st.referenceDate == UNSET then xLong else st.referenceDate)
    case Point(xLong, dateInMillis, y) =>
      var referenceDate := if st.referenceDate == UNSET then xLong else st.referenceDate;
      var x := xLong - referenceDate;
      WrittenState(st.entries + [Entry(x, y)], st.dates[x := DateLabel(shortDate, dateInMillis)], referenceDate)
  }

  /** The loop body as written. */
  function StepAsWritten(st: WrittenState, record: string, parsePrice: string -> Option<real>,
                         shortDate: int -> string): WrittenState
  {
    AccumulateAsWritten(st, Classify(record, parsePrice), shortDate)
  }

  function RunOutcomesAsWritten(os: seq<Outcome>, shortDate: int -> string): WrittenState
    decreases |os|
  {
    if os == [] then WrittenState([], map[], UNSET)
    else AccumulateAsWritten(RunOutcomesAsWritten(os[..|os| - 1], shortDate), os[|os| - 1], shortDate)
  }

  function RunAsWritten(records: seq<string>, parsePrice: string -> Option<real>, shortDate: int -> string): WrittenState {
    RunOutcomesAsWritten(Outcomes(records, parsePrice), shortDate)
  }

  function ParseAsWritten(historyData: string, parsePrice: string -> Option<real>, shortDate: int -> string): WrittenState
    requires |historyData| > 0
  {
    RunAsWritten(Records(historyData), parsePrice, shortDate)
  }

  /** Visiting one more record is one more turn of the loop body as written. */
  lemma RunAsWrittenAppend(records: seq<string>, r: string, parsePrice: string -> Option<real>,
                           shortDate: int -> string)
    ensures RunAsWritten(records + [r], parsePrice, shortDate)
         == StepAsWritten(RunAsWritten(records, parsePrice, shortDate), r, parsePrice, shortDate)
  {
    OutcomesAppend(records, [r], parsePrice);
    var os := Outcomes(records, parsePrice);
    assert (os + [Classify(r, parsePrice)])[..|os|] == os;
  }

  /** Unless some record's truncated seconds are exactly -1, the sentinel latch behaves like the `Option` latch. */
  lemma {:induction false} AsWrittenAgrees(os: seq<Outcome>, shortDate: int -> string)
    requires forall k :: 0 <= k < |os| && !os[k].Skipped? ==> os[k].seconds != UNSET
    ensures RunOutcomesAsWritten(os, shortDate).entries == RunOutcomes(os, shortDate).entries
    ensures RunOutcomesAsWritten(os, shortDate).dates == RunOutcomes(os, shortDate).dates
    ensures RunOutcomesAsWritten(os, shortDate).referenceDate == RunOutcomes(os, shortDate).reference.GetOr(UNSET)
    ensures RunOutcomes(os, shortDate).reference != Some(UNSET)
    decreases |os|
  {
    if os != [] {
      var p := os[..|os| - 1];
      assert forall k :: 0 <= k < |p| ==> p[k] == os[k];
      AsWrittenAgrees(p, shortDate);
    }
  }

  /**
   * Two good records, the older of which truncates to -1 seconds: the newer one latches again, so
   * both entries get x = 0.
   */
  lemma SentinelRelatches(m1: int, s2: int, m2: int, y: real, shortDate: int -> string)
    ensures RunOutcomesAsWritten([Point(UNSET, m1, y), Point(s2, m2, y)], shortDate).entries == [Entry(0, y), Entry(0, y)]
    ensures RunOutcomes([Point(UNSET, m1, y), Point(s2, m2, y)], shortDate).entries == [Entry(0, y), Entry(s2 + 1, y)]
  {
    var os := [Point(UNSET, m1, y), Point(s2, m2, y)];
    assert os[..1] == [Point(UNSET, m1, y)] && [Point(UNSET, m1, y)][..0] == [];
    assert RunOutcomesAsWritten([Point(UNSET, m1, y)], shortDate).entries == [Entry(0, y)];
    assert RunOutcomesAsWritten([Point(UNSET, m1, y)], shortDate).referenceDate == UNSET;
    assert RunOutcomes([Point(UNSET, m1, y)], shortDate).entries == [Entry(0, y)];
    assert RunOutcomes([Point(UNSET, m1, y)], shortDate).reference == Some(UNSET);
  }

  /** Parsing a blob of written points as written runs the sentinel loop over the points' outcomes. */
  lemma ParseAsWrittenBlob(points: seq<(int, string)>, parsePrice: string -> Option<real>, shortDate: int -> string)
    requires |points| >= 1
    requires forall k :: 0 <= k < |points| ==> Writable(points[k])
    ensures |NewestFirstBlob(LinesOf(points))| > 0
    ensures ParseAsWritten(NewestFirstBlob(LinesOf(points)), parsePrice, shortDate)
         == RunOutcomesAsWritten(PointOutcomes(points, parsePrice), shortDate)
  {
    BlobOutcomes(points, parsePrice);
  }

  /**
   * A newest-first blob of two good lines whose older timestamp truncates to -1 seconds: as
   * written both entries get x = 0; with a real latch the newer one is measured from -1.
   */
  lemma SentinelCollisionAt(m1: int, m2: int, price: string, parsePrice: string -> Option<real>,
                            shortDate: int -> string)
    requires Writable((m1, price)) && Writable((m2, price)) && ParseField(parsePrice, price).Some?
    requires TruncDiv(m1, MILLIS_PER_SECOND) == UNSET
    ensures |NewestFirstBlob(LinesOf([(m1, price), (m2, price)]))| > 0
    ensures var blob := NewestFirstBlob(LinesOf([(m1, price), (m2, price)]));
      var y := ParseField(parsePrice, price).value;
      && ParseAsWritten(blob, parsePrice, shortDate).entries == [Entry(0, y), Entry(0, y)]
      && Parse(blob, parsePrice, shortDate).entries == [Entry(0, y), Entry(TruncDiv(m2, MILLIS_PER_SECOND) + 1, y)]
  {
    var points := [(m1, price), (m2, price)];
    ParseBlob(points, parsePrice, shortDate);
    ParseAsWrittenBlob(points, parsePrice, shortDate);
    var s2, y := TruncDiv(m2, MILLIS_PER_SECOND), ParseField(parsePrice, price).value;
    var os := PointOutcomes(points, parsePrice);
    assert os[0] == Point(UNSET, m1, y) && os[1] == Point(s2, m2, y);
    assert os == [Point(UNSET, m1, y), Point(s2, m2, y)];
    SentinelRelatches(m1, s2, m2, y, shortDate);
  }

  /**
   * The blob "2000, p\n-1000, p\n": as written, the older record latches -1, the newer one
   * latches again, and both entries get x = 0; with a real latch the newer one gets x = 2 - (-1) = 3.
   */
  lemma SentinelCollision(price: string, parsePrice: string -> Option<real>, shortDate: int -> string)
    requires '\n' !in price && Free(price, FIELD_SEPARATOR) && ParseField(parsePrice, price).Some?
    ensures |NewestFirstBlob(LinesOf([(-1000, price), (2000, price)]))| > 0
    ensures var blob := NewestFirstBlob(LinesOf([(-1000, price), (2000, price)]));
      var y := ParseField(parsePrice, price).value;
      && ParseAsWritten(blob, parsePrice, shortDate).entries == [Entry(0, y), Entry(0, y)]
      && Parse(blob, parsePrice, shortDate).entries == [Entry(0, y), Entry(3, y)]
  {
    assert TruncDiv(-1000, MILLIS_PER_SECOND) == UNSET && TruncDiv(2000, MILLIS_PER_SECOND) == 2;
    SentinelCollisionAt(-1000, 2000, price, parsePrice, shortDate);
  }
}
