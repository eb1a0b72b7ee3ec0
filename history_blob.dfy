/**
 * The history blob as a whole: which newline-separated segments become records, and the round
 * trip from the points the store writes to the entries the chart screen reads back.
 */
module HistoryBlob {
  import opened Wrappers
  import opened Text
  import opened Longs
  import opened HistoryParser
  import opened HistoryProperties

  /** The line the store writes for one price point: "<epochMillis>, <price>". */
  function HistoryLine(millis: int, price: string): string {
    LongToString(millis) + FIELD_SEPARATOR + price
  }

  /** The blob the store writes for `lines` (oldest first): newest first, every line newline-terminated. */
  function NewestFirstBlob(lines: seq<string>): string {
    Join(Reverse(lines) + [""], NEWLINE)
  }

  /**
   * For a blob made of newline-free segments, the records are all segments but the last, newest
   * segment last: a final segment that is a real record (no trailing newline) is lost.
   */
  lemma RecordsOfSegments(segments: seq<string>)
    requires |segments| >= 1
    requires forall k :: 0 <= k < |segments| ==> '\n' !in segments[k]
    requires |Join(segments, NEWLINE)| > 0
    ensures Records(Join(segments, NEWLINE)) == Reverse(segments[..|segments| - 1])
  {
    SplitJoinChar(segments, '\n');
  }

  /** The trailing newline leaves an empty last segment, which is dropped; every line is a record. */
  lemma NewestFirstBlobRecords(lines: seq<string>)
    requires |lines| >= 1
    requires forall k :: 0 <= k < |lines| ==> '\n' !in lines[k]
    ensures |NewestFirstBlob(lines)| > 0
    ensures Records(NewestFirstBlob(lines)) == lines
  {
    var segments := Reverse(lines) + [""];
    ReverseAt(lines);
    assert Join(segments, NEWLINE) == segments[0] + NEWLINE + Join(segments[1..], NEWLINE);
    RecordsOfSegments(segments);
    assert segments[..|segments| - 1] == Reverse(lines);
    var back := Reverse(Reverse(lines));
    ReverseAt(lines);
    ReverseAt(Reverse(lines));
    assert forall k :: 0 <= k < |lines| ==> back[k] == lines[k];
  }

  /**
   * A line written by the store splits into the decimal timestamp and the price text, and its
   * outcome is the timestamp truncated to seconds, the timestamp, and the parsed price.
   */
  lemma HistoryLineOutcome(millis: int, price: string, parsePrice: string -> Option<real>)
    requires InLongRange(millis)
    requires Free(price, FIELD_SEPARATOR)
    ensures Fields(HistoryLine(millis, price)) == [LongToString(millis), price]
    ensures Classify(HistoryLine(millis, price), parsePrice)
         == match ParseField(parsePrice, price)
            case None => Latched(TruncDiv(millis, MILLIS_PER_SECOND))
            case Some(y) => Point(TruncDiv(millis, MILLIS_PER_SECOND), millis, y)
  {
    var a := LongToString(millis);
    LongToStringPlain(millis);
    forall i | 0 <= i < |a| ensures !OccursAt(a + FIELD_SEPARATOR + price, FIELD_SEPARATOR, i) {
      assert (a + FIELD_SEPARATOR + price)[i] == a[i] != ',';
    }
    SplitFirstPiece(a, FIELD_SEPARATOR, price);
    SplitFree(price, FIELD_SEPARATOR);
    ParseLongToString(millis);
  }

  function LinesOf(points: seq<(int, string)>): (lines: seq<string>)
    ensures |lines| == |points|
  {
    seq(|points|, k requires 0 <= k < |points| => HistoryLine(points[k].0, points[k].1))
  }

  /** The outcome the chart gives a line the store wrote for `point`. */
  function PointOutcome(point: (int, string), parsePrice: string -> Option<real>): Outcome {
    match ParseField(parsePrice, point.1)
    case None => Latched(TruncDiv(point.0, MILLIS_PER_SECOND))
    case Some(y) => Point(TruncDiv(point.0, MILLIS_PER_SECOND), point.0, y)
  }

  function PointOutcomes(points: seq<(int, string)>, parsePrice: string -> Option<real>): seq<Outcome> {
    seq(|points|, k requires 0 <= k < |points| => PointOutcome(points[k], parsePrice))
  }

  /** A point the store can write: a `long` timestamp and a price text with no newline and no ", ". */
  predicate Writable(point: (int, string)) {
    InLongRange(point.0) && '\n' !in point.1 && Free(point.1, FIELD_SEPARATOR)
  }

  /** Every written point comes back as one record, in the order written, whose outcome is that of the point. */
  lemma BlobOutcomes(points: seq<(int, string)>, parsePrice: string -> Option<real>)
    requires |points| >= 1
    requires forall k :: 0 <= k < |points| ==> Writable(points[k])
    ensures |NewestFirstBlob(LinesOf(points))| > 0
    ensures Outcomes(Records(NewestFirstBlob(LinesOf(points))), parsePrice) == PointOutcomes(points, parsePrice)
  {
    var lines := LinesOf(points);
    forall k | 0 <= k < |lines|
      ensures '\n' !in lines[k]
      ensures Classify(lines[k], parsePrice) == PointOutcome(points[k], parsePrice)
    {
      LongToStringPlain(points[k].0);
      HistoryLineOutcome(points[k].0, points[k].1, parsePrice);
    }
    NewestFirstBlobRecords(lines);
  }

  /** Parsing a blob of written points runs the loop over the points' outcomes. */
  lemma ParseBlob(points: seq<(int, string)>, parsePrice: string -> Option<real>, shortDate: int -> string)
    requires |points| >= 1
    requires forall k :: 0 <= k < |points| ==> Writable(points[k])
    ensures |NewestFirstBlob(LinesOf(points))| > 0
    ensures Parse(NewestFirstBlob(LinesOf(points)), parsePrice, shortDate) == RunOutcomes(PointOutcomes(points, parsePrice), shortDate)
  {
    BlobOutcomes(points, parsePrice);
  }

  lemma {:induction false} ExpectedEntriesAllPoints(os: seq<Outcome>, reference: int)
    requires forall k :: 0 <= k < |os| ==> os[k].Point?
    ensures var es := ExpectedEntries(os, reference);
      |es| == |os| && forall k :: 0 <= k < |os| ==> es[k] == Entry(os[k].seconds - reference, os[k].price)
  {
    if os != [] {
      var tail := os[1..];
      assert forall k :: 0 <= k < |tail| ==> tail[k] == os[k + 1];
      ExpectedEntriesAllPoints(tail, reference);
    }
  }

  /**
   * Writing points (oldest first) as a newest-first blob and parsing it back gives one entry per
   * point, in the same order, with the same prices and each x the point's truncated seconds minus
   * the first point's.
   */
  lemma SerializedHistoryRoundTrip(points: seq<(int, string)>, parsePrice: string -> Option<real>,
                                   shortDate: int -> string)
    requires |points| >= 1
    requires forall k :: 0 <= k < |points| ==> Writable(points[k]) && ParseField(parsePrice, points[k].1).Some?
    ensures |NewestFirstBlob(LinesOf(points))| > 0
    ensures var es := Parse(NewestFirstBlob(LinesOf(points)), parsePrice, shortDate).entries;
      && |es| == |points|
      && forall k :: 0 <= k < |points| ==>
           && es[k].x == TruncDiv(points[k].0, MILLIS_PER_SECOND) - TruncDiv(points[0].0, MILLIS_PER_SECOND)
           && ParseField(parsePrice, points[k].1) == Some(es[k].y)
  {
    ParseBlob(points, parsePrice, shortDate);
    var os := PointOutcomes(points, parsePrice);
    RunEntries(os, shortDate);
    assert FirstSeconds(os) == Some(os[0].seconds);
    ExpectedEntriesAllPoints(os, os[0].seconds);
  }

  /** A bad price followed by a good one: the bad one latches, the good one is measured from it. */
  lemma LatchedThenPoint(s1: int, s2: int, m2: int, y: real, shortDate: int -> string)
    ensures RunOutcomes([Latched(s1), Point(s2, m2, y)], shortDate).entries == [Entry(s2 - s1, y)]
  {
    var os := [Latched(s1), Point(s2, m2, y)];
    assert os[..1] == [Latched(s1)] && [Latched(s1)][..0] == [];
    assert RunOutcomes([Latched(s1)], shortDate) == Initial.(reference := Some(s1));
  }

  /**
   * The latch runs before the price is parsed: when the older of two lines has a bad price it
   * still fixes the reference, so the only entry's x is not 0.
   */
  lemma BadPriceStillLatches(m1: int, p1: string, m2: int, p2: string,
                             parsePrice: string -> Option<real>, shortDate: int -> string)
    requires Writable((m1, p1)) && Writable((m2, p2))
    requires ParseField(parsePrice, p1).None? && ParseField(parsePrice, p2).Some?
    ensures |NewestFirstBlob(LinesOf([(m1, p1), (m2, p2)]))| > 0
    ensures Parse(NewestFirstBlob(LinesOf([(m1, p1), (m2, p2)])), parsePrice, shortDate).entries
         == [Entry(TruncDiv(m2, MILLIS_PER_SECOND) - TruncDiv(m1, MILLIS_PER_SECOND), ParseField(parsePrice, p2).value)]
  {
    var points := [(m1, p1), (m2, p2)];
    ParseBlob(points, parsePrice, shortDate);
    var os := PointOutcomes(points, parsePrice);
    var s1, s2, y := TruncDiv(m1, MILLIS_PER_SECOND), TruncDiv(m2, MILLIS_PER_SECOND), ParseField(parsePrice, p2).value;
    assert os[0] == Latched(s1) && os[1] == Point(s2, m2, y);
    assert os == [Latched(s1), Point(s2, m2, y)];
    LatchedThenPoint(s1, s2, m2, y, shortDate);
  }
}
