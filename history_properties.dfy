/**
 * What the history parser promises, stated against independent definitions over the records'
 * outcomes: the reference second is that of the first record whose timestamp parses, the entries
 * are the good records in processing order, the label keys are the entries' x values, and a later
 * record's label overwrites an earlier one with the same x.
 */
module HistoryProperties {
  import opened Wrappers
  import opened Text
  import opened Longs
  import opened HistoryParser
  import AxisFormatter

  lemma OutcomesAppend(a: seq<string>, b: seq<string>, parsePrice: string -> Option<real>)
    ensures Outcomes(a + b, parsePrice) == Outcomes(a, parsePrice) + Outcomes(b, parsePrice)
  {
    var os, oa, ob := Outcomes(a + b, parsePrice), Outcomes(a, parsePrice), Outcomes(b, parsePrice);
    forall k | 0 <= k < |a + b| ensures os[k] == (oa + ob)[k] {
      if k < |a| {
        assert (a + b)[k] == a[k];
      } else {
        assert (a + b)[k] == b[k - |a|];
      }
    }
  }

  lemma RunOutcomesAppend(os: seq<Outcome>, o: Outcome, shortDate: int -> string)
    ensures RunOutcomes(os + [o], shortDate) == Accumulate(RunOutcomes(os, shortDate), o, shortDate)
  {
    assert (os + [o])[..|os|] == os;
  }

  // ---------------------------------------------------------------------------------------------
  // The reference second

  /** The seconds of the first record that gets as far as the latch. */
  function FirstSeconds(os: seq<Outcome>): Option<int> {
    if os == [] then None
    else if !os[0].Skipped? then Some(os[0].seconds)
    else FirstSeconds(os[1..])
  }

  lemma {:induction false} FirstSecondsAppend(os: seq<Outcome>, o: Outcome)
    ensures FirstSeconds(os + [o]) ==
      if FirstSeconds(os).Some? then FirstSeconds(os)
      else if !o.Skipped? then Some(o.seconds)
      else None
  {
    if os != [] {
      assert (os + [o])[0] == os[0];
      assert (os + [o])[1..] == os[1..] + [o];
      FirstSecondsAppend(os[1..], o);
    }
  }

  /** The reference is latched once, from the first record whose timestamp parses. */
  lemma {:induction false} RunReference(os: seq<Outcome>, shortDate: int -> string)
    ensures RunOutcomes(os, shortDate).reference == FirstSeconds(os)
    decreases |os|
  {
    if os != [] {
      var p, o := os[..|os| - 1], os[|os| - 1];
      assert os == p + [o];
      RunReference(p, shortDate);
      FirstSecondsAppend(p, o);
    }
  }

  // ---------------------------------------------------------------------------------------------
  // The entries

  /** One entry per record whose both fields parse, in processing order, each measured from `reference`. */
  function ExpectedEntries(os: seq<Outcome>, reference: int): seq<Entry> {
    if os == [] then []
    else
      (if os[0].Point? then [Entry(os[0].seconds - reference, os[0].price)] else [])
      + ExpectedEntries(os[1..], reference)
  }

  lemma {:induction false} ExpectedEntriesAppend(a: seq<Outcome>, b: seq<Outcome>, reference: int)
    ensures ExpectedEntries(a + b, reference) == ExpectedEntries(a, reference) + ExpectedEntries(b, reference)
  {
    if a == [] {
      assert a + b == b;
    } else {
      assert (a + b)[0] == a[0];
      assert (a + b)[1..] == a[1..] + b;
      ExpectedEntriesAppend(a[1..], b, reference);
    }
  }

  lemma {:induction false} NoLatchNoEntries(os: seq<Outcome>, reference: int)
    requires FirstSeconds(os).None?
    ensures ExpectedEntries(os, reference) == []
  {
    if os != [] {
      NoLatchNoEntries(os[1..], reference);
    }
  }

  /**
   * The entries are exactly one per record that passes both parses, in processing order and
   * unsorted, each with x = its truncated seconds minus the reference second; records with equal x
   * all keep their entry.
   */
  lemma {:induction false} RunEntries(os: seq<Outcome>, shortDate: int -> string)
    ensures FirstSeconds(os).None? ==> RunOutcomes(os, shortDate).entries == []
    ensures FirstSeconds(os).Some? ==>
      RunOutcomes(os, shortDate).entries == ExpectedEntries(os, FirstSeconds(os).value)
    decreases |os|
  {
    if os != [] {
      var p, o := os[..|os| - 1], os[|os| - 1];
      assert os == p + [o];
      RunEntries(p, shortDate);
      RunReference(p, shortDate);
      FirstSecondsAppend(p, o);
      if FirstSeconds(os).Some? {
        var reference := FirstSeconds(os).value;
        ExpectedEntriesAppend(p, [o], reference);
        if FirstSeconds(p).None? {
          NoLatchNoEntries(p, reference);
        }
        assert [o][1..] == [];
      }
    }
  }

  /** Every entry's x lies at or above `low - reference` when every latching record's seconds do. */
  lemma {:induction false} ExpectedEntriesAbove(os: seq<Outcome>, reference: int, low: int)
    requires forall i :: 0 <= i < |os| && !os[i].Skipped? ==> os[i].seconds >= low
    ensures forall e :: e in ExpectedEntries(os, reference) ==> e.x >= low - reference
  {
    if os != [] {
      assert forall i :: 0 <= i < |os[1..]| ==> os[1..][i] == os[i + 1];
      ExpectedEntriesAbove(os[1..], reference, low);
    }
  }

  /** Latching records appear oldest first (at second granularity). */
  predicate Chronological(os: seq<Outcome>) {
    forall i, j :: 0 <= i < j < |os| && !os[i].Skipped? && !os[j].Skipped? ==> os[i].seconds <= os[j].seconds
  }

  predicate SortedByX(entries: seq<Entry>) {
    forall k, l :: 0 <= k < l < |entries| ==> entries[k].x <= entries[l].x
  }

  lemma {:induction false} ExpectedEntriesSorted(os: seq<Outcome>, reference: int)
    requires Chronological(os)
    ensures SortedByX(ExpectedEntries(os, reference))
  {
    if os != [] {
      var tail := os[1..];
      assert forall i :: 0 <= i < |tail| ==> tail[i] == os[i + 1];
      assert Chronological(tail);
      ExpectedEntriesSorted(tail, reference);
      if os[0].Point? {
        ExpectedEntriesAbove(tail, reference, os[0].seconds);
        var es := ExpectedEntries(os, reference);
        var rest := ExpectedEntries(tail, reference);
        assert es == [Entry(os[0].seconds - reference, os[0].price)] + rest;
        forall k, l | 0 <= k < l < |es| ensures es[k].x <= es[l].x {
          assert es[l] == rest[l - 1];
          if k > 0 {
            assert es[k] == rest[k - 1];
          } else {
            assert rest[l - 1] in rest;
          }
        }
      }
    }
  }

  /** In a chronological history the reference second is the smallest latching second. */
  lemma {:induction false} FirstSecondsLowest(os: seq<Outcome>)
    requires Chronological(os)
    ensures FirstSeconds(os).Some? ==>
      forall i :: 0 <= i < |os| && !os[i].Skipped? ==> os[i].seconds >= FirstSeconds(os).value
  {
    if os != [] && os[0].Skipped? {
      var tail := os[1..];
      assert forall i :: 0 <= i < |tail| ==> tail[i] == os[i + 1];
      assert Chronological(tail);
      FirstSecondsLowest(tail);
    }
  }

  /**
   * When the blob is newest first (so the records are visited oldest first), the entries have
   * non-negative x values in ascending order. Without that, nothing sorts them.
   */
  lemma {:induction false} EntriesSortedWhenChronological(os: seq<Outcome>, shortDate: int -> string)
    requires Chronological(os)
    ensures var es := RunOutcomes(os, shortDate).entries;
      && SortedByX(es)
      && forall k :: 0 <= k < |es| ==> es[k].x >= 0
  {
    RunEntries(os, shortDate);
    if FirstSeconds(os).Some? {
      var reference := FirstSeconds(os).value;
      FirstSecondsLowest(os);
      ExpectedEntriesSorted(os, reference);
      ExpectedEntriesAbove(os, reference, reference);
      var es := RunOutcomes(os, shortDate).entries;
      forall k | 0 <= k < |es| ensures es[k].x >= 0 {
        assert es[k] in es;
      }
    }
  }

  lemma {:induction false} FirstSecondsSkipped(os: seq<Outcome>, i: int)
    requires 0 <= i < |os| && !os[i].Skipped?
    requires forall j :: 0 <= j < i ==> os[j].Skipped?
    ensures FirstSeconds(os) == Some(os[i].seconds)
    ensures FirstSeconds(os[..i]).None?
  {
    if i > 0 {
      assert os[..i][1..] == os[1..][..i - 1];
      FirstSecondsSkipped(os[1..], i - 1);
    }
  }

  /** The first entry has x = 0 when the record that latches the reference also has a good price. */
  lemma {:induction false} FirstEntryAtZero(os: seq<Outcome>, i: int, shortDate: int -> string)
    requires 0 <= i < |os| && os[i].Point?
    requires forall j :: 0 <= j < i ==> os[j].Skipped?
    ensures var es := RunOutcomes(os, shortDate).entries;
      |es| >= 1 && es[0] == Entry(0, os[i].price)
  {
    RunEntries(os, shortDate);
    var a, b := os[..i], os[i..];
    assert os == a + b;
    FirstSecondsSkipped(os, i);
    var reference := os[i].seconds;
    ExpectedEntriesAppend(a, b, reference);
    NoLatchNoEntries(a, reference);
    assert b[0] == os[i];
    assert ExpectedEntries(b, reference) == [Entry(0, os[i].price)] + ExpectedEntries(b[1..], reference);
  }

  // ---------------------------------------------------------------------------------------------
  // The labels

  function XValues(entries: seq<Entry>): set<int> {
    set e | e in entries :: e.x
  }

  /** The label map has a key for every entry's x and no other key. */
  lemma {:induction false} RunDateKeys(os: seq<Outcome>, shortDate: int -> string)
    ensures RunOutcomes(os, shortDate).dates.Keys == XValues(RunOutcomes(os, shortDate).entries)
    decreases |os|
  {
    if os != [] {
      var p := os[..|os| - 1];
      RunDateKeys(p, shortDate);
      var before, after := RunOutcomes(p, shortDate), RunOutcomes(os, shortDate);
      if os[|os| - 1].Point? {
        var e := after.entries[|after.entries| - 1];
        assert after.entries == before.entries + [e];
        assert after.dates.Keys == before.dates.Keys + {e.x};
        assert XValues(after.entries) == XValues(before.entries) + {e.x};
      }
    }
  }

  /**
   * The label of an x value is the short date of the LAST visited record with that x: `put`
   * overwrites, so an earlier record with the same x keeps its entry but loses its label.
   */
  lemma {:induction false} LabelFromLastRecord(os: seq<Outcome>, i: int, shortDate: int -> string)
    requires 0 <= i < |os| && os[i].Point?
    requires forall j :: i < j < |os| && os[j].Point? ==> os[j].seconds != os[i].seconds
    ensures FirstSeconds(os).Some?
    ensures var x := os[i].seconds - FirstSeconds(os).value;
      var dates := RunOutcomes(os, shortDate).dates;
      x in dates && dates[x] == DateLabel(shortDate, os[i].millis)
    decreases |os|
  {
    var n := |os|;
    var p := os[..n - 1];
    RunReference(p, shortDate);
    RunReference(os, shortDate);
    if i < n - 1 {
      assert forall j :: 0 <= j < |p| ==> p[j] == os[j];
      LabelFromLastRecord(p, i, shortDate);
    }
  }

  /** On the chart's x axis, the position of every entry shows that entry's own label. */
  lemma EntryLabelOnAxis(os: seq<Outcome>, k: int, shortDate: int -> string)
    requires 0 <= k < |RunOutcomes(os, shortDate).entries|
    ensures var st := RunOutcomes(os, shortDate);
      var x := st.entries[k].x;
      x in st.dates && AxisFormatter.FormattedValue(st.dates, x as real) == st.dates[x]
  {
    var st := RunOutcomes(os, shortDate);
    RunDateKeys(os, shortDate);
    assert st.entries[k].x in XValues(st.entries);
    AxisFormatter.FormattedValueAtKey(st.dates, st.entries[k].x);
  }

  // ---------------------------------------------------------------------------------------------
  // Records that are skipped

  lemma {:induction false} SkippedInvisible(a: seq<Outcome>, b: seq<Outcome>, shortDate: int -> string)
    ensures RunOutcomes(a + [Skipped] + b, shortDate) == RunOutcomes(a + b, shortDate)
    decreases |b|
  {
    if b == [] {
      assert a + [Skipped] + b == a + [Skipped] && (a + [Skipped])[..|a|] == a && a + b == a;
    } else {
      var b', o := b[..|b| - 1], b[|b| - 1];
      assert a + [Skipped] + b == (a + [Skipped] + b') + [o];
      assert a + b == (a + b') + [o];
      SkippedInvisible(a, b', shortDate);
      RunOutcomesAppend(a + [Skipped] + b', o, shortDate);
      RunOutcomesAppend(a + b', o, shortDate);
    }
  }

  /**
   * A record without exactly two fields, or whose timestamp does not parse, changes nothing:
   * removing it from anywhere in the input gives the same entries, labels and reference.
   */
  lemma SkippedRecordInvisible(a: seq<string>, r: string, b: seq<string>,
                               parsePrice: string -> Option<real>, shortDate: int -> string)
    requires |Fields(r)| != 2 || ParseLong(Fields(r)[0]).None?
    ensures Run(a + [r] + b, parsePrice, shortDate) == Run(a + b, parsePrice, shortDate)
  {
    OutcomesAppend(a + [r], b, parsePrice);
    OutcomesAppend(a, [r], parsePrice);
    OutcomesAppend(a, b, parsePrice);
    assert Outcomes([r], parsePrice) == [Skipped];
    SkippedInvisible(Outcomes(a, parsePrice), Outcomes(b, parsePrice), shortDate);
  }

  /**
   * A record with exactly two fields and a good timestamp but a bad price adds no entry and no
   * label, yet latches the reference if none was latched.
   */
  lemma BadPriceOnlyLatches(records: seq<string>, r: string, parsePrice: string -> Option<real>,
                            shortDate: int -> string)
    requires |Fields(r)| == 2 && ParseLong(Fields(r)[0]).Some? && ParseField(parsePrice, Fields(r)[1]).None?
    ensures var before, after := Run(records, parsePrice, shortDate), Run(records + [r], parsePrice, shortDate);
      && after.entries == before.entries
      && after.dates == before.dates
      && after.reference == Some(before.reference.GetOr(TruncDiv(ParseLong(Fields(r)[0]).value, MILLIS_PER_SECOND)))
  {
    RunAppend(records, r, parsePrice, shortDate);
  }
}
