/**
 * The x-axis label formatter of the chart: given an axis position, it looks up the greatest label
 * key at or below it (floor) and the least at or above it (ceiling) and returns the label of the
 * closer one, the floor only when it is strictly closer. A missing side counts as infinitely far;
 * with no key at all the lookup of an absent entry is caught and "" is returned.
 */
module AxisFormatter {
  import opened Wrappers

  /** A distance that may be infinite (`Float.POSITIVE_INFINITY`). */
  datatype Distance = Finite(d: real) | Infinite

  predicate Less(a: Distance, b: Distance) {
    match a
    case Infinite => false
    case Finite(x) => b.Infinite? || x < b.d
  }

  /** The greatest element of a finite non-empty set of keys. */
  lemma {:induction false} Greatest(s: set<int>) returns (m: int)
    requires s != {}
    ensures m in s && forall j :: j in s ==> j <= m
  {
    if forall j :: j !in s {
      assert false;
    }
    var x :| x in s;
    if s == {x} {
      m := x;
    } else {
      var k := Greatest(s - {x});
      m := if k < x then x else k;
      forall j | j in s ensures j <= m {
        if j != x {
          assert j in s - {x};
        }
      }
    }
  }

  /** The least element of a finite non-empty set of keys. */
  lemma {:induction false} Least(s: set<int>) returns (m: int)
    requires s != {}
    ensures m in s && forall j :: j in s ==> m <= j
  {
    if forall j :: j !in s {
      assert false;
    }
    var x :| x in s;
    if s == {x} {
      m := x;
    } else {
      var k := Least(s - {x});
      m := if x < k then x else k;
      forall j | j in s ensures m <= j {
        if j != x {
          assert j in s - {x};
        }
      }
    }
  }

  lemma MaxExists(s: set<int>)
    requires s != {}
    ensures exists k :: k in s && forall j :: j in s ==> j <= k
  {
    var m := Greatest(s);
  }

  lemma MinExists(s: set<int>)
    requires s != {}
    ensures exists k :: k in s && forall j :: j in s ==> k <= j
  {
    var m := Least(s);
  }

  function MaxKey(s: set<int>): (k: int)
    requires s != {}
    ensures k in s && forall j :: j in s ==> j <= k
  {
    MaxExists(s);
    var k :| k in s && forall j :: j in s ==> j <= k;
    k
  }

  function MinKey(s: set<int>): (k: int)
    requires s != {}
    ensures k in s && forall j :: j in s ==> k <= j
  {
    MinExists(s);
    var k :| k in s && forall j :: j in s ==> k <= j;
    k
  }

  /** `TreeMap.floorEntry(value)`: the greatest key not above `value`, if any. */
  function FloorKey(labels: map<int, string>, value: real): (r: Option<int>)
    ensures r.None? <==> forall k :: k in labels ==> value < k as real
    ensures r.Some? ==> r.value in labels && r.value as real <= value
    ensures r.Some? ==> forall k :: k in labels && k as real <= value ==> k <= r.value
  {
    var below := set k | k in labels && k as real <= value;
    assert forall k :: k in labels && k as real <= value ==> k in below;
    if below == {} then None else Some(MaxKey(below))
  }

  /** `TreeMap.ceilingEntry(value)`: the least key not below `value`, if any. */
  function CeilingKey(labels: map<int, string>, value: real): (r: Option<int>)
    ensures r.None? <==> forall k :: k in labels ==> k as real < value
    ensures r.Some? ==> r.value in labels && value <= r.value as real
    ensures r.Some? ==> forall k :: k in labels && value <= k as real ==> r.value <= k
  {
    var above := set k | k in labels && value <= k as real;
    assert forall k :: k in labels && value <= k as real ==> k in above;
    if above == {} then None else Some(MinKey(above))
  }

  /** `XAxisValueFormatter.getFormattedValue`. */
  function FormattedValue(labels: map<int, string>, value: real): (r: string)
    ensures labels == map[] ==> r == ""
  {
    var floorKey := FloorKey(labels, value);
    var ceilKey := CeilingKey(labels, value);
    var floorKeyDiff := if floorKey.Some? then Finite(value - floorKey.value as real) else Infinite;
    var ceilKeyDiff := if ceilKey.Some? then Finite(ceilKey.value as real - value) else Infinite;
    if Less(floorKeyDiff, ceilKeyDiff) then labels[floorKey.value]
    else if ceilKey.Some? then labels[ceilKey.value]
    else ""
  }

  // ---------------------------------------------------------------------------------------------
  // Reference definition: the label of the nearest key, a tie going to the larger key

  function Dist(value: real, k: int): real {
    if value <= k as real then k as real - value else value - k as real
  }

  /** `k` is a key at least as close to `value` as every other, and the larger of two equally close keys. */
  ghost predicate IsNearest(labels: map<int, string>, value: real, k: int) {
    && k in labels
    && (forall j :: j in labels ==> Dist(value, k) <= Dist(value, j))
    && (forall j :: j in labels && Dist(value, j) == Dist(value, k) ==> j <= k)
  }

  /** Every non-empty label map has a nearest key for every position. */
  lemma NearestExists(labels: map<int, string>, value: real)
    requires labels != map[]
    ensures exists k :: IsNearest(labels, value, k)
  {
    if forall j :: j !in labels {
      assert false;
    }
    var some :| some in labels;
    var f, c := FloorKey(labels, value), CeilingKey(labels, value);
    assert f.Some? || c.Some?;
    if f.None? {
      assert IsNearest(labels, value, c.value);
    } else if c.None? {
      assert IsNearest(labels, value, f.value);
    } else if value - f.value as real < c.value as real - value {
      assert IsNearest(labels, value, f.value);
    } else {
      assert IsNearest(labels, value, c.value);
    }
  }

  /** The nearest key is unique. */
  lemma NearestUnique(labels: map<int, string>, value: real, k1: int, k2: int)
    requires IsNearest(labels, value, k1) && IsNearest(labels, value, k2)
    ensures k1 == k2
  {
  }

  /** The formatter returns the label of the nearest key; an exact tie returns the ceiling's label. */
  lemma FormattedValueIsNearest(labels: map<int, string>, value: real, k: int)
    requires IsNearest(labels, value, k)
    ensures FormattedValue(labels, value) == labels[k]
  {
    var f, c := FloorKey(labels, value), CeilingKey(labels, value);
    if k as real <= value {
      assert f.Some? && k <= f.value && Dist(value, f.value) <= Dist(value, k);
      assert f.value == k;
      if c.Some? && !(value - f.value as real < c.value as real - value) {
        assert Dist(value, c.value) == Dist(value, k);
        assert c.value == k;
      }
    } else {
      assert c.Some? && c.value <= k && Dist(value, c.value) <= Dist(value, k);
      assert c.value == k;
    }
  }

  /** A position exactly on a key gets that key's label. */
  lemma FormattedValueAtKey(labels: map<int, string>, k: int)
    requires k in labels
    ensures FormattedValue(labels, k as real) == labels[k]
  {
    assert IsNearest(labels, k as real, k);
    FormattedValueIsNearest(labels, k as real, k);
  }

  /** Halfway between two neighbouring keys, the upper key's label wins. */
  lemma FormattedValueTieToCeiling(labels: map<int, string>, lo: int, hi: int)
    requires lo in labels && hi in labels && lo < hi
    requires forall k :: k in labels ==> k <= lo || hi <= k
    ensures FormattedValue(labels, (lo + hi) as real / 2.0) == labels[hi]
  {
    var value := (lo + hi) as real / 2.0;
    assert IsNearest(labels, value, hi);
    FormattedValueIsNearest(labels, value, hi);
  }

  /** Beyond the last key, or before the first, the one existing side gives the label. */
  lemma FormattedValueOneSided(labels: map<int, string>, value: real)
    requires labels != map[]
    ensures (forall k :: k in labels ==> k as real <= value) ==> FormattedValue(labels, value) == labels[MaxKey(labels.Keys)]
    ensures (forall k :: k in labels ==> value <= k as real) ==> FormattedValue(labels, value) == labels[MinKey(labels.Keys)]
  {
    if forall k :: k in labels ==> k as real <= value {
      var m := MaxKey(labels.Keys);
      assert IsNearest(labels, value, m);
      FormattedValueIsNearest(labels, value, m);
    }
    if forall k :: k in labels ==> value <= k as real {
      var m := MinKey(labels.Keys);
      assert IsNearest(labels, value, m);
      FormattedValueIsNearest(labels, value, m);
    }
  }
}
