/**
 * Splitting text on a fixed delimiter, as `android.text.TextUtils.split(text, expression)` does it
 * for the two delimiters the chart activity uses ("\n" and ", "): an empty text gives no pieces at
 * all; any other text is cut at every occurrence of the delimiter, leftmost first, and every piece
 * is kept, the empty ones included (Java's `String.split(expression, -1)`).
 */
module Text {

  /** `d` occurs in `s` at position `i`. */
  predicate OccursAt(s: string, d: string, i: int) {
    0 <= i && i + |d| <= |s| && s[i..i + |d|] == d
  }

  /** `d` occurs nowhere in `s`. */
  predicate Free(s: string, d: string) {
    forall i | 0 <= i < |s| :: !OccursAt(s, d, i)
  }

  /** Cuts `s` at every non-overlapping occurrence of `d`, scanning from the left. */
  function Split(s: string, d: string): (r: seq<string>)
    requires |d| > 0
    ensures |r| >= 1
    decreases |s|
  {
    if |s| < |d| then [s]
    else if s[..|d|] == d then [""] + Split(s[|d|..], d)
    else
      var rest := Split(s[1..], d);
      [[s[0]] + rest[0]] + rest[1..]
  }

  /** `TextUtils.split`: no pieces for the empty text, otherwise `Split`. */
  function TextUtilsSplit(s: string, d: string): (r: seq<string>)
    requires |d| > 0
    ensures |s| == 0 <==> r == []
  {
    if |s| == 0 then [] else Split(s, d)
  }

  /** Puts the pieces back together with `d` between neighbours. */
  function Join(pieces: seq<string>, d: string): string
    requires |pieces| >= 1
  {
    if |pieces| == 1 then pieces[0] else pieces[0] + d + Join(pieces[1..], d)
  }

  /** Putting a character in front of the first piece puts it in front of the joined text. */
  lemma JoinPrepend(c: char, pieces: seq<string>, d: string)
    requires |pieces| >= 1
    ensures Join([[c] + pieces[0]] + pieces[1..], d) == [c] + Join(pieces, d)
  {
    var r := [[c] + pieces[0]] + pieces[1..];
    assert r[1..] == pieces[1..];
    if |pieces| > 1 {
      assert [c] + pieces[0] + d + Join(pieces[1..], d) == [c] + (pieces[0] + d + Join(pieces[1..], d));
    }
  }

  /** Splitting loses no text: joining the pieces again gives back the input. */
  lemma {:induction false} JoinSplit(s: string, d: string)
    requires |d| > 0
    ensures Join(Split(s, d), d) == s
    decreases |s|
  {
    if |s| < |d| {
    } else if s[..|d|] == d {
      var rest := Split(s[|d|..], d);
      JoinSplit(s[|d|..], d);
      assert Split(s, d) == [""] + rest;
      assert ([""] + rest)[1..] == rest;
      assert s == d + s[|d|..];
    } else {
      var rest := Split(s[1..], d);
      JoinSplit(s[1..], d);
      JoinPrepend(s[0], rest, d);
      assert Split(s, d) == [[s[0]] + rest[0]] + rest[1..];
      assert s == [s[0]] + s[1..];
    }
  }

  /** A text in which `d` does not occur is a single piece. */
  lemma {:induction false} SplitFree(s: string, d: string)
    requires |d| > 0
    requires Free(s, d)
    ensures Split(s, d) == [s]
    decreases |s|
  {
    if |s| >= |d| {
      assert !OccursAt(s, d, 0);
      forall i | 0 <= i < |s[1..]| ensures !OccursAt(s[1..], d, i) {
        if OccursAt(s[1..], d, i) {
          assert s[1..][i..i + |d|] == s[i + 1..i + 1 + |d|];
          assert OccursAt(s, d, i + 1);
        }
      }
      SplitFree(s[1..], d);
      assert s == [s[0]] + s[1..];
    }
  }

  /** When the first occurrence of `d` in `a + d + b` is the one after `a`, `a` is the first piece. */
  lemma {:induction false} SplitFirstPiece(a: string, d: string, b: string)
    requires |d| > 0
    requires forall i :: 0 <= i < |a| ==> !OccursAt(a + d + b, d, i)
    ensures Split(a + d + b, d) == [a] + Split(b, d)
    decreases |a|
  {
    var s := a + d + b;
    if |a| == 0 {
      assert s == d + b && s[..|d|] == d && s[|d|..] == b;
    } else {
      assert !OccursAt(s, d, 0);
      assert s[1..] == a[1..] + d + b;
      forall i | 0 <= i < |a[1..]| ensures !OccursAt(a[1..] + d + b, d, i) {
        if OccursAt(a[1..] + d + b, d, i) {
          assert s[1..][i..i + |d|] == s[i + 1..i + 1 + |d|];
          assert OccursAt(s, d, i + 1);
        }
      }
      SplitFirstPiece(a[1..], d, b);
      assert a == [a[0]] + a[1..];
    }
  }

  /** A single character `c` occurs at `i` exactly where the text holds `c`. */
  lemma OccursAtChar(s: string, c: char, i: int)
    ensures OccursAt(s, [c], i) <==> 0 <= i < |s| && s[i] == c
  {
    if 0 <= i < |s| {
      assert s[i..i + 1] == [s[i]];
    }
  }

  /** A text without the character `c` is free of the one-character delimiter `[c]`. */
  lemma FreeOfChar(s: string, c: char)
    requires c !in s
    ensures Free(s, [c])
  {
    forall i | 0 <= i < |s| ensures !OccursAt(s, [c], i) {
      OccursAtChar(s, c, i);
    }
  }

  /** For a one-character delimiter, splitting undoes joining pieces that do not contain it. */
  lemma {:induction false} SplitJoinChar(pieces: seq<string>, c: char)
    requires |pieces| >= 1
    requires forall k :: 0 <= k < |pieces| ==> c !in pieces[k]
    ensures Split(Join(pieces, [c]), [c]) == pieces
    decreases |pieces|
  {
    if |pieces| == 1 {
      FreeOfChar(pieces[0], c);
      SplitFree(pieces[0], [c]);
    } else {
      var a, b := pieces[0], Join(pieces[1..], [c]);
      forall i | 0 <= i < |a| ensures !OccursAt(a + [c] + b, [c], i) {
        OccursAtChar(a + [c] + b, c, i);
        assert (a + [c] + b)[i] == a[i];
      }
      SplitFirstPiece(a, [c], b);
      SplitJoinChar(pieces[1..], c);
      assert pieces == [a] + pieces[1..];
    }
  }
}
