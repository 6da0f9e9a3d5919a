/** The queens on the board: rejection-sampling placement, and finding and
    removing a captured queen. */
module Queens {
  import opened Board

  /** The queen list is well formed: every queen on the board, no square twice. */
  predicate QueensValid(qs: seq<Square>) {
    Distinct(qs) && forall q :: q in qs ==> OnBoard(q)
  }

  /** One draw of the placement loop: a sample on the knight or on a queen
      already placed is rejected, any other is appended. */
  function Accept(knight: Square, placed: seq<Square>, s: Square): seq<Square> {
    if s == knight || s in placed then placed else placed + [s]
  }

  /** The placement loop continued from `placed`: draw the samples in order
      while fewer than `count` queens stand. */
  function PlaceFrom(knight: Square, count: int, placed: seq<Square>, samples: seq<Square>): seq<Square>
    decreases |samples|
  {
    if |placed| >= count || samples == [] then placed
    else PlaceFrom(knight, count, Accept(knight, placed, samples[0]), samples[1..])
  }

  /** The queens placed from an empty board by the sample stream `samples`. */
  function Placement(knight: Square, count: int, samples: seq<Square>): seq<Square> {
    PlaceFrom(knight, count, [], samples)
  }

  /** Continuing the loop keeps the list well formed and off the knight, only
      appends samples, and never overshoots `count`. */
  lemma {:induction false} PlaceFromValid(knight: Square, count: int, placed: seq<Square>, samples: seq<Square>)
    requires QueensValid(placed) && knight !in placed
    requires forall s :: s in samples ==> OnBoard(s)
    ensures var r := PlaceFrom(knight, count, placed, samples);
      QueensValid(r) && knight !in r && placed <= r
      && (|placed| <= count ==> |r| <= count)
      && (forall q :: q in r ==> q in placed || q in samples)
    decreases |samples|
  {
    if |placed| < count && samples != [] {
      var next := Accept(knight, placed, samples[0]);
      assert QueensValid(next) by {
        if next != placed {
          forall i, j | 0 <= i < j < |next| ensures next[i] != next[j] {
            if j < |placed| { assert next[i] == placed[i] && next[j] == placed[j]; }
          }
        }
      }
      PlaceFromValid(knight, count, next, samples[1..]);
      forall q | q in samples[1..] ensures q in samples { }
    }
  }

  /** If the loop stops short of `count`, the samples ran out and every one of
      them other than the knight's square was placed. */
  lemma {:induction false} PlaceFromShortfall(knight: Square, count: int, placed: seq<Square>, samples: seq<Square>)
    ensures var r := PlaceFrom(knight, count, placed, samples);
      |r| >= count || forall s :: s in samples && s != knight ==> s in r
    decreases |samples|
  {
    if |placed| < count && samples != [] {
      var next := Accept(knight, placed, samples[0]);
      PlaceFromShortfall(knight, count, next, samples[1..]);
      var r := PlaceFrom(knight, count, placed, samples);
      if |r| < count {
        PlaceFromGrows(knight, count, next, samples[1..]);
        assert samples[0] != knight ==> samples[0] in next;
        forall s | s in samples && s != knight ensures s in r {
          if s != samples[0] { assert s in samples[1..]; }
        }
      }
    }
  }

  /** The loop only ever appends. */
  lemma {:induction false} PlaceFromGrows(knight: Square, count: int, placed: seq<Square>, samples: seq<Square>)
    ensures placed <= PlaceFrom(knight, count, placed, samples)
    decreases |samples|
  {
    if |placed| < count && samples != [] {
      PlaceFromGrows(knight, count, Accept(knight, placed, samples[0]), samples[1..]);
    }
  }

  /** A list has no more distinct elements than entries. */
  lemma {:induction false} ElementsAtMostLength(s: seq<Square>)
    ensures |set x | x in s| <= |s|
  {
    if s != [] {
      ElementsAtMostLength(s[1..]);
      assert (set x | x in s) == {s[0]} + (set x | x in s[1..]);
    }
  }

  lemma SubsetNoLarger(a: set<Square>, b: set<Square>)
    requires a <= b
    ensures |a| <= |b|
  {
    assert b == a + (b - a);
  }

  /** Placement yields a well-formed queen list that avoids the knight and
      holds at most `count` queens, each one a sample. */
  lemma PlacementValid(knight: Square, count: int, samples: seq<Square>)
    requires forall s :: s in samples ==> OnBoard(s)
    ensures var r := Placement(knight, count, samples);
      QueensValid(r) && knight !in r && |r| <= (if count < 0 then 0 else count)
      && forall q :: q in r ==> q in samples
  {
    PlaceFromValid(knight, count, [], samples);
  }

  /** Once the samples cover `count` squares other than the knight's, exactly
      `count` queens are placed. */
  lemma PlacementFillsCount(knight: Square, count: nat, samples: seq<Square>)
    requires forall s :: s in samples ==> OnBoard(s)
    requires |(set s | s in samples) - {knight}| >= count
    ensures |Placement(knight, count, samples)| == count
  {
    var r := Placement(knight, count, samples);
    PlaceFromGrows(knight, count, [], samples);
    PlaceFromValid(knight, count, [], samples);
    PlaceFromShortfall(knight, count, [], samples);
    if |r| < count {
      var drawn, held := (set s | s in samples) - {knight}, set x | x in r;
      ElementsAtMostLength(r);
      SubsetNoLarger(drawn, held);
    }
  }

  /** `findIndex`: the position of `s` in the list, or -1 when absent. */
  function IndexOf(qs: seq<Square>, s: Square): (i: int)
    ensures -1 <= i < |qs|
    ensures i == -1 <==> s !in qs
    ensures i >= 0 ==> qs[i] == s && s !in qs[..i]
  {
    if qs == [] then -1
    else if qs[0] == s then 0
    else
      var j := IndexOf(qs[1..], s);
      if j == -1 then -1 else j + 1
  }

  /** `splice(i, 1)` on a well-formed list removes exactly the queen at `i`. */
  lemma RemoveAtValid(qs: seq<Square>, i: int)
    requires QueensValid(qs) && 0 <= i < |qs|
    ensures var r := qs[..i] + qs[i + 1..];
      QueensValid(r) && |r| == |qs| - 1
      && forall q :: q in r <==> q in qs && q != qs[i]
  {
  }
}
