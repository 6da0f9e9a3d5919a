/** Squares of the 8x8 board and the knight's legal moves. */
module Board {
  import opened Levels

  /** A square as `{row, col}`; off-board values arise while moves are computed. */
  datatype Square = Square(row: int, col: int)

  /** One entry of the knight's offset table. */
  datatype Offset = Offset(rowDiff: int, colDiff: int)

  predicate OnBoard(s: Square) {
    0 <= s.row < BOARD_SIZE && 0 <= s.col < BOARD_SIZE
  }

  predicate Distinct<T(==)>(s: seq<T>) {
    forall i, j :: 0 <= i < j < |s| ==> s[i] != s[j]
  }

  /** The eight knight offsets, in the order the moves are pushed. */
  const KNIGHT_OFFSETS: seq<Offset> := [
    Offset(-2, -1), Offset(-2, 1),
    Offset(-1, -2), Offset(-1, 2),
    Offset(1, -2), Offset(1, 2),
    Offset(2, -1), Offset(2, 1)
  ]

  function Apply(s: Square, o: Offset): Square {
    Square(s.row + o.rowDiff, s.col + o.colDiff)
  }

  /** The offset that leads from `from` to `to`. */
  function Between(from: Square, to: Square): Offset {
    Offset(to.row - from.row, to.col - from.col)
  }

  function Abs(x: int): int { if x < 0 then -x else x }

  /** The L-shaped step: two squares one way and one the other. */
  predicate IsKnightStep(from: Square, to: Square) {
    var dr, dc := Abs(to.row - from.row), Abs(to.col - from.col);
    (dr == 1 && dc == 2) || (dr == 2 && dc == 1)
  }

  /** The squares pushed, in order, when `offsets` are tried from `from` and
      only on-board targets are kept. */
  function MovesFrom(from: Square, offsets: seq<Offset>): seq<Square> {
    if offsets == [] then []
    else
      var rest := MovesFrom(from, offsets[..|offsets| - 1]);
      var target := Apply(from, offsets[|offsets| - 1]);
      if OnBoard(target) then rest + [target] else rest
  }

  /** The legal-move list for a knight standing on `from`. */
  function KnightMoves(from: Square): seq<Square> {
    MovesFrom(from, KNIGHT_OFFSETS)
  }

  /** A square is produced exactly when it is on the board and one of the
      offsets leads to it. */
  lemma {:induction false} MovesFromMembership(from: Square, offsets: seq<Offset>, t: Square)
    ensures t in MovesFrom(from, offsets) <==> OnBoard(t) && Between(from, t) in offsets
  {
    if offsets != [] {
      var init, last := offsets[..|offsets| - 1], offsets[|offsets| - 1];
      MovesFromMembership(from, init, t);
      assert offsets == init + [last];
      assert Apply(from, last) == t <==> Between(from, t) == last;
    }
  }

  /** At most one square per offset. */
  lemma {:induction false} MovesFromLength(from: Square, offsets: seq<Offset>)
    ensures |MovesFrom(from, offsets)| <= |offsets|
  {
    if offsets != [] {
      MovesFromLength(from, offsets[..|offsets| - 1]);
    }
  }

  /** Distinct offsets give distinct squares. */
  lemma {:induction false} MovesFromDistinct(from: Square, offsets: seq<Offset>)
    requires Distinct(offsets)
    ensures Distinct(MovesFrom(from, offsets))
  {
    if offsets != [] {
      var init, last := offsets[..|offsets| - 1], offsets[|offsets| - 1];
      MovesFromDistinct(from, init);
      var target := Apply(from, last);
      if OnBoard(target) {
        MovesFromMembership(from, init, target);
        assert Between(from, target) == last;
        assert last !in init by {
          forall k | 0 <= k < |init| ensures init[k] != last {
            assert init[k] == offsets[k];
          }
        }
      }
    }
  }

  /** The offset table holds exactly the knight steps. */
  lemma KnightOffsetsAreKnightSteps(from: Square, to: Square)
    ensures Between(from, to) in KNIGHT_OFFSETS <==> IsKnightStep(from, to)
  {
  }

  /** Every produced square is on the board and a knight step away, and every
      such square is produced. */
  lemma KnightMovesExact(from: Square, to: Square)
    ensures to in KnightMoves(from) <==> OnBoard(to) && IsKnightStep(from, to)
  {
    MovesFromMembership(from, KNIGHT_OFFSETS, to);
    KnightOffsetsAreKnightSteps(from, to);
  }

  /** The legal-move list has no duplicates. */
  lemma KnightMovesDistinct(from: Square)
    ensures Distinct(KnightMoves(from))
  {
    MovesFromDistinct(from, KNIGHT_OFFSETS);
  }

  /** From any square of the board the knight has between 2 and 8 moves. */
  lemma KnightMovesCount(from: Square)
    requires OnBoard(from)
    ensures 2 <= |KnightMoves(from)| <= 8
  {
    MovesFromLength(from, KNIGHT_OFFSETS);
    // Head towards the middle of the board in both directions.
    var dr := if from.row < BOARD_SIZE / 2 then 1 else -1;
    var dc := if from.col < BOARD_SIZE / 2 then 1 else -1;
    var a := Apply(from, Offset(2 * dr, dc));
    var b := Apply(from, Offset(dr, 2 * dc));
    KnightMovesExact(from, a);
    KnightMovesExact(from, b);
    var moves := KnightMoves(from);
    assert a in moves && b in moves && a != b;
  }

  /** When every offset lands on the board, no square is dropped. */
  lemma {:induction false} MovesFromKeepsAll(from: Square, offsets: seq<Offset>)
    requires forall o :: o in offsets ==> OnBoard(Apply(from, o))
    ensures |MovesFrom(from, offsets)| == |offsets|
  {
    if offsets != [] {
      MovesFromKeepsAll(from, offsets[..|offsets| - 1]);
    }
  }

  /** Two squares away from every edge, all eight moves are legal. */
  lemma CentreHasEightMoves(from: Square)
    requires 2 <= from.row < BOARD_SIZE - 2 && 2 <= from.col < BOARD_SIZE - 2
    ensures |KnightMoves(from)| == 8
  {
    MovesFromKeepsAll(from, KNIGHT_OFFSETS);
  }

  /** A corner square has exactly the two moves towards the middle. */
  lemma CornerHasTwoMoves()
    ensures KnightMoves(Square(0, 0)) == [Square(1, 2), Square(2, 1)]
  {
    var c, o := Square(0, 0), KNIGHT_OFFSETS;
    assert MovesFrom(c, o[..0]) == [];
    assert o[..1][..0] == o[..0];
    assert MovesFrom(c, o[..1]) == [];
    assert o[..2][..1] == o[..1];
    assert MovesFrom(c, o[..2]) == [];
    assert o[..3][..2] == o[..2];
    assert MovesFrom(c, o[..3]) == [];
    assert o[..4][..3] == o[..3];
    assert MovesFrom(c, o[..4]) == [];
    assert o[..5][..4] == o[..4];
    assert MovesFrom(c, o[..5]) == [];
    assert o[..6][..5] == o[..5];
    assert MovesFrom(c, o[..6]) == [Square(1, 2)];
    assert o[..7][..6] == o[..6];
    assert MovesFrom(c, o[..7]) == [Square(1, 2)];
    assert o[..8][..7] == o[..7];
    assert o[..8] == o;
  }
}
