/** The engine's move value: two squares, the occupants they had when the move
    was built, a decimal identity used for equality, and file+rank notation. */
module Moves {
  import opened Pieces

  datatype Option<T> = None | Some(value: T)

  /** A move from (startRow, startCol) to (endRow, endCol). `pieceMoved` and
      `pieceCaptured` are copies of the two squares taken when the move was
      built; the move never looks at the board again. */
  datatype Move = Move(startRow: int, startCol: int, endRow: int, endCol: int,
                       pieceMoved: Square, pieceCaptured: Square)
  {
    predicate InRange() {
      OnBoard(startRow, startCol) && OnBoard(endRow, endCol)
    }

    predicate SameSquares(other: Move) {
      startRow == other.startRow && startCol == other.startCol &&
      endRow == other.endRow && endCol == other.endCol
    }

    /** The four coordinates packed as the decimal digits of one number. */
    function MoveId(): (id: int)
      ensures InRange() ==> 0 <= id <= 7777
    {
      startRow * 1000 + startCol * 100 + endRow * 10 + endCol
    }

    /** Equality as the engine defines it: `other` is a move (None stands for
        any object that is not one) with the same identity. Piece fields play no part. */
    function Equals(other: Option<Move>): (r: bool)
      ensures other.None? ==> !r
      ensures InRange() && other.Some? && other.value.InRange() ==>
                (r <==> SameSquares(other.value))
    {
      match other
      case None => false
      case Some(o) => MoveId() == o.MoveId()
    }

    /** The move as two squares in file+rank notation, start square first. */
    function GetChessNotation(): (s: string)
      requires InRange()
      ensures |s| == 4
      ensures s[0] == FileLetter(startCol) && s[1] == RankDigit(startRow)
      ensures s[2] == FileLetter(endCol) && s[3] == RankDigit(endRow)
    {
      GetRankFile(startRow, startCol) + GetRankFile(endRow, endCol)
    }
  }

  lemma AppendAssoc(xs: seq<Move>, ys: seq<Move>, zs: seq<Move>)
    ensures (xs + ys) + zs == xs + (ys + zs)
  {
  }

  /** Builds a move from two squares, copying their current occupants from `board`. */
  function NewMove(startSq: (int, int), endSq: (int, int), board: Board): (m: Move)
    requires IsBoard(board) && OnBoard(startSq.0, startSq.1) && OnBoard(endSq.0, endSq.1)
    ensures m.InRange()
    ensures m.startRow == startSq.0 && m.startCol == startSq.1
    ensures m.endRow == endSq.0 && m.endCol == endSq.1
    ensures m.pieceMoved == board[startSq.0][startSq.1]
    ensures m.pieceCaptured == board[endSq.0][endSq.1]
  {
    Move(startSq.0, startSq.1, endSq.0, endSq.1,
         board[startSq.0][startSq.1], board[endSq.0][endSq.1])
  }

  /** A move depends on the board only through its two squares: boards that agree
      there give the same move. */
  lemma NewMoveSnapshot(startSq: (int, int), endSq: (int, int), b1: Board, b2: Board)
    requires IsBoard(b1) && IsBoard(b2)
    requires OnBoard(startSq.0, startSq.1) && OnBoard(endSq.0, endSq.1)
    requires b1[startSq.0][startSq.1] == b2[startSq.0][startSq.1]
    requires b1[endSq.0][endSq.1] == b2[endSq.0][endSq.1]
    ensures NewMove(startSq, endSq, b1) == NewMove(startSq, endSq, b2)
  {
  }

  /** Each digit of the identity gives back one coordinate, so the identity is injective on the board. */
  lemma MoveIdDigits(m: Move)
    requires m.InRange()
    ensures m.MoveId() / 1000 == m.startRow
    ensures (m.MoveId() / 100) % 10 == m.startCol
    ensures (m.MoveId() / 10) % 10 == m.endRow
    ensures m.MoveId() % 10 == m.endCol
  {
    var id := m.MoveId();
    var low := m.startCol * 100 + m.endRow * 10 + m.endCol;
    assert 0 <= low < 1000;
    assert id == m.startRow * 1000 + low;
    var low2 := m.endRow * 10 + m.endCol;
    assert id / 100 == m.startRow * 10 + m.startCol by {
      assert id == (m.startRow * 10 + m.startCol) * 100 + low2;
    }
    assert id / 10 == (m.startRow * 100 + m.startCol * 10 + m.endRow);
  }

  /** Two moves on the board have the same identity exactly when their squares agree. */
  lemma MoveIdInjective(a: Move, b: Move)
    requires a.InRange() && b.InRange()
    ensures a.MoveId() == b.MoveId() <==> a.SameSquares(b)
  {
    if a.MoveId() == b.MoveId() {
      MoveIdDigits(a);
      MoveIdDigits(b);
    }
  }

  // The lookup tables of the Move class: rank digit to row and file letter to
  // column, and their reversals. The engine builds each reversal by swapping
  // the keys and values of the forward table; here they are written out and
  // RankTablesInverse and FileTablesInverse prove that each is the swap of the other.

  const RanksToRows: map<char, int> :=
    map['1' := 7, '2' := 6, '3' := 5, '4' := 4, '5' := 3, '6' := 2, '7' := 1, '8' := 0]

  const RowsToRanks: map<int, char> :=
    map[7 := '1', 6 := '2', 5 := '3', 4 := '4', 3 := '5', 2 := '6', 1 := '7', 0 := '8']

  const FilesToCols: map<char, int> :=
    map['a' := 0, 'b' := 1, 'c' := 2, 'd' := 3, 'e' := 4, 'f' := 5, 'g' := 6, 'h' := 7]

  const ColsToFiles: map<int, char> :=
    map[0 := 'a', 1 := 'b', 2 := 'c', 3 := 'd', 4 := 'e', 5 := 'f', 6 := 'g', 7 := 'h']

  /** The reversed rank table is the rank table with keys and values swapped. */
  lemma RankTablesInverse()
    ensures RowsToRanks.Keys == RanksToRows.Values
    ensures forall k :: k in RanksToRows ==> RowsToRanks[RanksToRows[k]] == k
    ensures forall r :: r in RowsToRanks ==> RanksToRows[RowsToRanks[r]] == r
  {
    forall r | r in RowsToRanks ensures r in RanksToRows.Values {
      assert RanksToRows[RowsToRanks[r]] == r;
    }
  }

  /** The reversed file table is the file table with keys and values swapped. */
  lemma FileTablesInverse()
    ensures ColsToFiles.Keys == FilesToCols.Values
    ensures forall k :: k in FilesToCols ==> ColsToFiles[FilesToCols[k]] == k
    ensures forall c :: c in ColsToFiles ==> FilesToCols[ColsToFiles[c]] == c
  {
    forall c | c in ColsToFiles ensures c in FilesToCols.Values {
      assert FilesToCols[ColsToFiles[c]] == c;
    }
  }

  /** File letter of a column: 'a' for column 0 up to 'h' for column 7. */
  function FileLetter(c: int): char
    requires 0 <= c < 8
  {
    ('a' as int + c) as char
  }

  /** Rank digit of a row: '8' for row 0 down to '1' for row 7. */
  function RankDigit(r: int): char
    requires 0 <= r < 8
  {
    ('8' as int - r) as char
  }

  /** The name of one square: file letter then rank digit. */
  function GetRankFile(r: int, c: int): (s: string)
    requires OnBoard(r, c)
    ensures s == [FileLetter(c), RankDigit(r)]
    ensures s[0] in FilesToCols && FilesToCols[s[0]] == c
    ensures s[1] in RanksToRows && RanksToRows[s[1]] == r
  {
    [ColsToFiles[c]] + [RowsToRanks[r]]
  }

  /** Reading the notation back through the forward tables recovers the move's four coordinates. */
  lemma NotationRoundTrip(m: Move)
    requires m.InRange()
    ensures var s := m.GetChessNotation();
      s[0] in FilesToCols && s[1] in RanksToRows && s[2] in FilesToCols && s[3] in RanksToRows &&
      FilesToCols[s[0]] == m.startCol && RanksToRows[s[1]] == m.startRow &&
      FilesToCols[s[2]] == m.endCol && RanksToRows[s[3]] == m.endRow
  {
    var s := m.GetChessNotation();
    assert s == GetRankFile(m.startRow, m.startCol) + GetRankFile(m.endRow, m.endCol);
  }

  /** The king's pawn opening from (6,4) to (4,4) reads "e2e4". */
  lemma NotationExample(m: Move)
    requires m.startRow == 6 && m.startCol == 4 && m.endRow == 4 && m.endCol == 4
    ensures m.GetChessNotation() == "e2e4"
  {
  }
}
