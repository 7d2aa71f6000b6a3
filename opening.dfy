/** The starting position: white's twenty opening moves, and black's twenty
    replies to each of them. */
module Opening {
  import opened Pieces
  import opened Moves
  import opened Generation
  import opened Enumeration
  import opened Engine


  lemma InitialPawnsHaveRowAhead()
    ensures IsBoard(InitialBoard)
    ensures PawnsHaveRowAhead(InitialBoard, true) && PawnsHaveRowAhead(InitialBoard, false)
  {
  }

  /** In the starting position no square of rows 0 to 5 holds a white piece. */
  lemma InitialTopRowsSilent(r: int, c: int)
    requires 0 <= r < 6 && 0 <= c < 8
    ensures IsBoard(InitialBoard) && PawnsHaveRowAhead(InitialBoard, true)
    ensures SquareMoves(InitialBoard, true, r, c) == []
  {
    InitialPawnsHaveRowAhead();
    assert !IsAlly(InitialBoard[r][c], true);
  }

  /** In the starting position each white pawn can advance one or two squares and capture nothing:
      its moves are the single step and then the double step. */
  lemma InitialPawnMoves(c: int)
    requires 0 <= c < 8
    ensures IsBoard(InitialBoard) && PawnsHaveRowAhead(InitialBoard, true)
    ensures SquareMoves(InitialBoard, true, 6, c) ==
              [NewMove((6, c), (5, c), InitialBoard), NewMove((6, c), (4, c), InitialBoard)]
  {
    InitialPawnsHaveRowAhead();
    var b := InitialBoard;
    assert b[6][c] == Piece(White, Pawn);
    assert b[5][c] == Empty && b[4][c] == Empty;
    assert c >= 1 ==> b[5][c - 1] == Empty;
    assert c <= 6 ==> b[5][c + 1] == Empty;
  }

  /** In the starting position a white knight on (7, c) can jump to the two empty squares two rows up. */
  lemma InitialKnightMoves(c: int)
    requires c == 1 || c == 6
    ensures IsBoard(InitialBoard)
    ensures |Jumps(InitialBoard, true, 7, c, KnightJumps)| == 2
  {
    var b, J := InitialBoard, KnightJumps;
    assert J[..8] == J;
    for k := 0 to 8
      invariant |Jumps(b, true, 7, c, J[..k])| == if k <= 0 then 0 else if k == 1 then 1 else 2
    {
      JumpsStep(b, true, 7, c, J, k);
    }
  }

  /** In the starting position a white back-rank piece other than a knight is hemmed in by its own pieces and the edge. */
  lemma InitialBackRankSquare(c: int)
    requires 0 <= c < 8
    ensures IsBoard(InitialBoard) && PawnsHaveRowAhead(InitialBoard, true)
    ensures |SquareMoves(InitialBoard, true, 7, c)| == if c == 1 || c == 6 then 2 else 0
  {
    InitialPawnsHaveRowAhead();
    if c == 1 || c == 6 {
      InitialKnightMoves(c);
    } else {
      InitialBackRankBlocked(c);
    }
  }

  /** In the starting position white's rooks, bishops, queen and king have no move. */
  lemma InitialBackRankBlocked(c: int)
    requires 0 <= c < 8 && c != 1 && c != 6
    ensures IsBoard(InitialBoard) && PawnsHaveRowAhead(InitialBoard, true)
    ensures SquareMoves(InitialBoard, true, 7, c) == []
  {
    InitialPawnsHaveRowAhead();
    var b := InitialBoard;
    assert forall j :: 0 <= j < 8 ==> b[6][j] == Piece(White, Pawn) && b[7][j] == BackRank(White)[j];
    if c == 0 || c == 7 {
      SlideBlocked(b, true, 7, c, RookDirections);
    } else if c == 2 || c == 5 {
      SlideBlocked(b, true, 7, c, BishopDirections);
    } else if c == 3 {
      SlideBlocked(b, true, 7, c, QueenDirections);
    }
  }

  /** In the starting position only the two knights of white's back rank can move, two squares each. */
  lemma InitialBackRankMoves()
    ensures IsBoard(InitialBoard) && PawnsHaveRowAhead(InitialBoard, true)
    ensures |RowScan(InitialBoard, true, 7, 8)| == 4
  {
    InitialPawnsHaveRowAhead();
    var b := InitialBoard;
    for k := 0 to 8
      invariant |RowScan(b, true, 7, k)| == if k <= 1 then 0 else if k <= 6 then 2 else 4
    {
      InitialBackRankSquare(k);
      RowScanStep(b, true, 7, k);
    }
  }

  /** From the starting position white has twenty moves: one and two steps for each of
      the eight pawns, and two for each knight. */
  lemma InitialMoveCount()
    ensures IsBoard(InitialBoard) && PawnsHaveRowAhead(InitialBoard, true)
    ensures |AllMoves(InitialBoard, true)| == 20
  {
    InitialPawnsHaveRowAhead();
    var b := InitialBoard;
    var g := Cells(b, true);
    var rows := Rows(g);
    forall r | 0 <= r < 6 ensures |rows(r)| == 0 {
      forall c | 0 <= c < 8 ensures |g(r)(c)| == 0 {
        InitialTopRowsSilent(r, c);
      }
      GatherLength(g(r), 8, 0);
    }
    GatherLength(rows, 6, 0);
    forall c | 0 <= c < 8 ensures |g(6)(c)| == 2 {
      InitialPawnMoves(c);
    }
    GatherLength(g(6), 8, 2);
    InitialBackRankMoves();
    assert Gather(rows, 8) == Gather(rows, 6) + rows(6) + rows(7);
  }
  // ---------------------------------------------------------------- black's reply

  /** Black's half of the board is as it started: black's back rank and pawns
      on rows 0 and 1, rows 2 and 3 empty, and no black piece on rows 4 to 7. */
  predicate BlackHalfAsStarted(b: Board) {
    IsBoard(b) && b[0] == BackRank(Black) && b[1] == PawnRank(Black) &&
    (forall c :: 0 <= c < 8 ==> b[2][c] == Empty && b[3][c] == Empty) &&
    (forall r, c :: 4 <= r < 8 && 0 <= c < 8 ==> !IsAlly(b[r][c], false))
  }

  lemma BlackPawnsHaveRowAhead(b: Board)
    requires BlackHalfAsStarted(b)
    ensures PawnsHaveRowAhead(b, false)
  {
  }

  /** Black's home rows, square by square. */
  lemma BlackHomeRows(b: Board)
    requires BlackHalfAsStarted(b)
    ensures forall j :: 0 <= j < 8 ==> b[0][j] == BackRank(Black)[j] && b[1][j] == Piece(Black, Pawn)
  {
  }

  /** With black's half as it started, no square other than a black pawn or knight gives black a move. */
  lemma ReplyQuietSquare(b: Board, r: int, c: int)
    requires BlackHalfAsStarted(b) && OnBoard(r, c)
    requires r >= 2 || (r == 0 && c != 1 && c != 6)
    ensures PawnsHaveRowAhead(b, false)
    ensures SquareMoves(b, false, r, c) == []
  {
    BlackPawnsHaveRowAhead(b);
    BlackHomeRows(b);
    if r == 0 {
      if c == 0 || c == 7 {
        SlideBlocked(b, false, 0, c, RookDirections);
      } else if c == 2 || c == 5 {
        SlideBlocked(b, false, 0, c, BishopDirections);
      } else if c == 3 {
        SlideBlocked(b, false, 0, c, QueenDirections);
      }
    }
  }

  /** With black's half as it started, each black pawn has exactly its single and then its double step. */
  lemma ReplyPawnMoves(b: Board, c: int)
    requires BlackHalfAsStarted(b) && 0 <= c < 8
    ensures PawnsHaveRowAhead(b, false)
    ensures SquareMoves(b, false, 1, c) == [NewMove((1, c), (2, c), b), NewMove((1, c), (3, c), b)]
  {
    BlackPawnsHaveRowAhead(b);
    BlackHomeRows(b);
  }

  /** With black's half as it started, a black knight on (0, c) can jump to the two empty squares two rows down. */
  lemma ReplyKnightMoves(b: Board, c: int)
    requires BlackHalfAsStarted(b) && (c == 1 || c == 6)
    ensures |Jumps(b, false, 0, c, KnightJumps)| == 2
  {
    BlackHomeRows(b);
    var J := KnightJumps;
    assert J[..8] == J;
    for k := 0 to 8
      invariant |Jumps(b, false, 0, c, J[..k])| == if k <= 5 then 0 else if k == 6 then 1 else 2
    {
      JumpsStep(b, false, 0, c, J, k);
    }
  }

  /** With black's half as it started, only black's two knights on the back rank can move, two squares each. */
  lemma ReplyBackRankMoves(b: Board)
    requires BlackHalfAsStarted(b)
    ensures PawnsHaveRowAhead(b, false)
    ensures |RowScan(b, false, 0, 8)| == 4
  {
    BlackPawnsHaveRowAhead(b);
    BlackHomeRows(b);
    for k := 0 to 8
      invariant |RowScan(b, false, 0, k)| == if k <= 1 then 0 else if k <= 6 then 2 else 4
    {
      if k == 1 || k == 6 {
        ReplyKnightMoves(b, k);
      } else {
        ReplyQuietSquare(b, 0, k);
      }
      RowScanStep(b, false, 0, k);
    }
  }

  /** With black's half as it started, black has twenty moves: one and two steps for
      each of its eight pawns, and two for each knight. */
  lemma ReplyCount(b: Board)
    requires BlackHalfAsStarted(b)
    ensures PawnsHaveRowAhead(b, false)
    ensures |AllMoves(b, false)| == 20
  {
    BlackPawnsHaveRowAhead(b);
    var g := Cells(b, false);
    var rows := Rows(g);
    ReplyBackRankMoves(b);
    assert |rows(0)| == 4;
    forall c | 0 <= c < 8 ensures |g(1)(c)| == 2 {
      ReplyPawnMoves(b, c);
    }
    GatherLength(g(1), 8, 2);
    forall r | 2 <= r < 8 ensures |rows(r)| == 0 {
      forall c | 0 <= c < 8 ensures |g(r)(c)| == 0 {
        ReplyQuietSquare(b, r, c);
      }
      GatherLength(g(r), 8, 0);
    }
    for k := 0 to 8
      invariant |Gather(rows, k)| == if k == 0 then 0 else if k == 1 then 4 else 20
    {
      GatherStep(rows, k);
    }
  }

  /** A white knight's opening jump from (7, c) ends on row 5: jumps to row 6 land on white's own pawns. */
  lemma OpeningKnightRows(c: int, m: Move)
    requires (c == 1 || c == 6) && IsBoard(InitialBoard)
    requires m in Jumps(InitialBoard, true, 7, c, KnightJumps)
    ensures m.startRow == 7 && m.endRow == 5
  {
    JumpsMembers(InitialBoard, true, 7, c, KnightJumps, m);
    var o :| o in KnightJumps && OnBoardAt(Offset(7, c, o)) && !IsAlly(At(InitialBoard, Offset(7, c, o)), true) &&
             m == NewMove((7, c), Offset(7, c, o), InitialBoard);
    assert InitialBoard[6][m.endCol] == Piece(White, Pawn);
  }

  /** What one square of the starting position contributes to white's moves starts on row 6 or 7 and ends on row 4 or 5. */
  lemma OpeningSquareRows(r: int, c: int, m: Move)
    requires OnBoard(r, c) && IsBoard(InitialBoard) && PawnsHaveRowAhead(InitialBoard, true)
    requires m in SquareMoves(InitialBoard, true, r, c)
    ensures 6 <= m.startRow && 4 <= m.endRow <= 5
  {
    if r < 6 {
      InitialTopRowsSilent(r, c);
    } else if r == 6 {
      InitialPawnMoves(c);
    } else {
      InitialBackRankSquare(c);
      if c == 1 || c == 6 {
        assert InitialBoard[7][c] == Piece(White, Knight);
        OpeningKnightRows(c, m);
      }
    }
  }

  /** Every opening move of white starts on white's home rows with a white piece and ends on row 4 or 5. */
  lemma OpeningMoveRows(m: Move)
    requires IsBoard(InitialBoard) && PawnsHaveRowAhead(InitialBoard, true)
    requires m in AllMoves(InitialBoard, true)
    ensures m.InRange() && 6 <= m.startRow && 4 <= m.endRow <= 5
    ensures m.pieceMoved == InitialBoard[m.startRow][m.startCol] && IsAlly(m.pieceMoved, true)
  {
    AllMovesSound(InitialBoard, true, m);
    AllMovesSquares(InitialBoard, true, m);
    var r, c :| OnBoard(r, c) && m in SquareMoves(InitialBoard, true, r, c);
    OpeningSquareRows(r, c, m);
  }

  lemma InitialBlackHalf()
    ensures BlackHalfAsStarted(InitialBoard)
  {
  }

  /** A move that stays on rows 4 to 7 and does not place a black piece keeps black's half as it started. */
  lemma LowerMoveKeepsBlackHalf(b: Board, m: Move)
    requires BlackHalfAsStarted(b) && m.InRange()
    requires 4 <= m.startRow && 4 <= m.endRow && !IsAlly(m.pieceMoved, false)
    ensures BlackHalfAsStarted(AfterMove(b, m))
  {
    var b' := AfterMove(b, m);
    assert b'[0] == b[0] && b'[1] == b[1] && b'[2] == b[2] && b'[3] == b[3];
    forall r, c | 4 <= r < 8 && 0 <= c < 8
      ensures !IsAlly(b'[r][c], false)
    {
      if (r, c) != (m.startRow, m.startCol) && (r, c) != (m.endRow, m.endCol) {
        assert b'[r][c] == b[r][c];
      }
    }
  }

  /** Whatever white plays first, black's half of the board is as it started. */
  lemma OpeningKeepsBlackHalf(m: Move)
    requires IsBoard(InitialBoard) && PawnsHaveRowAhead(InitialBoard, true)
    requires m in AllMoves(InitialBoard, true)
    ensures m.InRange()
    ensures BlackHalfAsStarted(AfterMove(InitialBoard, m))
  {
    OpeningMoveRows(m);
    InitialBlackHalf();
    LowerMoveKeepsBlackHalf(InitialBoard, m);
  }

  /** Whatever white plays first, black has twenty replies, as many as white had. */
  lemma InitialReplyCount(m: Move)
    requires IsBoard(InitialBoard) && PawnsHaveRowAhead(InitialBoard, true)
    requires m in AllMoves(InitialBoard, true)
    ensures m.InRange()
    ensures IsBoard(AfterMove(InitialBoard, m)) && PawnsHaveRowAhead(AfterMove(InitialBoard, m), false)
    ensures |AllMoves(AfterMove(InitialBoard, m), false)| == 20
  {
    OpeningKeepsBlackHalf(m);
    ReplyCount(AfterMove(InitialBoard, m));
  }
}
