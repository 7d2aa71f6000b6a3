/** The game state: the board, the side to move and the log of applied moves,
    with the operations that apply and take back a move and the generators that
    append each piece's moves to a list. */
module Engine {
  import opened Pieces
  import opened Moves
  import opened Generation
  import opened Enumeration

  // ---------------------------------------------------------------- applying and taking back a move

  /** The board after a move: its start square emptied, then its end square given the moved piece. */
  function AfterMove(b: Board, m: Move): (b': Board)
    requires IsBoard(b) && m.InRange()
    ensures IsBoard(b')
    ensures b'[m.endRow][m.endCol] == m.pieceMoved
    ensures (m.startRow, m.startCol) != (m.endRow, m.endCol) ==> b'[m.startRow][m.startCol] == Empty
    ensures forall r, c :: OnBoard(r, c) && (r, c) != (m.startRow, m.startCol) && (r, c) != (m.endRow, m.endCol) ==>
              b'[r][c] == b[r][c]
  {
    SetSquare(SetSquare(b, m.startRow, m.startCol, Empty), m.endRow, m.endCol, m.pieceMoved)
  }

  /** The board after taking a move back: the moved piece returns to the start
      square, then the captured occupant returns to the end square. */
  function AfterUndo(b: Board, m: Move): (b': Board)
    requires IsBoard(b) && m.InRange()
    ensures IsBoard(b')
    ensures b'[m.endRow][m.endCol] == m.pieceCaptured
    ensures (m.startRow, m.startCol) != (m.endRow, m.endCol) ==> b'[m.startRow][m.startCol] == m.pieceMoved
    ensures forall r, c :: OnBoard(r, c) && (r, c) != (m.startRow, m.startCol) && (r, c) != (m.endRow, m.endCol) ==>
              b'[r][c] == b[r][c]
  {
    SetSquare(SetSquare(b, m.startRow, m.startCol, m.pieceMoved), m.endRow, m.endCol, m.pieceCaptured)
  }

  /** Taking a move back restores the board exactly when the move's copies of its
      squares are what the board held: the captured occupant at the end square,
      and the moved piece at the start square when the two squares differ. */
  lemma UndoRestores(b: Board, m: Move)
    requires IsBoard(b) && m.InRange()
    ensures AfterUndo(AfterMove(b, m), m) == b <==>
              m.pieceCaptured == b[m.endRow][m.endCol] &&
              ((m.startRow, m.startCol) == (m.endRow, m.endCol) || m.pieceMoved == b[m.startRow][m.startCol])
  {
    var x := AfterUndo(AfterMove(b, m), m);
    if m.pieceCaptured == b[m.endRow][m.endCol] &&
       ((m.startRow, m.startCol) == (m.endRow, m.endCol) || m.pieceMoved == b[m.startRow][m.startCol])
    {
      forall r | 0 <= r < 8 ensures x[r] == b[r] {
        forall c | 0 <= c < 8 ensures x[r][c] == b[r][c] {
        }
      }
    } else if m.pieceCaptured != b[m.endRow][m.endCol] {
      assert x[m.endRow][m.endCol] != b[m.endRow][m.endCol];
    } else {
      assert x[m.startRow][m.startCol] != b[m.startRow][m.startCol];
    }
  }

  /** Moving a piece from a2 to a4 in the starting position and taking the move back. */
  lemma OpeningRoundTrip()
    ensures IsBoard(InitialBoard)
    ensures var m := NewMove((6, 0), (4, 0), InitialBoard);
            var after := AfterMove(InitialBoard, m);
            after[6][0] == Empty && after[4][0] == Piece(White, Pawn) &&
            AfterUndo(after, m) == InitialBoard
  {
    UndoRestores(InitialBoard, NewMove((6, 0), (4, 0), InitialBoard));
  }

  // ---------------------------------------------------------------- the game state

  class GameState {
    var board: Board
    var whiteToMove: bool
    var moveLog: seq<Move>

    ghost predicate Valid()
      reads this
    {
      IsBoard(board) && forall m :: m in moveLog ==> m.InRange()
    }

    /** The starting position, white to move, nothing played. */
    constructor ()
      ensures Valid()
      ensures board == InitialBoard && whiteToMove && moveLog == []
    {
      board := InitialBoard;
      whiteToMove := true;
      moveLog := [];
    }

    /** Applies a move as its copies say, without checking them against the board. */
    method MakeMove(move: Move)
      requires Valid() && move.InRange()
      modifies this
      ensures Valid()
      ensures board == AfterMove(old(board), move)
      ensures moveLog == old(moveLog) + [move]
      ensures whiteToMove == !old(whiteToMove)
    {
      board := board[move.startRow := board[move.startRow][move.startCol := Empty]];
      board := board[move.endRow := board[move.endRow][move.endCol := move.pieceMoved]];
      moveLog := moveLog + [move];
      whiteToMove := !whiteToMove;
    }

    /** Takes back the last logged move; with an empty log it changes nothing. */
    method UndoMove()
      requires Valid()
      modifies this
      ensures Valid()
      ensures old(moveLog) == [] ==>
                board == old(board) && whiteToMove == old(whiteToMove) && moveLog == []
      ensures old(moveLog) != [] ==>
                var last := old(moveLog)[|old(moveLog)| - 1];
                moveLog == old(moveLog)[..|old(moveLog)| - 1] &&
                board == AfterUndo(old(board), last) &&
                whiteToMove == !old(whiteToMove)
    {
      if |moveLog| != 0 {
        var move := moveLog[|moveLog| - 1];
        assert move in moveLog;
        moveLog := moveLog[..|moveLog| - 1];
        board := board[move.startRow := board[move.startRow][move.startCol := move.pieceMoved]];
        board := board[move.endRow := board[move.endRow][move.endCol := move.pieceCaptured]];
        whiteToMove := !whiteToMove;
      }
    }

    /** All moves of the side to move; king safety is not considered. */
    method GetValidMoves() returns (moves: seq<Move>)
      requires Valid() && PawnsHaveRowAhead(board, whiteToMove)
      ensures moves == AllMoves(board, whiteToMove)
    {
      moves := GetAllPossibleMoves();
    }

    /** Scans the board row by row and lets every piece of the side to move append its moves. */
    method GetAllPossibleMoves() returns (moves: seq<Move>)
      requires Valid() && PawnsHaveRowAhead(board, whiteToMove)
      ensures moves == AllMoves(board, whiteToMove)
    {
      moves := [];
      for r := 0 to 8
        invariant moves == BoardScan(board, whiteToMove, r)
      {
        ghost var done := moves;
        assert moves == done + RowScan(board, whiteToMove, r, 0);
        for c := 0 to 8
          invariant moves == BoardScan(board, whiteToMove, r) + RowScan(board, whiteToMove, r, c)
        {
          RowScanExtend(board, whiteToMove, r, c, BoardScan(board, whiteToMove, r), moves);
          moves := AppendSquareMoves(r, c, moves);
        }
        BoardScanExtend(board, whiteToMove, r, moves);
      }
    }

    /** One step of the scan: when (r, c) holds a piece of the side to move, the
        generator for its kind appends that piece's moves. */
    method AppendSquareMoves(r: int, c: int, moves: seq<Move>) returns (result: seq<Move>)
      requires Valid() && OnBoard(r, c) && PawnsHaveRowAhead(board, whiteToMove)
      ensures result == moves + SquareMoves(board, whiteToMove, r, c)
    {
      result := moves;
      var square := board[r][c];
      if square.Piece? {
        var turn := square.color;
        if (turn == White && whiteToMove) || (turn == Black && !whiteToMove) {
          match square.kind {
            case Pawn => result := GetPawnMoves(r, c, moves);
            case Rook => result := GetRookMoves(r, c, moves);
            case Knight => result := GetKnightMoves(r, c, moves);
            case Bishop => result := GetBishopMoves(r, c, moves);
            case Queen => result := GetQueenMoves(r, c, moves);
            case King => result := GetKingMoves(r, c, moves);
          }
        }
      }
    }

    /** Appends the moves of a pawn of the side to move on (r, c). */
    method GetPawnMoves(r: int, c: int, moves: seq<Move>) returns (result: seq<Move>)
      requires Valid() && OnBoard(r, c) && HasRowAhead(whiteToMove, r)
      ensures result == moves + PawnMoves(board, whiteToMove, r, c)
    {
      if whiteToMove {
        result := WhitePawnMoves(r, c, moves);
      } else {
        result := BlackPawnMoves(r, c, moves);
      }
    }

    /** The white branch of the pawn generator: up the board, capturing black pieces. */
    method WhitePawnMoves(r: int, c: int, moves: seq<Move>) returns (result: seq<Move>)
      requires Valid() && OnBoard(r, c) && whiteToMove && HasRowAhead(whiteToMove, r)
      ensures result == moves + PawnMoves(board, whiteToMove, r, c)
    {
      ghost var advances := PawnAdvances(board, whiteToMove, r, c);
      ghost var left := PawnCapture(board, whiteToMove, r, c, -1);
      ghost var right := PawnCapture(board, whiteToMove, r, c, 1);
      assert Forward(whiteToMove) == -1 && HomeRow(whiteToMove) == 6;
      result := moves;
      if board[r - 1][c] == Empty {
        var one := NewMove((r, c), (r - 1, c), board);
        result := result + [one];
        if r == 6 && board[r - 2][c] == Empty {
          var two := NewMove((r, c), (r - 2, c), board);
          result := result + [two];
          AppendAssoc(moves, [one], [two]);
        }
      }
      assert result == moves + advances;
      if c - 1 >= 0 {
        if board[r - 1][c - 1].Piece? && board[r - 1][c - 1].color == Black {
          result := result + [NewMove((r, c), (r - 1, c - 1), board)];
        }
      }
      assert result == moves + advances + left;
      if c + 1 <= 7 {
        if board[r - 1][c + 1].Piece? && board[r - 1][c + 1].color == Black {
          result := result + [NewMove((r, c), (r - 1, c + 1), board)];
        }
      }
      assert result == moves + advances + left + right;
      AppendAssoc(moves, advances, left);
      AppendAssoc(moves, advances + left, right);
    }

    /** The black branch of the pawn generator: down the board, capturing white pieces. */
    method BlackPawnMoves(r: int, c: int, moves: seq<Move>) returns (result: seq<Move>)
      requires Valid() && OnBoard(r, c) && !whiteToMove && HasRowAhead(whiteToMove, r)
      ensures result == moves + PawnMoves(board, whiteToMove, r, c)
    {
      ghost var advances := PawnAdvances(board, whiteToMove, r, c);
      ghost var left := PawnCapture(board, whiteToMove, r, c, -1);
      ghost var right := PawnCapture(board, whiteToMove, r, c, 1);
      assert Forward(whiteToMove) == 1 && HomeRow(whiteToMove) == 1;
      result := moves;
      if board[r + 1][c] == Empty {
        var one := NewMove((r, c), (r + 1, c), board);
        result := result + [one];
        if r == 1 && board[r + 2][c] == Empty {
          var two := NewMove((r, c), (r + 2, c), board);
          result := result + [two];
          AppendAssoc(moves, [one], [two]);
        }
      }
      assert result == moves + advances;
      if c - 1 >= 0 {
        if board[r + 1][c - 1].Piece? && board[r + 1][c - 1].color == White {
          result := result + [NewMove((r, c), (r + 1, c - 1), board)];
        }
      }
      assert result == moves + advances + left;
      if c + 1 <= 7 {
        if board[r + 1][c + 1].Piece? && board[r + 1][c + 1].color == White {
          result := result + [NewMove((r, c), (r + 1, c + 1), board)];
        }
      }
      assert result == moves + advances + left + right;
      AppendAssoc(moves, advances, left);
      AppendAssoc(moves, advances + left, right);
    }

    /** Appends the moves of a rook on (r, c): its four orthogonal rays. */
    method GetRookMoves(r: int, c: int, moves: seq<Move>) returns (result: seq<Move>)
      requires Valid() && OnBoard(r, c)
      ensures result == moves + Slide(board, whiteToMove, r, c, RookDirections)
    {
      result := SlideMoves(r, c, RookDirections, moves);
    }

    /** Appends the moves of a knight on (r, c): each of its eight jumps that lands
        on the board on a square without an ally. */
    method GetKnightMoves(r: int, c: int, moves: seq<Move>) returns (result: seq<Move>)
      requires Valid() && OnBoard(r, c)
      ensures result == moves + Jumps(board, whiteToMove, r, c, KnightJumps)
    {
      var knightMoves := KnightJumps;
      var allyColor := if whiteToMove then White else Black;
      result := moves;
      assert result == moves + Jumps(board, whiteToMove, r, c, knightMoves[..0]);
      for k := 0 to |knightMoves|
        invariant result == moves + Jumps(board, whiteToMove, r, c, knightMoves[..k])
      {
        var n := knightMoves[k];
        JumpsExtend(board, whiteToMove, r, c, knightMoves, k, moves, result);
        ghost var prev := result;
        var endRow := r + n.dr;
        var endCol := c + n.dc;
        if 0 <= endRow < 8 && 0 <= endCol < 8 {
          var endPiece := board[endRow][endCol];
          if endPiece == Empty || endPiece.color != allyColor {
            result := result + [NewMove((r, c), (endRow, endCol), board)];
          }
        }
        assert result == prev + Jump(board, whiteToMove, r, c, n);
      }
      assert knightMoves[..|knightMoves|] == knightMoves;
    }

    /** Appends the moves of a bishop on (r, c): its four diagonal rays. */
    method GetBishopMoves(r: int, c: int, moves: seq<Move>) returns (result: seq<Move>)
      requires Valid() && OnBoard(r, c)
      ensures result == moves + Slide(board, whiteToMove, r, c, BishopDirections)
    {
      result := SlideMoves(r, c, BishopDirections, moves);
    }

    /** Appends the moves of a queen on (r, c): the rook's rays and then the bishop's. */
    method GetQueenMoves(r: int, c: int, moves: seq<Move>) returns (result: seq<Move>)
      requires Valid() && OnBoard(r, c)
      ensures result == moves + Slide(board, whiteToMove, r, c, QueenDirections)
      ensures result == moves + Slide(board, whiteToMove, r, c, RookDirections) +
                                Slide(board, whiteToMove, r, c, BishopDirections)
    {
      result := SlideMoves(r, c, QueenDirections, moves);
      QueenIsRookThenBishop(board, whiteToMove, r, c);
    }

    /** King moves are not generated: a king contributes nothing. */
    method GetKingMoves(r: int, c: int, moves: seq<Move>) returns (result: seq<Move>)
      requires Valid() && OnBoard(r, c)
      ensures result == moves
    {
      result := moves;
    }

    /** The walk shared by rook, bishop and queen: for each direction, step
        outward taking empty squares, take the first enemy and stop, stop
        before an ally or at the edge, and never take more than seven steps. */
    method SlideMoves(r: int, c: int, directions: seq<Dir>, moves: seq<Move>) returns (result: seq<Move>)
      requires Valid() && OnBoard(r, c)
      ensures result == moves + Slide(board, whiteToMove, r, c, directions)
    {
      result := moves;
      assert result == moves + Slide(board, whiteToMove, r, c, directions[..0]);
      for k := 0 to |directions|
        invariant result == moves + Slide(board, whiteToMove, r, c, directions[..k])
      {
        SlideExtend(board, whiteToMove, r, c, directions, k, moves, result);
        result := RayMoves(r, c, directions[k], result);
      }
      assert directions[..|directions|] == directions;
    }

    /** The inner walk of a sliding piece along one direction d. */
    method RayMoves(r: int, c: int, d: Dir, moves: seq<Move>) returns (result: seq<Move>)
      requires Valid() && OnBoard(r, c)
      ensures result == moves + Ray(board, whiteToMove, r, c, d, 1)
    {
      ghost var total := moves + Ray(board, whiteToMove, r, c, d, 1);
      var enemyColor := if whiteToMove then Black else White;
      result := moves;
      var i := 1;
      while i < 8
        invariant 1 <= i <= 8
        invariant result + Ray(board, whiteToMove, r, c, d, i) == total
      {
        RayStep(board, whiteToMove, r, c, d, i, result, total);
        var endRow := r + d.dr * i;
        var endCol := c + d.dc * i;
        if 0 <= endRow < 8 && 0 <= endCol < 8 {
          var endPiece := board[endRow][endCol];
          if endPiece == Empty {
            result := result + [NewMove((r, c), (endRow, endCol), board)];
          } else if endPiece.color == enemyColor {
            result := result + [NewMove((r, c), (endRow, endCol), board)];
            return;
          } else {
            return;
          }
        } else {
          return;
        }
        i := i + 1;
      }
      assert result + [] == total;
    }
  }

  /** Making a move whose copies match the board and then taking it back leaves
      the game exactly as it was. */
  method MakeThenUndo(game: GameState, move: Move)
    requires game.Valid() && move.InRange()
    requires move.pieceMoved == game.board[move.startRow][move.startCol]
    requires move.pieceCaptured == game.board[move.endRow][move.endCol]
    modifies game
    ensures game.Valid()
    ensures game.board == old(game.board)
    ensures game.whiteToMove == old(game.whiteToMove)
    ensures game.moveLog == old(game.moveLog)
  {
    ghost var before := game.board;
    game.MakeMove(move);
    game.UndoMove();
    assert game.moveLog == old(game.moveLog) by {
      assert (old(game.moveLog) + [move])[..|old(game.moveLog)|] == old(game.moveLog);
    }
    UndoRestores(before, move);
  }

  /** A fresh game after a2-a4 and its take-back: white to move again, the log empty, the board as it started. */
  method OpeningScenario() returns (game: GameState)
    ensures fresh(game) && game.Valid()
    ensures game.board == InitialBoard && game.whiteToMove && game.moveLog == []
  {
    game := new GameState();
    var move := NewMove((6, 0), (4, 0), game.board);
    game.MakeMove(move);
    assert game.board[6][0] == Empty && game.board[4][0] == Piece(White, Pawn);
    assert !game.whiteToMove && |game.moveLog| == 1;
    game.UndoMove();
    OpeningRoundTrip();
  }
}
