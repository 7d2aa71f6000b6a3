/** The full list of pseudo-legal moves: the board scanned in row-major order,
    each piece of the side to move contributing the moves of its rule. */
module Enumeration {
  import opened Pieces
  import opened Moves
  import opened Generation

  /** Every pawn of the side to move has a row ahead of it. The engine reads the
      square ahead of a pawn without a bounds check, so a pawn of the side to
      move on its last row is outside what it handles. */
  predicate PawnsHaveRowAhead(b: Board, white: bool)
    requires IsBoard(b)
  {
    forall r, c :: 0 <= r < 8 && 0 <= c < 8 && b[r][c] == Piece(Side(white), Pawn) ==> HasRowAhead(white, r)
  }

  /** What one square contributes: the moves of its piece when that piece belongs to the side to move. */
  function SquareMoves(b: Board, white: bool, r: int, c: int): (ms: seq<Move>)
    requires IsBoard(b) && OnBoard(r, c) && PawnsHaveRowAhead(b, white)
    ensures !IsAlly(b[r][c], white) ==> ms == []
    ensures b[r][c] == Piece(Side(white), King) ==> ms == []
    ensures |ms| <= 56
  {
    var sq := b[r][c];
    if IsAlly(sq, white) then PieceMoves(b, white, sq.kind, r, c) else []
  }

  // ---------------------------------------------------------------- scanning in order

  /** The lists f(0), ..., f(n - 1), one after the other. */
  function Gather(f: int -> seq<Move>, n: int): seq<Move>
    requires 0 <= n
    decreases n
  {
    if n == 0 then [] else Gather(f, n - 1) + f(n - 1)
  }

  lemma {:induction false} GatherMembers(f: int -> seq<Move>, n: int, m: Move)
    requires 0 <= n
    ensures m in Gather(f, n) <==> exists i :: 0 <= i < n && m in f(i)
    decreases n
  {
    if n > 0 {
      GatherMembers(f, n - 1, m);
      var last := f(n - 1);
      assert Gather(f, n) == Gather(f, n - 1) + last;
      if m in Gather(f, n) && m !in Gather(f, n - 1) {
        assert m in last;
      }
      if exists i :: 0 <= i < n && m in f(i) {
        var i :| 0 <= i < n && m in f(i);
        if i == n - 1 {
          assert m in last;
        }
      }
    }
  }

  lemma {:induction false} GatherLength(f: int -> seq<Move>, n: int, k: nat)
    requires 0 <= n
    requires forall i :: 0 <= i < n ==> |f(i)| == k
    ensures |Gather(f, n)| == n * k
    decreases n
  {
    if n > 0 {
      GatherLength(f, n - 1, k);
      assert |f(n - 1)| == k;
      MulStep(n, k);
    }
  }

  lemma {:induction false} GatherAtMost(f: int -> seq<Move>, n: int, k: nat)
    requires 0 <= n
    requires forall i :: 0 <= i < n ==> |f(i)| <= k
    ensures |Gather(f, n)| <= n * k
    decreases n
  {
    if n > 0 {
      GatherAtMost(f, n - 1, k);
      assert |f(n - 1)| <= k;
      MulStep(n, k);
    }
  }

  lemma MulStep(n: int, k: int)
    ensures n * k == (n - 1) * k + k
  {
  }

  lemma GatherStep(f: int -> seq<Move>, n: int)
    requires 0 <= n
    ensures Gather(f, n + 1) == Gather(f, n) + f(n)
  {
  }

  /** One more list of a gathering: what has been appended so far, followed by the next list. */
  lemma GatherExtend(f: int -> seq<Move>, n: int, base: seq<Move>, acc: seq<Move>)
    requires 0 <= n
    requires acc == base + Gather(f, n)
    ensures acc + f(n) == base + Gather(f, n + 1)
  {
    AppendAssoc(base, Gather(f, n), f(n));
  }

  /** For each row r, the first eight lists of g(r) gathered. */
  function Rows(g: int -> int -> seq<Move>): int -> seq<Move> {
    r => Gather(g(r), 8)
  }

  lemma Gather2Members(g: int -> int -> seq<Move>, n: int, m: Move)
    requires 0 <= n
    ensures m in Gather(Rows(g), n) <==> exists r, c :: 0 <= r < n && 0 <= c < 8 && m in g(r)(c)
  {
    GatherMembers(Rows(g), n, m);
    if m in Gather(Rows(g), n) {
      var r :| 0 <= r < n && m in Rows(g)(r);
      GatherMembers(g(r), 8, m);
    }
    if exists r, c :: 0 <= r < n && 0 <= c < 8 && m in g(r)(c) {
      var r, c :| 0 <= r < n && 0 <= c < 8 && m in g(r)(c);
      GatherMembers(g(r), 8, m);
      assert m in Rows(g)(r);
    }
  }

  /** What each square contributes, by row and column. */
  function Cells(b: Board, white: bool): int -> int -> seq<Move>
    requires IsBoard(b) && PawnsHaveRowAhead(b, white)
  {
    r => c => if OnBoard(r, c) then SquareMoves(b, white, r, c) else []
  }

  /** The moves of the first n squares of row r, left to right. */
  function RowScan(b: Board, white: bool, r: int, n: int): seq<Move>
    requires IsBoard(b) && PawnsHaveRowAhead(b, white) && 0 <= r < 8 && 0 <= n <= 8
  {
    Gather(Cells(b, white)(r), n)
  }

  /** The moves of the first n rows, top to bottom. */
  function BoardScan(b: Board, white: bool, n: int): seq<Move>
    requires IsBoard(b) && PawnsHaveRowAhead(b, white) && 0 <= n <= 8
  {
    Gather(Rows(Cells(b, white)), n)
  }

  /** All pseudo-legal moves of the side to move, in the engine's order. */
  function AllMoves(b: Board, white: bool): (ms: seq<Move>)
    requires IsBoard(b) && PawnsHaveRowAhead(b, white)
    ensures |ms| <= 64 * 56
  {
    BoardScanAtMost(b, white);
    BoardScan(b, white, 8)
  }

  /** No square contributes more than 56 moves, so the whole scan has at most 64 * 56. */
  lemma BoardScanAtMost(b: Board, white: bool)
    requires IsBoard(b) && PawnsHaveRowAhead(b, white)
    ensures |BoardScan(b, white, 8)| <= 64 * 56
  {
    var g := Cells(b, white);
    forall r | 0 <= r < 8 ensures |Rows(g)(r)| <= 8 * 56 {
      GatherAtMost(g(r), 8, 56);
    }
    GatherAtMost(Rows(g), 8, 8 * 56);
  }

  /** One more square of a row scan: what the scan has appended so far, followed by the square's moves. */
  lemma RowScanExtend(b: Board, white: bool, r: int, c: int, base: seq<Move>, acc: seq<Move>)
    requires IsBoard(b) && PawnsHaveRowAhead(b, white) && 0 <= r < 8 && 0 <= c < 8
    requires acc == base + RowScan(b, white, r, c)
    ensures acc + SquareMoves(b, white, r, c) == base + RowScan(b, white, r, c + 1)
  {
    GatherExtend(Cells(b, white)(r), c, base, acc);
  }

  lemma RowScanStep(b: Board, white: bool, r: int, c: int)
    requires IsBoard(b) && PawnsHaveRowAhead(b, white) && 0 <= r < 8 && 0 <= c < 8
    ensures RowScan(b, white, r, c + 1) == RowScan(b, white, r, c) + SquareMoves(b, white, r, c)
  {
    GatherStep(Cells(b, white)(r), c);
  }

  /** One more row of the board scan. */
  lemma BoardScanExtend(b: Board, white: bool, r: int, acc: seq<Move>)
    requires IsBoard(b) && PawnsHaveRowAhead(b, white) && 0 <= r < 8
    requires acc == BoardScan(b, white, r) + RowScan(b, white, r, 8)
    ensures acc == BoardScan(b, white, r + 1)
  {
    GatherStep(Rows(Cells(b, white)), r);
  }

  /** A move is enumerated exactly when some square of the board contributes it. */
  lemma AllMovesSquares(b: Board, white: bool, m: Move)
    requires IsBoard(b) && PawnsHaveRowAhead(b, white)
    ensures m in AllMoves(b, white) <==> exists r, c :: OnBoard(r, c) && m in SquareMoves(b, white, r, c)
  {
    var g := Cells(b, white);
    Gather2Members(g, 8, m);
    if m in AllMoves(b, white) {
      var r, c :| 0 <= r < 8 && 0 <= c < 8 && m in g(r)(c);
      assert m in SquareMoves(b, white, r, c);
    }
    if exists r, c :: OnBoard(r, c) && m in SquareMoves(b, white, r, c) {
      var r, c :| OnBoard(r, c) && m in SquareMoves(b, white, r, c);
      assert m in g(r)(c);
    }
  }

  /** The enumeration holds exactly the moves that the rule of some piece of the side to move generates. */
  lemma AllMovesMembers(b: Board, white: bool, m: Move)
    requires IsBoard(b) && PawnsHaveRowAhead(b, white)
    ensures m in AllMoves(b, white) <==>
              exists r, c :: OnBoard(r, c) && IsAlly(b[r][c], white) && m in PieceMoves(b, white, b[r][c].kind, r, c)
  {
    AllMovesSquares(b, white, m);
    if m in AllMoves(b, white) {
      var r, c :| OnBoard(r, c) && m in SquareMoves(b, white, r, c);
      assert IsAlly(b[r][c], white) && m in PieceMoves(b, white, b[r][c].kind, r, c);
    }
    if exists r, c :: OnBoard(r, c) && IsAlly(b[r][c], white) && m in PieceMoves(b, white, b[r][c].kind, r, c) {
      var r, c :| OnBoard(r, c) && IsAlly(b[r][c], white) && m in PieceMoves(b, white, b[r][c].kind, r, c);
      assert m in SquareMoves(b, white, r, c);
    }
  }

  /** Every enumerated move starts on a square holding a piece of the side to
      move, and that piece is not a king; it records the occupants of its two
      squares, ends on another square of the board, and never on an ally. */
  lemma AllMovesSound(b: Board, white: bool, m: Move)
    requires IsBoard(b) && PawnsHaveRowAhead(b, white)
    requires m in AllMoves(b, white)
    ensures m.InRange()
    ensures IsAlly(b[m.startRow][m.startCol], white) && b[m.startRow][m.startCol].kind != King
    ensures m.pieceMoved == b[m.startRow][m.startCol] && m.pieceCaptured == b[m.endRow][m.endCol]
    ensures (m.endRow, m.endCol) != (m.startRow, m.startCol)
    ensures !IsAlly(b[m.endRow][m.endCol], white)
  {
    AllMovesMembers(b, white, m);
    var r, c :| OnBoard(r, c) && IsAlly(b[r][c], white) && m in PieceMoves(b, white, b[r][c].kind, r, c);
    PieceMovesSound(b, white, b[r][c].kind, r, c, m);
  }
}
