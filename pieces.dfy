/** Squares, pieces and the 8x8 board that the chess engine keeps.
    Row 0 is black's home rank, row 7 white's; column 0 is the a-file. */
module Pieces {

  datatype Color = White | Black

  datatype Kind = Pawn | Rook | Knight | Bishop | Queen | King

  /** The occupant of one square: "--" when empty, otherwise a colour and a kind ("wp", "bR", ...). */
  datatype Square = Empty | Piece(color: Color, kind: Kind)

  /** The board as the engine stores it: a list of rows, each a list of squares. */
  type Board = seq<seq<Square>>

  predicate IsBoard(b: Board) {
    |b| == 8 && forall r :: 0 <= r < 8 ==> |b[r]| == 8
  }

  predicate OnBoard(r: int, c: int) {
    0 <= r < 8 && 0 <= c < 8
  }

  /** The colour of the side to move, given the engine's `whiteToMove` flag. */
  function Side(white: bool): Color {
    if white then White else Black
  }

  /** The other colour. */
  function Opponent(color: Color): Color {
    if color == White then Black else White
  }

  /** A piece of the side to move ("friendly" in the engine's comments). */
  predicate IsAlly(sq: Square, white: bool) {
    sq.Piece? && sq.color == Side(white)
  }

  /** A piece of the other side. */
  predicate IsEnemy(sq: Square, white: bool) {
    sq.Piece? && sq.color != Side(white)
  }

  /** The board with one square replaced; every other square keeps its occupant. */
  function SetSquare(b: Board, r: int, c: int, sq: Square): (b': Board)
    requires IsBoard(b) && OnBoard(r, c)
    ensures IsBoard(b')
    ensures b'[r][c] == sq
    ensures forall i, j :: OnBoard(i, j) && (i != r || j != c) ==> b'[i][j] == b[i][j]
  {
    b[r := b[r][c := sq]]
  }

  function BackRank(color: Color): seq<Square> {
    [Piece(color, Rook), Piece(color, Knight), Piece(color, Bishop), Piece(color, Queen),
     Piece(color, King), Piece(color, Bishop), Piece(color, Knight), Piece(color, Rook)]
  }

  function PawnRank(color: Color): seq<Square> {
    seq(8, _ => Piece(color, Pawn))
  }

  const EmptyRank: seq<Square> := seq(8, _ => Empty)

  /** The standard starting position the engine is created with. */
  const InitialBoard: Board :=
    [BackRank(Black), PawnRank(Black), EmptyRank, EmptyRank,
     EmptyRank, EmptyRank, PawnRank(White), BackRank(White)]

  /** The starting position, square by square: black's back rank on row 0 and its pawns
      on row 1, rows 2 to 5 empty, white's pawns on row 6 and its back rank on row 7,
      with the queens on the d-file and the kings on the e-file. Each white square
      mirrors the black square in the same column across the middle of the board. */
  lemma InitialPosition()
    ensures IsBoard(InitialBoard)
    ensures forall c :: 0 <= c < 8 ==>
              InitialBoard[0][c] == BackRank(Black)[c] && InitialBoard[1][c] == Piece(Black, Pawn) &&
              InitialBoard[6][c] == Piece(White, Pawn) && InitialBoard[7][c] == BackRank(White)[c]
    ensures forall r, c :: 2 <= r < 6 && 0 <= c < 8 ==> InitialBoard[r][c] == Empty
    ensures InitialBoard[7][3] == Piece(White, Queen) && InitialBoard[7][4] == Piece(White, King)
    ensures InitialBoard[0][3] == Piece(Black, Queen) && InitialBoard[0][4] == Piece(Black, King)
    ensures forall r, c :: OnBoard(r, c) && InitialBoard[r][c].Piece? ==>
              InitialBoard[7 - r][c] == Piece(Opponent(InitialBoard[r][c].color), InitialBoard[r][c].kind)
  {
    forall r, c | OnBoard(r, c) && InitialBoard[r][c].Piece?
      ensures InitialBoard[7 - r][c] == Piece(Opponent(InitialBoard[r][c].color), InitialBoard[r][c].kind)
    {
      assert r == 0 || r == 1 || r == 6 || r == 7;
    }
  }
}
