/** What each piece's move rule generates, as functions on a board value, in the
    order the engine appends the moves, and what those moves are, stated square
    by square. "Ally" and "enemy" are relative to the side to move. */
module Generation {
  import opened Pieces
  import opened Moves

  /** A displacement in rows and columns: a ray direction or a knight's jump. */
  datatype Dir = Dir(dr: int, dc: int)

  const RookDirections: seq<Dir> := [Dir(-1, 0), Dir(0, -1), Dir(1, 0), Dir(0, 1)]

  const BishopDirections: seq<Dir> := [Dir(1, 1), Dir(1, -1), Dir(-1, 1), Dir(-1, -1)]

  const QueenDirections: seq<Dir> :=
    [Dir(-1, 0), Dir(0, -1), Dir(1, 0), Dir(0, 1), Dir(1, 1), Dir(1, -1), Dir(-1, 1), Dir(-1, -1)]

  const KnightJumps: seq<Dir> :=
    [Dir(-2, -1), Dir(-2, 1), Dir(-1, -2), Dir(-1, 2), Dir(1, -2), Dir(2, -1), Dir(2, 1), Dir(1, 2)]

  /** The square i steps from (r, c) along d. */
  function Along(r: int, c: int, d: Dir, i: int): (int, int) {
    (r + d.dr * i, c + d.dc * i)
  }

  predicate OnBoardAt(p: (int, int)) {
    OnBoard(p.0, p.1)
  }

  function At(b: Board, p: (int, int)): Square
    requires IsBoard(b) && OnBoardAt(p)
  {
    b[p.0][p.1]
  }

  // ---------------------------------------------------------------- sliding pieces

  /** The moves the inner loop of a sliding piece appends for direction d,
      from step i on: empty squares are taken and the walk goes on; the first
      occupied square ends the walk and is taken when it holds an enemy; the
      edge of the board ends it too. The walk never goes past step 7. */
  function Ray(b: Board, white: bool, r: int, c: int, d: Dir, i: int): seq<Move>
    requires IsBoard(b) && OnBoard(r, c) && 1 <= i <= 8
    decreases 8 - i
  {
    if i == 8 then []
    else
      var e := Along(r, c, d, i);
      if !OnBoardAt(e) then []
      else if At(b, e) == Empty then [NewMove((r, c), e, b)] + Ray(b, white, r, c, d, i + 1)
      else if IsEnemy(At(b, e), white) then [NewMove((r, c), e, b)]
      else []
  }

  /** The walk takes at most one move per step, and its steps stop at 7. */
  lemma {:induction false} RayAtMost(b: Board, white: bool, r: int, c: int, d: Dir, i: int)
    requires IsBoard(b) && OnBoard(r, c) && 1 <= i <= 8
    ensures |Ray(b, white, r, c, d, i)| <= 8 - i
    decreases 8 - i
  {
    if i < 8 {
      RayAtMost(b, white, r, c, d, i + 1);
    }
  }

  /** One step of the walk, for a loop that keeps acc + Ray(i) equal to a fixed total:
      an empty square is appended and the walk goes on, an enemy is appended and the
      walk ends, and the edge or an ally ends it with nothing appended. */
  lemma RayStep(b: Board, white: bool, r: int, c: int, d: Dir, i: int, acc: seq<Move>, total: seq<Move>)
    requires IsBoard(b) && OnBoard(r, c) && 1 <= i < 8
    requires acc + Ray(b, white, r, c, d, i) == total
    ensures var e := Along(r, c, d, i);
            OnBoardAt(e) && At(b, e) == Empty ==>
              (acc + [NewMove((r, c), e, b)]) + Ray(b, white, r, c, d, i + 1) == total
    ensures var e := Along(r, c, d, i);
            OnBoardAt(e) && At(b, e) != Empty && IsEnemy(At(b, e), white) ==> acc + [NewMove((r, c), e, b)] == total
    ensures var e := Along(r, c, d, i);
            !OnBoardAt(e) || (At(b, e) != Empty && !IsEnemy(At(b, e), white)) ==> acc == total
  {
    var e := Along(r, c, d, i);
    if OnBoardAt(e) && At(b, e) == Empty {
      AppendAssoc(acc, [NewMove((r, c), e, b)], Ray(b, white, r, c, d, i + 1));
    }
  }

  /** Every square from step i up to (not including) step k along d is on the board and empty. */
  predicate ClearFrom(b: Board, r: int, c: int, d: Dir, i: int, k: int)
    requires IsBoard(b)
  {
    forall j :: i <= j < k ==> OnBoardAt(Along(r, c, d, j)) && At(b, Along(r, c, d, j)) == Empty
  }

  /** Step k (counting from i) along d is a destination of a sliding piece: it is
      within seven steps, on the board, every square before it is empty, and it
      holds no ally. */
  predicate Reaches(b: Board, white: bool, r: int, c: int, d: Dir, i: int, k: int)
    requires IsBoard(b)
  {
    i <= k < 8 && OnBoardAt(Along(r, c, d, k)) && ClearFrom(b, r, c, d, i, k) &&
    !IsAlly(At(b, Along(r, c, d, k)), white)
  }

  /** A ray generates exactly the moves to the squares it reaches. */
  lemma {:induction false} RayMembers(b: Board, white: bool, r: int, c: int, d: Dir, i: int, m: Move)
    requires IsBoard(b) && OnBoard(r, c) && 1 <= i <= 8
    ensures m in Ray(b, white, r, c, d, i) <==>
              exists k :: Reaches(b, white, r, c, d, i, k) && m == NewMove((r, c), Along(r, c, d, k), b)
    decreases 8 - i
  {
    if i < 8 {
      var e := Along(r, c, d, i);
      if OnBoardAt(e) && At(b, e) == Empty {
        RayMembers(b, white, r, c, d, i + 1, m);
        RayMembersPass(b, white, r, c, d, i, m);
      } else {
        RayMembersStop(b, white, r, c, d, i, m);
      }
    }
  }

  /** The inductive step of RayMembers: step i is on the board and empty, so the walk passes it. */
  lemma RayMembersPass(b: Board, white: bool, r: int, c: int, d: Dir, i: int, m: Move)
    requires IsBoard(b) && OnBoard(r, c) && 1 <= i < 8
    requires OnBoardAt(Along(r, c, d, i)) && At(b, Along(r, c, d, i)) == Empty
    requires m in Ray(b, white, r, c, d, i + 1) <==>
               exists k :: Reaches(b, white, r, c, d, i + 1, k) && m == NewMove((r, c), Along(r, c, d, k), b)
    ensures m in Ray(b, white, r, c, d, i) <==>
              exists k :: Reaches(b, white, r, c, d, i, k) && m == NewMove((r, c), Along(r, c, d, k), b)
  {
    var e := Along(r, c, d, i);
    if m in Ray(b, white, r, c, d, i) {
      if m == NewMove((r, c), e, b) {
        assert Reaches(b, white, r, c, d, i, i);
      } else {
        var k :| Reaches(b, white, r, c, d, i + 1, k) && m == NewMove((r, c), Along(r, c, d, k), b);
        assert Reaches(b, white, r, c, d, i, k);
      }
    }
    if exists k :: Reaches(b, white, r, c, d, i, k) && m == NewMove((r, c), Along(r, c, d, k), b) {
      var k :| Reaches(b, white, r, c, d, i, k) && m == NewMove((r, c), Along(r, c, d, k), b);
      if k > i {
        assert Reaches(b, white, r, c, d, i + 1, k);
      }
    }
  }

  /** The base case of RayMembers: step i leaves the board or is occupied, so the walk ends there. */
  lemma RayMembersStop(b: Board, white: bool, r: int, c: int, d: Dir, i: int, m: Move)
    requires IsBoard(b) && OnBoard(r, c) && 1 <= i < 8
    requires !OnBoardAt(Along(r, c, d, i)) || At(b, Along(r, c, d, i)) != Empty
    ensures m in Ray(b, white, r, c, d, i) <==>
              exists k :: Reaches(b, white, r, c, d, i, k) && m == NewMove((r, c), Along(r, c, d, k), b)
  {
    if m in Ray(b, white, r, c, d, i) {
      assert Reaches(b, white, r, c, d, i, i);
    }
    if exists k :: Reaches(b, white, r, c, d, i, k) && m == NewMove((r, c), Along(r, c, d, k), b) {
      var k :| Reaches(b, white, r, c, d, i, k) && m == NewMove((r, c), Along(r, c, d, k), b);
      assert k == i;
    }
  }

  /** One of the eight king-step directions the sliding pieces use. */
  predicate IsUnitDir(d: Dir) {
    -1 <= d.dr <= 1 && -1 <= d.dc <= 1 && d != Dir(0, 0)
  }

  /** Along a unit direction, different step counts give different squares. */
  lemma AlongInjective(r: int, c: int, d: Dir, k1: int, k2: int)
    requires IsUnitDir(d)
    ensures Along(r, c, d, k1) == Along(r, c, d, k2) <==> k1 == k2
  {
    if d.dr == 1 {
    } else if d.dr == -1 {
    } else if d.dc == 1 {
    } else {
    }
  }

  /** A ray never generates a square that lies beyond an occupied square on it. */
  lemma RayStopsAtFirstPiece(b: Board, white: bool, r: int, c: int, d: Dir, j: int, k: int)
    requires IsBoard(b) && OnBoard(r, c) && IsUnitDir(d)
    requires 1 <= j < k && OnBoardAt(Along(r, c, d, j)) && At(b, Along(r, c, d, j)) != Empty
    ensures forall m :: m in Ray(b, white, r, c, d, 1) ==> (m.endRow, m.endCol) != Along(r, c, d, k)
  {
    forall m | m in Ray(b, white, r, c, d, 1)
      ensures (m.endRow, m.endCol) != Along(r, c, d, k)
    {
      RayMembers(b, white, r, c, d, 1, m);
      var k' :| Reaches(b, white, r, c, d, 1, k') && m == NewMove((r, c), Along(r, c, d, k'), b);
      AlongInjective(r, c, d, k', k);
    }
  }

  /** The moves of a sliding piece: its rays, in the order of `dirs`. */
  function Slide(b: Board, white: bool, r: int, c: int, dirs: seq<Dir>): seq<Move>
    requires IsBoard(b) && OnBoard(r, c)
    decreases |dirs|
  {
    if dirs == [] then []
    else Slide(b, white, r, c, dirs[..|dirs| - 1]) + Ray(b, white, r, c, dirs[|dirs| - 1], 1)
  }

  /** Each direction gives at most seven moves. */
  lemma {:induction false} SlideAtMost(b: Board, white: bool, r: int, c: int, dirs: seq<Dir>)
    requires IsBoard(b) && OnBoard(r, c)
    ensures |Slide(b, white, r, c, dirs)| <= 7 * |dirs|
    decreases |dirs|
  {
    if dirs != [] {
      SlideAtMost(b, white, r, c, dirs[..|dirs| - 1]);
      RayAtMost(b, white, r, c, dirs[|dirs| - 1], 1);
    }
  }

  /** A sliding piece generates exactly the moves to the squares some ray of it reaches. */
  lemma {:induction false} SlideMembers(b: Board, white: bool, r: int, c: int, dirs: seq<Dir>, m: Move)
    requires IsBoard(b) && OnBoard(r, c)
    ensures m in Slide(b, white, r, c, dirs) <==>
              exists d, k :: d in dirs && Reaches(b, white, r, c, d, 1, k) &&
                             m == NewMove((r, c), Along(r, c, d, k), b)
    decreases |dirs|
  {
    if dirs != [] {
      var init, last := dirs[..|dirs| - 1], dirs[|dirs| - 1];
      assert dirs == init + [last];
      SlideMembers(b, white, r, c, init, m);
      RayMembers(b, white, r, c, last, 1, m);
      if m in Slide(b, white, r, c, dirs) {
        if m in Slide(b, white, r, c, init) {
          var d, k :| d in init && Reaches(b, white, r, c, d, 1, k) && m == NewMove((r, c), Along(r, c, d, k), b);
          assert d in dirs;
        } else {
          var k :| Reaches(b, white, r, c, last, 1, k) && m == NewMove((r, c), Along(r, c, last, k), b);
          assert last in dirs;
        }
      }
      if exists d, k :: d in dirs && Reaches(b, white, r, c, d, 1, k) && m == NewMove((r, c), Along(r, c, d, k), b) {
        var d, k :| d in dirs && Reaches(b, white, r, c, d, 1, k) && m == NewMove((r, c), Along(r, c, d, k), b);
        if d != last {
          assert d in init;
        }
      }
    }
  }

  /** One more direction adds its ray at the end. */
  lemma SlideSnoc(b: Board, white: bool, r: int, c: int, dirs: seq<Dir>, d: Dir)
    requires IsBoard(b) && OnBoard(r, c)
    ensures Slide(b, white, r, c, dirs + [d]) == Slide(b, white, r, c, dirs) + Ray(b, white, r, c, d, 1)
  {
    var zs := dirs + [d];
    assert zs[..|zs| - 1] == dirs;
  }

  lemma SlideStep(b: Board, white: bool, r: int, c: int, dirs: seq<Dir>, k: int)
    requires IsBoard(b) && OnBoard(r, c) && 0 <= k < |dirs|
    ensures Slide(b, white, r, c, dirs[..k + 1]) == Slide(b, white, r, c, dirs[..k]) + Ray(b, white, r, c, dirs[k], 1)
  {
    assert dirs[..k + 1][..k] == dirs[..k];
  }

  /** One more direction of a sliding walk: what the walk has appended so far, followed by the next ray. */
  lemma SlideExtend(b: Board, white: bool, r: int, c: int, dirs: seq<Dir>, k: int, base: seq<Move>, acc: seq<Move>)
    requires IsBoard(b) && OnBoard(r, c) && 0 <= k < |dirs|
    requires acc == base + Slide(b, white, r, c, dirs[..k])
    ensures acc + Ray(b, white, r, c, dirs[k], 1) == base + Slide(b, white, r, c, dirs[..k + 1])
  {
    SlideStep(b, white, r, c, dirs, k);
    AppendAssoc(base, Slide(b, white, r, c, dirs[..k]), Ray(b, white, r, c, dirs[k], 1));
  }

  /** Sliding along two lists of directions one after the other generates the two lists' moves one after the other. */
  lemma {:induction false} SlideAppend(b: Board, white: bool, r: int, c: int, xs: seq<Dir>, ys: seq<Dir>)
    requires IsBoard(b) && OnBoard(r, c)
    ensures Slide(b, white, r, c, xs + ys) == Slide(b, white, r, c, xs) + Slide(b, white, r, c, ys)
    decreases |ys|
  {
    if ys == [] {
      assert xs + ys == xs;
    } else {
      var init, last := ys[..|ys| - 1], ys[|ys| - 1];
      assert ys == init + [last];
      assert xs + ys == (xs + init) + [last];
      SlideAppend(b, white, r, c, xs, init);
      SlideSnoc(b, white, r, c, xs + init, last);
      SlideSnoc(b, white, r, c, init, last);
      AppendAssoc(Slide(b, white, r, c, xs), Slide(b, white, r, c, init), Ray(b, white, r, c, last, 1));
    }
  }

  /** A sliding piece whose every first step leaves the board or lands on an ally has no moves. */
  lemma {:induction false} SlideBlocked(b: Board, white: bool, r: int, c: int, dirs: seq<Dir>)
    requires IsBoard(b) && OnBoard(r, c)
    requires forall d :: d in dirs ==>
               !OnBoardAt(Along(r, c, d, 1)) || IsAlly(At(b, Along(r, c, d, 1)), white)
    ensures Slide(b, white, r, c, dirs) == []
    decreases |dirs|
  {
    if dirs != [] {
      var init, last := dirs[..|dirs| - 1], dirs[|dirs| - 1];
      assert last in dirs;
      forall d | d in init ensures d in dirs {
      }
      SlideBlocked(b, white, r, c, init);
    }
  }

  /** The queen's moves are the rook's moves followed by the bishop's. */
  lemma QueenIsRookThenBishop(b: Board, white: bool, r: int, c: int)
    requires IsBoard(b) && OnBoard(r, c)
    ensures Slide(b, white, r, c, QueenDirections) ==
            Slide(b, white, r, c, RookDirections) + Slide(b, white, r, c, BishopDirections)
  {
    assert QueenDirections == RookDirections + BishopDirections;
    SlideAppend(b, white, r, c, RookDirections, BishopDirections);
  }

  // ---------------------------------------------------------------- knight

  /** The square one knight jump o away from (r, c). */
  function Offset(r: int, c: int, o: Dir): (int, int) {
    (r + o.dr, c + o.dc)
  }

  /** The move one jump gives: kept when it lands on the board on a square with no ally. */
  function Jump(b: Board, white: bool, r: int, c: int, o: Dir): seq<Move>
    requires IsBoard(b) && OnBoard(r, c)
  {
    var e := Offset(r, c, o);
    if OnBoardAt(e) && !IsAlly(At(b, e), white) then [NewMove((r, c), e, b)] else []
  }

  /** The moves of a knight, jump by jump in the order of `jumps`. */
  function Jumps(b: Board, white: bool, r: int, c: int, jumps: seq<Dir>): seq<Move>
    requires IsBoard(b) && OnBoard(r, c)
    decreases |jumps|
  {
    if jumps == [] then []
    else Jumps(b, white, r, c, jumps[..|jumps| - 1]) + Jump(b, white, r, c, jumps[|jumps| - 1])
  }

  /** Each jump gives at most one move. */
  lemma {:induction false} JumpsAtMost(b: Board, white: bool, r: int, c: int, jumps: seq<Dir>)
    requires IsBoard(b) && OnBoard(r, c)
    ensures |Jumps(b, white, r, c, jumps)| <= |jumps|
    decreases |jumps|
  {
    if jumps != [] {
      JumpsAtMost(b, white, r, c, jumps[..|jumps| - 1]);
    }
  }

  /** Taking one more jump into account adds that jump's move, if any, at the end. */
  lemma JumpsStep(b: Board, white: bool, r: int, c: int, jumps: seq<Dir>, k: int)
    requires IsBoard(b) && OnBoard(r, c) && 0 <= k < |jumps|
    ensures Jumps(b, white, r, c, jumps[..k + 1]) == Jumps(b, white, r, c, jumps[..k]) + Jump(b, white, r, c, jumps[k])
  {
    assert jumps[..k + 1][..k] == jumps[..k];
  }

  /** One more jump of a knight: what has been appended so far, followed by the next jump's move. */
  lemma JumpsExtend(b: Board, white: bool, r: int, c: int, jumps: seq<Dir>, k: int, base: seq<Move>, acc: seq<Move>)
    requires IsBoard(b) && OnBoard(r, c) && 0 <= k < |jumps|
    requires acc == base + Jumps(b, white, r, c, jumps[..k])
    ensures acc + Jump(b, white, r, c, jumps[k]) == base + Jumps(b, white, r, c, jumps[..k + 1])
  {
    JumpsStep(b, white, r, c, jumps, k);
    AppendAssoc(base, Jumps(b, white, r, c, jumps[..k]), Jump(b, white, r, c, jumps[k]));
  }

  /** A knight generates exactly the moves by one of its jumps that land on the board on a square with no ally. */
  lemma {:induction false} JumpsMembers(b: Board, white: bool, r: int, c: int, jumps: seq<Dir>, m: Move)
    requires IsBoard(b) && OnBoard(r, c)
    ensures m in Jumps(b, white, r, c, jumps) <==>
              exists o :: o in jumps && OnBoardAt(Offset(r, c, o)) && !IsAlly(At(b, Offset(r, c, o)), white) &&
                          m == NewMove((r, c), Offset(r, c, o), b)
    decreases |jumps|
  {
    if jumps != [] {
      var init, last := jumps[..|jumps| - 1], jumps[|jumps| - 1];
      assert jumps == init + [last];
      JumpsMembers(b, white, r, c, init, m);
      if m in Jumps(b, white, r, c, jumps) && m !in Jumps(b, white, r, c, init) {
        assert last in jumps;
      }
      if exists o :: o in jumps && OnBoardAt(Offset(r, c, o)) && !IsAlly(At(b, Offset(r, c, o)), white) &&
                     m == NewMove((r, c), Offset(r, c, o), b) {
        var o :| o in jumps && OnBoardAt(Offset(r, c, o)) && !IsAlly(At(b, Offset(r, c, o)), white) &&
                 m == NewMove((r, c), Offset(r, c, o), b);
        if o != last {
          assert o in init;
        }
      }
    }
  }

  /** Every knight jump is one of the eight (1, 2) or (2, 1) displacements. */
  lemma KnightJumpsShape(o: Dir)
    requires o in KnightJumps
    ensures (o.dr * o.dr == 1 && o.dc * o.dc == 4) || (o.dr * o.dr == 4 && o.dc * o.dc == 1)
  {
  }

  // ---------------------------------------------------------------- pawn

  /** The row step of a pawn of the side to move: up the board for white, down for black. */
  function Forward(white: bool): int {
    if white then -1 else 1
  }

  /** The row from which a pawn may advance two squares. */
  function HomeRow(white: bool): int {
    if white then 6 else 1
  }

  /** The row ahead of a pawn on row r exists. The engine reads that row without
      checking: for a white pawn on row 0 it would read row 7 (a negative index
      wraps around), and for a black pawn on row 7 it would fail. */
  predicate HasRowAhead(white: bool, r: int) {
    0 <= r + Forward(white) < 8
  }

  /** The moves a pawn may make, square by square: one step forward onto an empty
      square; two steps forward from its home row when both squares are empty;
      one step diagonally forward onto an enemy piece. */
  predicate PawnMove(b: Board, white: bool, r: int, c: int, m: Move)
    requires IsBoard(b) && OnBoard(r, c) && HasRowAhead(white, r)
  {
    var f := Forward(white);
    || (b[r + f][c] == Empty && m == NewMove((r, c), (r + f, c), b))
    || (r == HomeRow(white) && b[r + f][c] == Empty && b[r + 2 * f][c] == Empty &&
        m == NewMove((r, c), (r + 2 * f, c), b))
    || (c >= 1 && IsEnemy(b[r + f][c - 1], white) && m == NewMove((r, c), (r + f, c - 1), b))
    || (c <= 6 && IsEnemy(b[r + f][c + 1], white) && m == NewMove((r, c), (r + f, c + 1), b))
  }

  /** The pawn's advances: one step onto an empty square and, from its home row,
      a second step when that square is empty too. */
  function PawnAdvances(b: Board, white: bool, r: int, c: int): seq<Move>
    requires IsBoard(b) && OnBoard(r, c) && HasRowAhead(white, r)
  {
    var f := Forward(white);
    if b[r + f][c] == Empty then
      [NewMove((r, c), (r + f, c), b)] +
      (if r == HomeRow(white) && b[r + 2 * f][c] == Empty then [NewMove((r, c), (r + 2 * f, c), b)] else [])
    else []
  }

  /** The pawn's capture one column to the side dc, when that square is on the board and holds an enemy. */
  function PawnCapture(b: Board, white: bool, r: int, c: int, dc: int): seq<Move>
    requires IsBoard(b) && OnBoard(r, c) && HasRowAhead(white, r) && (dc == -1 || dc == 1)
  {
    var f := Forward(white);
    if 0 <= c + dc < 8 && IsEnemy(b[r + f][c + dc], white) then [NewMove((r, c), (r + f, c + dc), b)] else []
  }

  /** The moves the pawn rule appends, in the engine's order: advance, double
      advance, capture to the left, capture to the right. */
  function PawnMoves(b: Board, white: bool, r: int, c: int): (ms: seq<Move>)
    requires IsBoard(b) && OnBoard(r, c) && HasRowAhead(white, r)
    ensures |ms| <= 4
  {
    PawnAdvances(b, white, r, c) + PawnCapture(b, white, r, c, -1) + PawnCapture(b, white, r, c, 1)
  }

  /** A pawn generates exactly the moves its rule allows. */
  lemma PawnMovesMembers(b: Board, white: bool, r: int, c: int, m: Move)
    requires IsBoard(b) && OnBoard(r, c) && HasRowAhead(white, r)
    ensures m in PawnMoves(b, white, r, c) <==> PawnMove(b, white, r, c, m)
  {
  }

  // ---------------------------------------------------------------- a white pawn on row 0

  /** Row i of the board as Python indexes it, for -8 <= i < 8: a negative index counts back from the end. */
  function PyRow(b: Board, i: int): seq<Square>
    requires IsBoard(b) && -8 <= i < 8
  {
    if i < 0 then b[i + 8] else b[i]
  }

  /** The white branch of the pawn generator, as the engine runs it for a pawn on (0, c).
      The engine has no promotion, so a white pawn can get there. The row "ahead" is
      row -1, which Python reads as row 7. Each move the engine builds keeps -1 as its
      end row, and its captured occupant is read from row 7. The double step does not
      apply, because the row is not 6. */
  function LastRowWhitePawnMoves(b: Board, c: int): seq<Move>
    requires IsBoard(b) && 0 <= c < 8
  {
    var ahead := PyRow(b, -1);
    (if ahead[c] == Empty then [Move(0, c, -1, c, b[0][c], ahead[c])] else []) +
    (if c - 1 >= 0 && ahead[c - 1].Piece? && ahead[c - 1].color == Black
     then [Move(0, c, -1, c - 1, b[0][c], ahead[c - 1])] else []) +
    (if c + 1 <= 7 && ahead[c + 1].Piece? && ahead[c + 1].color == Black
     then [Move(0, c, -1, c + 1, b[0][c], ahead[c + 1])] else [])
  }

  /** Every move the engine generates for a white pawn on row 0 ends off the board, on
      row -1, which has no rank in the notation tables. When the square below it on row 7
      is empty, there is such a move. */
  lemma LastRowPawnLeavesBoard(b: Board, c: int)
    requires IsBoard(b) && 0 <= c < 8
    ensures forall m :: m in LastRowWhitePawnMoves(b, c) ==>
              m.startRow == 0 && m.endRow == -1 && !m.InRange() && m.endRow !in RowsToRanks
    ensures b[7][c] == Empty ==> |LastRowWhitePawnMoves(b, c)| >= 1
  {
  }

  // ---------------------------------------------------------------- dispatch

  /** The moves of the piece of the given kind on (r, c); a king has none. */
  function PieceMoves(b: Board, white: bool, kind: Kind, r: int, c: int): (ms: seq<Move>)
    requires IsBoard(b) && OnBoard(r, c) && (kind == Pawn ==> HasRowAhead(white, r))
    ensures kind == Pawn ==> |ms| <= 4
    ensures kind == Knight ==> |ms| <= 8
    ensures kind == Rook || kind == Bishop ==> |ms| <= 28
    ensures |ms| <= 56
  {
    match kind
    case Pawn => PawnMoves(b, white, r, c)
    case Rook => SlideAtMost(b, white, r, c, RookDirections); Slide(b, white, r, c, RookDirections)
    case Knight => JumpsAtMost(b, white, r, c, KnightJumps); Jumps(b, white, r, c, KnightJumps)
    case Bishop => SlideAtMost(b, white, r, c, BishopDirections); Slide(b, white, r, c, BishopDirections)
    case Queen => SlideAtMost(b, white, r, c, QueenDirections); Slide(b, white, r, c, QueenDirections)
    case King => []
  }

  /** Every move a sliding piece generates along unit directions starts on its
      square, ends on another square of the board that holds no ally, and records
      the occupants of both squares. */
  lemma SlideSound(b: Board, white: bool, r: int, c: int, dirs: seq<Dir>, m: Move)
    requires IsBoard(b) && OnBoard(r, c) && forall d :: d in dirs ==> IsUnitDir(d)
    requires m in Slide(b, white, r, c, dirs)
    ensures m.InRange() && m.startRow == r && m.startCol == c
    ensures (m.endRow, m.endCol) != (r, c)
    ensures m.pieceMoved == b[r][c] && m.pieceCaptured == b[m.endRow][m.endCol]
    ensures !IsAlly(b[m.endRow][m.endCol], white)
  {
    SlideMembers(b, white, r, c, dirs, m);
    var d, k :| d in dirs && Reaches(b, white, r, c, d, 1, k) && m == NewMove((r, c), Along(r, c, d, k), b);
    AlongInjective(r, c, d, k, 0);
  }

  /** Every move a knight generates starts on its square, ends on another square
      of the board that holds no ally, and records the occupants of both squares. */
  lemma KnightSound(b: Board, white: bool, r: int, c: int, m: Move)
    requires IsBoard(b) && OnBoard(r, c)
    requires m in Jumps(b, white, r, c, KnightJumps)
    ensures m.InRange() && m.startRow == r && m.startCol == c
    ensures (m.endRow, m.endCol) != (r, c)
    ensures m.pieceMoved == b[r][c] && m.pieceCaptured == b[m.endRow][m.endCol]
    ensures !IsAlly(b[m.endRow][m.endCol], white)
  {
    JumpsMembers(b, white, r, c, KnightJumps, m);
  }

  lemma PawnSound(b: Board, white: bool, r: int, c: int, m: Move)
    requires IsBoard(b) && OnBoard(r, c) && HasRowAhead(white, r)
    requires m in PawnMoves(b, white, r, c)
    ensures m.InRange() && m.startRow == r && m.startCol == c
    ensures (m.endRow, m.endCol) != (r, c)
    ensures m.pieceMoved == b[r][c] && m.pieceCaptured == b[m.endRow][m.endCol]
    ensures !IsAlly(b[m.endRow][m.endCol], white)
  {
    PawnMovesMembers(b, white, r, c, m);
  }

  /** Every move a piece rule generates starts on the piece's square, records the
      board's occupants of its two squares, ends on another square of the board,
      and does not end on an ally. */
  lemma PieceMovesSound(b: Board, white: bool, kind: Kind, r: int, c: int, m: Move)
    requires IsBoard(b) && OnBoard(r, c) && (kind == Pawn ==> HasRowAhead(white, r))
    requires m in PieceMoves(b, white, kind, r, c)
    ensures kind != King
    ensures m.InRange() && m.startRow == r && m.startCol == c
    ensures (m.endRow, m.endCol) != (r, c)
    ensures m.pieceMoved == b[r][c] && m.pieceCaptured == b[m.endRow][m.endCol]
    ensures !IsAlly(b[m.endRow][m.endCol], white)
  {
    match kind
    case Pawn =>
      PawnSound(b, white, r, c, m);
    case Rook =>
      SlideSound(b, white, r, c, RookDirections, m);
    case Knight =>
      KnightSound(b, white, r, c, m);
    case Bishop =>
      SlideSound(b, white, r, c, BishopDirections, m);
    case Queen =>
      SlideSound(b, white, r, c, QueenDirections, m);
  }
}
