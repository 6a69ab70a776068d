/**
 The game itself: moving a ball, refilling the board, the game-over test,
 the start of a game and the click-by-click turn. The global `board` and
 `score` of the program and its `selected_ball` become the fields of one
 `Game` object.

 Random choices (`random.randint`, `random.choice`) are nondeterministic
 choices here: the contracts say where balls may land and which colours
 they may take, never which ones are drawn.
 */
module FiveOrMore {
  import opened Board
  import opened Reachability
  import opened Matching

  datatype Option<T> = None | Some(value: T)

  /** perform_move: the board after the ball at `s` moves to `e`. */
  function Moved(g: Grid, s: Pos, e: Pos): (r: Grid)
    requires IsGrid(g) && InBounds(s) && InBounds(e)
    ensures IsGrid(r)
    ensures At(r, s) == Empty
    ensures e != s ==> At(r, e) == At(g, s)
    ensures forall q :: InBounds(q) && q != s && q != e ==> At(r, q) == At(g, q)
  {
    SetCell(SetCell(g, e, At(g, s)), s, Empty)
  }

  /** A move of a ball to an empty cell neither creates nor destroys a ball: it trades its cell for the destination. */
  lemma MovedPieces(g: Grid, s: Pos, e: Pos)
    requires IsGrid(g) && InBounds(s) && At(g, s) != Empty && Free(g, e)
    ensures Pieces(Moved(g, s, e)) == Pieces(g) - {s} + {e}
    ensures |Pieces(Moved(g, s, e))| == |Pieces(g)|
    ensures s in EmptyCells(Moved(g, s, e))
  {
    assert s != e;
    assert Pieces(g) - {s} + {e} == Pieces(Moved(g, s, e));
  }

  /**
   What fill_empty_spots may do to board `before`: balls already on it stay
   as they are, and between one and three of its empty cells (no more than
   there are) receive a ball; none when the board is full.
   */
  ghost predicate Refill(before: Grid, after: Grid)
    requires IsGrid(before)
  {
    && IsGrid(after)
    && (forall p :: InBounds(p) && At(before, p) != Empty ==> At(after, p) == At(before, p))
    && Pieces(before) <= Pieces(after)
    && |Pieces(after) - Pieces(before)| <= Min(3, |EmptyCells(before)|)
    && (EmptyCells(before) != {} ==> Pieces(after) - Pieces(before) != {})
  }

  /** A refill leaves a full board as it is. */
  lemma RefillFull(before: Grid, after: Grid)
    requires IsGrid(before) && Refill(before, after) && EmptyCells(before) == {}
    ensures after == before
  {
    assert Pieces(after) - Pieces(before) == {};
    forall p | InBounds(p)
      ensures At(before, p) == At(after, p)
    {
      assert p !in EmptyCells(before);
    }
    GridsEqual(before, after);
  }

  /** A refill adds between one and three balls to a board with an empty cell. */
  lemma RefillCount(before: Grid, after: Grid)
    requires IsGrid(before) && Refill(before, after) && EmptyCells(before) != {}
    ensures |Pieces(before)| + 1 <= |Pieces(after)| <= |Pieces(before)| + 3
  {
    var added := Pieces(after) - Pieces(before);
    assert Pieces(after) == Pieces(before) + added;
    assert Pieces(before) !! added;
    assert |Pieces(after)| == |Pieces(before)| + |added|;
  }

  /**
   The `empty_spots` list of fill_empty_spots: the empty cells of the board,
   each once, in row-by-row order.
   */
  method EmptySpots(g: Grid) returns (spots: seq<Pos>)
    requires IsGrid(g)
    ensures forall p :: p in spots <==> Free(g, p)
    ensures forall i, j :: 0 <= i < j < |spots| ==> Before(spots[i], spots[j].y, spots[j].x)
  {
    spots := [];
    for y := 0 to H
      invariant forall p :: p in spots <==> Free(g, p) && Before(p, y, 0)
      invariant forall i, j :: 0 <= i < j < |spots| ==> Before(spots[i], spots[j].y, spots[j].x)
    {
      for x := 0 to W
        invariant forall p :: p in spots <==> Free(g, p) && Before(p, y, x)
        invariant forall i, j :: 0 <= i < j < |spots| ==> Before(spots[i], spots[j].y, spots[j].x)
      {
        if g[y][x] == Empty {
          assert forall p :: p in spots ==> Before(p, y, x);
          spots := spots + [Pos(x, y)];
        }
      }
    }
  }

  /** No ball on the board can move anywhere. */
  ghost predicate NoLegalMove(g: Grid)
    requires IsGrid(g)
  {
    forall s, d :: InBounds(s) && At(g, s) != Empty ==> !Reachable(g, s, d)
  }

  /** Every ball is walled in: none of its up/down/left/right neighbours is an empty cell. */
  ghost predicate Blocked(g: Grid)
    requires IsGrid(g)
  {
    forall p, k :: InBounds(p) && At(g, p) != Empty && 0 <= k < 4 ==> !Free(g, Neighbor(p, k))
  }

  /** The game is over exactly when every ball is walled in by balls and edges. */
  lemma GameOverIffBlocked(g: Grid)
    requires IsGrid(g)
    ensures NoLegalMove(g) <==> Blocked(g)
  {
    if !Blocked(g) {
      var p, k :| InBounds(p) && At(g, p) != Empty && 0 <= k < 4 && Free(g, Neighbor(p, k));
      var n := Neighbor(p, k);
      assert IsPath(g, [p, n], p, n);
      assert Reachable(g, p, n);
    }
    if Blocked(g) {
      forall s, d | InBounds(s) && At(g, s) != Empty
        ensures !Reachable(g, s, d)
      {
        BlockedStuck(g, s, d);
      }
    }
  }

  /** A walled-in ball reaches no empty cell. */
  lemma BlockedStuck(g: Grid, s: Pos, d: Pos)
    requires IsGrid(g) && Blocked(g) && InBounds(s) && At(g, s) != Empty
    ensures !Reachable(g, s, d)
  {
    if Reachable(g, s, d) {
      var path :| IsPath(g, path, s, d);
      assert |path| > 1;
      assert Adjacent(path[0], path[1]) && Free(g, path[1]);
      var k := AdjacentDirection(s, path[1]);
    }
  }

  /** A full board, or one without balls, ends the game. */
  lemma FullOrEmptyIsOver(g: Grid)
    requires IsGrid(g) && (EmptyCells(g) == {} || Pieces(g) == {})
    ensures NoLegalMove(g)
  {
    forall p, k | InBounds(p) && At(g, p) != Empty && 0 <= k < 4
      ensures !Free(g, Neighbor(p, k))
    {
      assert p in Pieces(g);
      assert Neighbor(p, k) !in EmptyCells(g);
    }
    GameOverIffBlocked(g);
  }

  /**
   is_game_over: tries every ball against every cell with is_valid_move
   and answers false at the first legal move.
   */
  method IsGameOver(g: Grid) returns (over: bool)
    requires IsGrid(g)
    ensures over <==> NoLegalMove(g)
  {
    for y1 := 0 to H
      invariant forall s, d :: InBounds(s) && At(g, s) != Empty && Before(s, y1, 0) ==> !Reachable(g, s, d)
    {
      for x1 := 0 to W
        invariant forall s, d :: InBounds(s) && At(g, s) != Empty && Before(s, y1, x1) ==> !Reachable(g, s, d)
      {
        if g[y1][x1] != Empty {
          for y2 := 0 to H
            invariant forall d :: Before(d, y2, 0) ==> !Reachable(g, Pos(x1, y1), d)
          {
            for x2 := 0 to W
              invariant forall d :: Before(d, y2, x2) ==> !Reachable(g, Pos(x1, y1), d)
            {
              var ok := IsValidMove(g, x1, y1, x2, y2);
              if ok {
                return false;
              }
            }
          }
          assert forall d :: !Reachable(g, Pos(x1, y1), d);
        }
      }
    }
    return true;
  }

  /**
   One turn after the second click, from board `b0` and score `s0`, with the
   ball at `src` sent to `dst`: an illegal move changes nothing; a legal one
   moves the ball, then clears the lines of five or more and scores them
   when there are any, and otherwise refills the board.
   */
  ghost predicate TurnOutcome(b0: Grid, s0: int, src: Pos, dst: Pos, b1: Grid, s1: int)
    requires IsGrid(b0) && InBounds(src)
  {
    if !Reachable(b0, src, dst) then
      b1 == b0 && s1 == s0
    else
      var m := Moved(b0, src, dst);
      if Lines(m) != {} then
        b1 == Cleared(m, Lines(m)) && s1 == s0 + Bonus(|Lines(m)|)
      else
        Refill(m, b1) && s1 == s0
  }

  /** A legal move followed by the match check, and by a refill when nothing matched, is a turn. */
  lemma LegalTurn(b0: Grid, s0: int, src: Pos, dst: Pos, m: Grid, b1: Grid, s1: int)
    requires IsGrid(b0) && InBounds(src) && Reachable(b0, src, dst)
    requires m == Moved(b0, src, dst)
    requires Lines(m) != {} ==> b1 == Cleared(m, Lines(m)) && s1 == s0 + Bonus(|Lines(m)|)
    requires Lines(m) == {} ==> Refill(m, b1) && s1 == s0
    ensures TurnOutcome(b0, s0, src, dst, b1, s1)
  {
  }

  /**
   What a turn does to the balls on the board: the score never goes down; an
   illegal move keeps the board; a move that makes lines removes at least
   five balls; any other legal move adds one to three balls.
   */
  lemma TurnPieces(b0: Grid, s0: int, src: Pos, dst: Pos, b1: Grid, s1: int)
    requires IsGrid(b0) && InBounds(src) && At(b0, src) != Empty
    requires TurnOutcome(b0, s0, src, dst, b1, s1)
    ensures s1 >= s0
    ensures !Reachable(b0, src, dst) ==> b1 == b0
    ensures Reachable(b0, src, dst) && Lines(Moved(b0, src, dst)) != {} ==>
      IsGrid(b1) && |Pieces(b1)| <= |Pieces(b0)| - 5
    ensures Reachable(b0, src, dst) && Lines(Moved(b0, src, dst)) == {} ==>
      IsGrid(b1) && |Pieces(b0)| + 1 <= |Pieces(b1)| <= |Pieces(b0)| + 3
  {
    if Reachable(b0, src, dst) {
      var m := Moved(b0, src, dst);
      MovedPieces(b0, src, dst);
      if Lines(m) != {} {
        LinesHaveFive(m);
        ClearedPieces(m, Lines(m));
      } else {
        RefillCount(m, b1);
      }
    }
  }

  /** Clearing a set of balls removes exactly those balls. */
  lemma ClearedPieces(g: Grid, matched: set<Pos>)
    requires IsGrid(g) && matched <= Pieces(g)
    ensures Pieces(Cleared(g, matched)) == Pieces(g) - matched
    ensures |Pieces(Cleared(g, matched))| == |Pieces(g)| - |matched|
  {
    var r := Cleared(g, matched);
    assert Pieces(r) == Pieces(g) - matched;
    assert Pieces(g) == Pieces(r) + matched;
  }

  /**
   The state of fill_empty_spots after `n` placements on board `before`:
   balls already there stay, and at most `n` of its empty cells have
   received a ball.
   */
  ghost predicate Filling(before: Grid, b: Grid, n: int)
    requires IsGrid(before)
  {
    && IsGrid(b)
    && (forall p :: InBounds(p) && At(before, p) != Empty ==> At(b, p) == At(before, p))
    && Pieces(before) <= Pieces(b)
    && Pieces(b) - Pieces(before) <= EmptyCells(before)
    && |Pieces(b) - Pieces(before)| <= n
  }

  /** One placement on a cell that was empty at the start keeps the state and fills at least one cell. */
  lemma FillOne(before: Grid, b: Grid, n: int, p: Pos, c: Color)
    requires IsGrid(before) && Filling(before, b, n) && Free(before, p)
    ensures Filling(before, SetCell(b, p, Ball(c)), n + 1)
    ensures Pieces(SetCell(b, p, Ball(c))) - Pieces(before) != {}
  {
    var added := Pieces(b) - Pieces(before);
    PiecesAfterPlace(b, p, c);
    assert Pieces(SetCell(b, p, Ball(c))) - Pieces(before) == added + {p};
  }

  /** After at most three placements, and at least one when there was room, the board is a refill. */
  lemma FillingDone(before: Grid, b: Grid, n: int)
    requires IsGrid(before) && Filling(before, b, n) && n <= 3
    requires EmptyCells(before) != {} ==> Pieces(b) - Pieces(before) != {}
    ensures Refill(before, b)
  {
    SubsetCard(Pieces(b) - Pieces(before), EmptyCells(before));
  }

  /** The running game: the board, the score and the ball picked by the first click, if any. */
  class Game {
    var board: Grid
    var score: int
    var selected: Option<Pos>

    /** The board is 9 x 9, the score is not negative, and a selected ball is a ball on the board. */
    predicate Valid()
      reads this
    {
      && IsGrid(board)
      && score >= 0
      && (selected.Some? ==> InBounds(selected.value) && At(board, selected.value) != Empty)
    }

    /** A new game: an empty board, no score, nothing selected, then initialize_board. */
    constructor ()
      ensures Valid()
      ensures score == 0 && selected == None
      ensures 1 <= |Pieces(board)| <= 3
    {
      board := EmptyGrid();
      score := 0;
      selected := None;
      new;
      assert Pieces(board) == {};
      ghost var placed := InitializeBoard();
    }

    /**
     initialize_board: three times, a ball of some colour is put on some
     cell, possibly on one already used. `placed` is the set of cells
     written: one to three cells, each now holding a ball; every other cell
     is as it was.
     */
    method InitializeBoard() returns (ghost placed: set<Pos>)
      requires IsGrid(board)
      modifies this`board
      ensures IsGrid(board)
      ensures 1 <= |placed| <= 3
      ensures forall p :: p in placed ==> InBounds(p) && At(board, p).Ball?
      ensures forall p :: InBounds(p) && p !in placed ==> At(board, p) == At(old(board), p)
      ensures Pieces(old(board)) <= Pieces(board)
      ensures Pieces(board) != {}
      ensures |Pieces(board) - Pieces(old(board))| <= 3
    {
      ghost var before := board;
      placed := {};
      for i := 0 to 3
        invariant IsGrid(board)
        invariant |placed| <= i && (i > 0 ==> placed != {})
        invariant forall p :: p in placed ==> InBounds(p) && At(board, p).Ball?
        invariant forall p :: InBounds(p) && p !in placed ==> At(board, p) == At(before, p)
        invariant Pieces(before) <= Pieces(board)
        invariant i > 0 ==> Pieces(board) != {}
        invariant |Pieces(board) - Pieces(before)| <= i
      {
        var x :| 0 <= x < W;
        var y :| 0 <= y < H;
        var c :| c in BallColors;
        ghost var added := Pieces(board) - Pieces(before);
        PiecesAfterPlace(board, Pos(x, y), c);
        board := SetCell(board, Pos(x, y), Ball(c));
        placed := placed + {Pos(x, y)};
        SubsetCard(Pieces(board) - Pieces(before), added + {Pos(x, y)});
      }
    }

    /** perform_move: the ball at (sx, sy) goes to (ex, ey), which the caller has found free. */
    method PerformMove(sx: int, sy: int, ex: int, ey: int)
      requires IsGrid(board) && InBounds(Pos(sx, sy)) && InBounds(Pos(ex, ey))
      modifies this`board
      ensures board == Moved(old(board), Pos(sx, sy), Pos(ex, ey))
    {
      board := SetCell(board, Pos(ex, ey), board[sy][sx]);
      board := SetCell(board, Pos(sx, sy), Empty);
    }

    /**
     check_matches: finds the balls lying in lines of five or more, scores
     their number, empties their cells, and reports whether there were any.
     */
    method CheckMatches() returns (found: bool)
      requires IsGrid(board)
      modifies this`board, this`score
      ensures board == Cleared(old(board), Lines(old(board)))
      ensures score == old(score) + Bonus(|Lines(old(board))|)
      ensures found <==> Lines(old(board)) != {}
      ensures !found ==> board == old(board) && score == old(score)
    {
      ghost var before := board;
      var matched := FindMatches(board);
      if matched != {} {
        var n := |matched|;
        score := score + Bonus(n);
        RemoveMatched(matched);
        LinesHaveFive(before);
      } else {
        GridsEqual(board, Cleared(board, {}));
      }
      found := |matched| >= MinBallsToRemove;
    }

    /** The clearing loop of check_matches: every cell of `matched`, in any order, is emptied. */
    method RemoveMatched(matched: set<Pos>)
      requires IsGrid(board) && forall p :: p in matched ==> InBounds(p)
      modifies this`board
      ensures board == Cleared(old(board), matched)
    {
      var rest := matched;
      while rest != {}
        invariant IsGrid(board) && rest <= matched
        invariant forall q :: InBounds(q) ==> At(board, q) == if q in matched - rest then Empty else At(old(board), q)
        decreases rest
      {
        var p :| p in rest;
        board := SetCell(board, p, Empty);
        rest := rest - {p};
      }
      GridsEqual(board, Cleared(old(board), matched));
    }

    /**
     fill_empty_spots: lists the empty cells once, then up to three times
     (no more than there are empty cells) puts a ball of some colour on a
     cell drawn from that list, possibly the same cell again.
     */
    method FillEmptySpots()
      requires IsGrid(board)
      modifies this`board
      ensures Refill(old(board), board)
    {
      ghost var before := board;
      var spots := EmptySpots(board);
      for i := 0 to Min(3, |spots|)
        invariant Filling(before, board, i)
        invariant i > 0 ==> Pieces(board) - Pieces(before) != {}
      {
        if |spots| > 0 {
          var j :| 0 <= j < |spots|;
          var c :| c in BallColors;
          assert spots[j] in spots;
          FillOne(before, board, i, spots[j], c);
          board := SetCell(board, spots[j], Ball(c));
        }
      }
      if EmptyCells(before) != {} {
        var p :| p in EmptyCells(before);
        assert p in spots;
      }
      FillingDone(before, board, Min(3, |spots|));
    }

    /**
     The second click's turn: when is_valid_move allows the move, the ball
     moves and check_matches runs, and fill_empty_spots runs only when it
     found nothing.
     */
    method Play(sx: int, sy: int, ex: int, ey: int)
      requires IsGrid(board) && InBounds(Pos(sx, sy)) && score >= 0
      modifies this`board, this`score
      ensures IsGrid(board) && score >= 0
      ensures TurnOutcome(old(board), old(score), Pos(sx, sy), Pos(ex, ey), board, score)
    {
      ghost var b0, s0 := board, score;
      var ok := IsValidMove(board, sx, sy, ex, ey);
      if ok {
        PerformMove(sx, sy, ex, ey);
        ghost var m := board;
        var found := CheckMatches();
        if !found {
          FillEmptySpots();
        }
        LegalTurn(b0, s0, Pos(sx, sy), Pos(ex, ey), m, board, score);
      }
    }

    /**
     A left click on cell (gx, gy) of the board. Outside the board it does
     nothing. With nothing selected it selects the ball there, if any. With
     a ball selected it plays the turn to that cell and clears the selection.
     */
    method Click(gx: int, gy: int)
      requires Valid()
      modifies this
      ensures Valid()
      ensures !InBounds(Pos(gx, gy)) ==> board == old(board) && score == old(score) && selected == old(selected)
      ensures InBounds(Pos(gx, gy)) && old(selected).None? ==>
        && board == old(board) && score == old(score)
        && selected == (if At(board, Pos(gx, gy)) != Empty then Some(Pos(gx, gy)) else None)
      ensures InBounds(Pos(gx, gy)) && old(selected).Some? ==>
        && selected == None
        && TurnOutcome(old(board), old(score), old(selected).value, Pos(gx, gy), board, score)
    {
      if 0 <= gx < W && 0 <= gy < H {
        if selected.None? {
          if board[gy][gx] != Empty {
            selected := Some(Pos(gx, gy));
          }
        } else {
          var start := selected.value;
          Play(start.x, start.y, gx, gy);
          selected := None;
        }
      }
    }
  }
}
