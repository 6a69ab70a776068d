/**
 The game board of Five or More: a 9 x 9 grid whose cells are empty or hold
 a ball of one of seven colours, stored row by row (`g[y][x]`), as the
 Python program stores its global `board`.
 */
module Board {

  /** GRID_WIDTH and GRID_HEIGHT. */
  const W: int := 9
  const H: int := 9

  /** BALL_COLORS: red, green, blue, yellow, magenta, turquoise, orange. */
  datatype Color = R | G | B | Y | M | T | O

  const BallColors: seq<Color> := [R, G, B, Y, M, T, O]

  /** A cell is empty (`None` in the source) or holds one ball. */
  datatype Cell = Empty | Ball(color: Color)

  /** A cell coordinate: column `x`, row `y`. */
  datatype Pos = Pos(x: int, y: int)

  type Grid = seq<seq<Cell>>

  predicate IsGrid(g: Grid) {
    |g| == H && forall row :: row in g ==> |row| == W
  }

  predicate InBounds(p: Pos) {
    0 <= p.x < W && 0 <= p.y < H
  }

  function At(g: Grid, p: Pos): Cell
    requires IsGrid(g) && InBounds(p)
  {
    g[p.y][p.x]
  }

  /** An in-bounds cell that holds no ball. */
  predicate Free(g: Grid, p: Pos)
    requires IsGrid(g)
  {
    InBounds(p) && At(g, p) == Empty
  }

  /** Cell `s` comes before row `y`, column `x` in row-by-row order. */
  predicate Before(s: Pos, y: int, x: int) {
    s.y < y || (s.y == y && s.x < x)
  }

  /** Every cell of the board. */
  const AllCells: set<Pos> := set x, y | 0 <= x < W && 0 <= y < H :: Pos(x, y)

  /** The cells that hold a ball. */
  function Pieces(g: Grid): (s: set<Pos>)
    requires IsGrid(g)
    ensures forall p :: p in s <==> InBounds(p) && At(g, p) != Empty
  {
    set p | p in AllCells && InBounds(p) && At(g, p) != Empty
  }

  /** The cells that hold no ball. */
  function EmptyCells(g: Grid): (s: set<Pos>)
    requires IsGrid(g)
    ensures forall p :: p in s <==> Free(g, p)
  {
    set p | p in AllCells && Free(g, p)
  }

  /** The board as the program allocates it: every cell empty. */
  function EmptyGrid(): (g: Grid)
    ensures IsGrid(g)
    ensures forall p :: InBounds(p) ==> At(g, p) == Empty
  {
    seq(H, _ => seq(W, _ => Empty))
  }

  /** `board[p.y][p.x] = c`: the board with one cell replaced. */
  function SetCell(g: Grid, p: Pos, c: Cell): (r: Grid)
    requires IsGrid(g) && InBounds(p)
    ensures IsGrid(r)
    ensures forall q :: InBounds(q) ==> At(r, q) == if q == p then c else At(g, q)
  {
    g[p.y := g[p.y][p.x := c]]
  }

  /** Two boards that agree on every cell are the same board. */
  lemma {:induction false} GridsEqual(g: Grid, h: Grid)
    requires IsGrid(g) && IsGrid(h)
    requires forall p :: InBounds(p) ==> At(g, p) == At(h, p)
    ensures g == h
  {
    forall y | 0 <= y < H
      ensures g[y] == h[y]
    {
      assert g[y] in g && h[y] in h;
      forall x | 0 <= x < W
        ensures g[y][x] == h[y][x]
      {
        assert At(g, Pos(x, y)) == At(h, Pos(x, y));
      }
    }
  }

  /** Placing a ball on a cell adds exactly that cell to the pieces. */
  lemma PiecesAfterPlace(g: Grid, p: Pos, c: Color)
    requires IsGrid(g) && InBounds(p)
    ensures Pieces(SetCell(g, p, Ball(c))) == Pieces(g) + {p}
  {
  }

  /** A subset is no larger than its superset. */
  lemma {:induction false} SubsetCard(a: set<Pos>, b: set<Pos>)
    requires a <= b
    ensures |a| <= |b|
    decreases |a|
  {
    if a != {} {
      var p :| p in a;
      SubsetCard(a - {p}, b - {p});
    }
  }

  function Min(a: int, b: int): int {
    if a <= b then a else b
  }
}
