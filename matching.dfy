/**
 Match detection and scoring (`check_matches` and its inner `dfs` and
 `is_valid_match`, with `SCORE_MAP`).

 The scan visits every ball and, for each of four directions, counts the
 balls of its colour forward and then backward with one shared `visited`
 set. The backward count starts on the centre cell, which the forward
 count has already visited, so it is always 0 and the computed length is
 the forward run minus one. With the threshold `length >= 4` a start cell
 therefore contributes exactly when five or more balls of its colour run
 forward from it, and over all start cells the matched set is exactly the
 set of balls lying in a line of five or more (`ScanFindsLines`).
 */
module Matching {
  import opened Board

  /** MIN_BALLS_TO_REMOVE. */
  const MinBallsToRemove: int := 4

  /** The scan's (dy, dx) directions: right, down, down-right, down-left. */
  const MatchDirections: seq<(int, int)> := [(0, 1), (1, 0), (1, 1), (1, -1)]

  /** SCORE_MAP: points for the number of balls removed at once. */
  const ScoreMap: map<int, nat> := map[5 := 10, 6 := 12, 7 := 18, 8 := 28, 9 := 42]

  /** `SCORE_MAP.get(n, 0)`: only removals of 5 to 9 balls earn points. */
  function Bonus(n: int): (r: nat)
    ensures 5 <= n <= 9 ==> r >= 10
    ensures !(5 <= n <= 9) ==> r == 0
  {
    if n in ScoreMap then ScoreMap[n] else 0
  }

  predicate UnitDir(dy: int, dx: int) {
    -1 <= dy <= 1 && -1 <= dx <= 1 && (dy != 0 || dx != 0)
  }

  function Step(p: Pos, dy: int, dx: int): Pos {
    Pos(p.x + dx, p.y + dy)
  }

  /** How many steps along (dy, dx) remain before a walk from `p` leaves the board. */
  function Span(p: Pos, dy: int, dx: int): int {
    (if dy == 1 then H - p.y else if dy == -1 then p.y + 1 else 0) +
    (if dx == 1 then W - p.x else if dx == -1 then p.x + 1 else 0)
  }

  /** The number of consecutive balls of colour `c` starting at `p` and going along (dy, dx). */
  function Run(g: Grid, p: Pos, c: Color, dy: int, dx: int): nat
    requires IsGrid(g) && UnitDir(dy, dx)
    decreases Span(p, dy, dx)
  {
    if InBounds(p) && At(g, p) == Ball(c) then 1 + Run(g, Step(p, dy, dx), c, dy, dx) else 0
  }

  /** The cells of that run. */
  function RunCells(g: Grid, p: Pos, c: Color, dy: int, dx: int): set<Pos>
    requires IsGrid(g) && UnitDir(dy, dx)
    decreases Span(p, dy, dx)
  {
    if InBounds(p) && At(g, p) == Ball(c) then {p} + RunCells(g, Step(p, dy, dx), c, dy, dx) else {}
  }

  /** A run holds only balls of its colour, none of them farther from the edge it heads for than its start. */
  lemma {:induction false} RunCellsWithin(g: Grid, p: Pos, c: Color, dy: int, dx: int, q: Pos)
    requires IsGrid(g) && UnitDir(dy, dx)
    requires q in RunCells(g, p, c, dy, dx)
    ensures InBounds(q) && At(g, q) == Ball(c) && Span(q, dy, dx) <= Span(p, dy, dx)
    decreases Span(p, dy, dx)
  {
    if q != p {
      RunCellsWithin(g, Step(p, dy, dx), c, dy, dx, q);
    }
  }

  /** A run's first ball is not met again further along it. */
  lemma RunCellsStartOnce(g: Grid, p: Pos, c: Color, dy: int, dx: int)
    requires IsGrid(g) && UnitDir(dy, dx) && InBounds(p)
    ensures p !in RunCells(g, Step(p, dy, dx), c, dy, dx)
  {
    if p in RunCells(g, Step(p, dy, dx), c, dy, dx) {
      RunCellsWithin(g, Step(p, dy, dx), c, dy, dx, p);
    }
  }

  /** The run's cells are as many as its length. */
  lemma {:induction false} RunCellsCount(g: Grid, p: Pos, c: Color, dy: int, dx: int)
    requires IsGrid(g) && UnitDir(dy, dx)
    ensures |RunCells(g, p, c, dy, dx)| == Run(g, p, c, dy, dx)
    decreases Span(p, dy, dx)
  {
    if InBounds(p) && At(g, p) == Ball(c) {
      RunCellsCount(g, Step(p, dy, dx), c, dy, dx);
      RunCellsStartOnce(g, p, c, dy, dx);
    }
  }

  /** A run that starts on a ball of its colour is that ball followed by the run from the next cell. */
  lemma RunCellsFirst(g: Grid, p: Pos, c: Color, dy: int, dx: int)
    requires IsGrid(g) && UnitDir(dy, dx) && InBounds(p) && At(g, p) == Ball(c)
    ensures RunCells(g, p, c, dy, dx) == {p} + RunCells(g, Step(p, dy, dx), c, dy, dx)
    ensures p !in RunCells(g, Step(p, dy, dx), c, dy, dx)
    ensures Run(g, p, c, dy, dx) == 1 + Run(g, Step(p, dy, dx), c, dy, dx)
  {
    RunCellsStartOnce(g, p, c, dy, dx);
  }

  /**
   What a `dfs` call from `p` with marks `visited` achieves when no cell of
   the run from `p` is marked yet: it counts the run and marks exactly its
   cells.
   */
  predicate Counted(g: Grid, p: Pos, c: Color, dy: int, dx: int, visited: set<Pos>, n: int, seen: set<Pos>)
    requires IsGrid(g) && UnitDir(dy, dx)
  {
    visited !! RunCells(g, p, c, dy, dx) ==> n == Run(g, p, c, dy, dx) && seen == visited + RunCells(g, p, c, dy, dx)
  }

  /**
   The counting step of `dfs` on a ball of the run's colour: when the call
   on the next cell, with this one marked, counted and marked the rest of
   the run, this cell's count and marks are those of the whole run.
   */
  lemma DfsCount(g: Grid, p: Pos, c: Color, dy: int, dx: int, visited: set<Pos>, rest: int, seen: set<Pos>)
    requires IsGrid(g) && UnitDir(dy, dx) && InBounds(p) && At(g, p) == Ball(c)
    requires Counted(g, Step(p, dy, dx), c, dy, dx, visited + {p}, rest, seen)
    ensures Counted(g, p, c, dy, dx, visited, 1 + rest, seen)
  {
    RunCellsFirst(g, p, c, dy, dx);
  }

  /** `dfs` stops at a marked cell, an off-board cell or a cell not holding a ball of the run's colour. */
  lemma DfsStop(g: Grid, p: Pos, c: Color, dy: int, dx: int, visited: set<Pos>)
    requires IsGrid(g) && UnitDir(dy, dx)
    requires p in visited || !InBounds(p) || At(g, p) != Ball(c)
    ensures Counted(g, p, c, dy, dx, visited, 0, visited)
  {
    if InBounds(p) && At(g, p) == Ball(c) {
      assert p in RunCells(g, p, c, dy, dx);
    }
  }

  /**
   dfs(y, x, color, visited, dy, dx): 0 on a visited or off-board cell or
   one of another colour; otherwise marks the cell visited and counts it
   plus the rest of the run. Started on a visited cell it counts nothing;
   started with nothing visited on its path it counts the run and marks
   exactly its cells.
   */
  method Dfs(g: Grid, y: int, x: int, color: Color, visited: set<Pos>, dy: int, dx: int)
    returns (n: nat, seen: set<Pos>)
    requires IsGrid(g) && UnitDir(dy, dx)
    ensures Pos(x, y) in visited ==> n == 0 && seen == visited
    ensures Counted(g, Pos(x, y), color, dy, dx, visited, n, seen)
    decreases Span(Pos(x, y), dy, dx)
  {
    if Pos(x, y) in visited || !(0 <= y < H && 0 <= x < W) {
      DfsStop(g, Pos(x, y), color, dy, dx, visited);
      return 0, visited;
    }
    if At(g, Pos(x, y)) != Ball(color) {
      DfsStop(g, Pos(x, y), color, dy, dx, visited);
      return 0, visited;
    }
    var rest;
    rest, seen := Dfs(g, y + dy, x + dx, color, visited + {Pos(x, y)}, dy, dx);
    DfsCount(g, Pos(x, y), color, dy, dx, visited, rest, seen);
    n := 1 + rest;
  }

  /** is_valid_match. */
  predicate IsValidMatch(length: int) {
    length >= MinBallsToRemove
  }

  lemma MatchDirectionsAreUnit(k: int)
    requires 0 <= k < 4
    ensures UnitDir(MatchDirections[k].0, MatchDirections[k].1)
    ensures UnitDir(-MatchDirections[k].0, -MatchDirections[k].1)
  {
  }

  /**
   The cells the scan adds to `matched_positions` for start cell `s` and
   direction number `k`: the forward run from `s` when its length minus one
   (the backward count being 0) passes `is_valid_match`.
   */
  function Hits(g: Grid, s: Pos, k: int): set<Pos>
    requires IsGrid(g) && 0 <= k < 4
  {
    MatchDirectionsAreUnit(k);
    if InBounds(s) && At(g, s).Ball? then
      var dy, dx, c := MatchDirections[k].0, MatchDirections[k].1, At(g, s).color;
      if IsValidMatch(Run(g, s, c, dy, dx) - 1) then RunCells(g, s, c, dy, dx) else {}
    else
      {}
  }

  /**
   `is_valid_match` applied to the length the scan computes (the forward run
   minus one): a start ball contributes in a direction exactly when five or
   more balls of its colour run forward from it, and then it contributes
   that whole run, five cells or more. A run of four is never accepted.
   */
  lemma ValidMatchNeedsFive(g: Grid, s: Pos, k: int)
    requires IsGrid(g) && 0 <= k < 4 && InBounds(s) && At(g, s).Ball?
    ensures var dy, dx, c := MatchDirections[k].0, MatchDirections[k].1, At(g, s).color;
      (Hits(g, s, k) != {} <==> Run(g, s, c, dy, dx) >= 5) &&
      (Hits(g, s, k) != {} ==> Hits(g, s, k) == RunCells(g, s, c, dy, dx) && |Hits(g, s, k)| >= 5)
  {
    MatchDirectionsAreUnit(k);
    RunCellsCount(g, s, At(g, s).color, MatchDirections[k].0, MatchDirections[k].1);
  }

  /** The cells added for start cell `s` in its first `k` directions. */
  function DirHits(g: Grid, s: Pos, k: int): set<Pos>
    requires IsGrid(g) && 0 <= k <= 4
  {
    if k == 0 then {} else DirHits(g, s, k - 1) + Hits(g, s, k - 1)
  }

  /**
   The union of `f(s)` over the start cells `s` the scan has passed once it
   has finished rows 0 to y - 1 and cells 0 to x - 1 of row y.
   */
  function Scanned(f: Pos -> set<Pos>, y: int, x: int): set<Pos> {
    set s, q | s in AllCells && Before(s, y, x) && q in f(s) :: q
  }

  /** The cells added for one start cell over all four directions. */
  function StartHits(g: Grid): Pos -> set<Pos>
    requires IsGrid(g)
  {
    s => DirHits(g, s, 4)
  }

  /**
   The length of the maximal line of same-coloured balls through the ball
   at `q` in direction number `k`: forward plus backward, the centre once.
   */
  function LineLength(g: Grid, q: Pos, k: int): int
    requires IsGrid(g) && InBounds(q) && At(g, q).Ball? && 0 <= k < 4
  {
    MatchDirectionsAreUnit(k);
    var dy, dx, c := MatchDirections[k].0, MatchDirections[k].1, At(g, q).color;
    Run(g, q, c, dy, dx) + Run(g, q, c, -dy, -dx) - 1
  }

  /** The ball at `q` lies in a line of five or more of its colour in one of the four directions. */
  predicate InLineOfFive(g: Grid, q: Pos)
    requires IsGrid(g)
  {
    InBounds(q) && At(g, q).Ball? && exists k :: 0 <= k < 4 && LineLength(g, q, k) >= 5
  }

  /** Every ball that lies in a line of five or more. */
  function Lines(g: Grid): (s: set<Pos>)
    requires IsGrid(g)
    ensures forall q :: q in s <==> InLineOfFive(g, q)
  {
    set q | q in AllCells && InLineOfFive(g, q)
  }

  /** Neighbouring balls of one colour on one axis lie on lines of the same length. */
  lemma TotalStep(g: Grid, s: Pos, c: Color, dy: int, dx: int)
    requires IsGrid(g) && UnitDir(dy, dx)
    requires InBounds(s) && At(g, s) == Ball(c)
    requires InBounds(Step(s, dy, dx)) && At(g, Step(s, dy, dx)) == Ball(c)
    ensures Run(g, s, c, dy, dx) + Run(g, s, c, -dy, -dx)
         == Run(g, Step(s, dy, dx), c, dy, dx) + Run(g, Step(s, dy, dx), c, -dy, -dx)
  {
    assert Step(Step(s, dy, dx), -dy, -dx) == s;
  }

  /** Every ball of a run lies on a line as long as the one through the run's first ball. */
  lemma {:induction false} TotalAlongRun(g: Grid, s: Pos, q: Pos, c: Color, dy: int, dx: int)
    requires IsGrid(g) && UnitDir(dy, dx)
    requires q in RunCells(g, s, c, dy, dx)
    ensures Run(g, q, c, dy, dx) + Run(g, q, c, -dy, -dx) == Run(g, s, c, dy, dx) + Run(g, s, c, -dy, -dx)
    decreases Span(s, dy, dx)
  {
    if q != s {
      var next := Step(s, dy, dx);
      assert q in RunCells(g, next, c, dy, dx);
      TotalAlongRun(g, next, q, c, dy, dx);
      TotalStep(g, s, c, dy, dx);
    }
  }

  /** A run that reaches `r` also takes in the next cell when that holds a ball of the run's colour. */
  lemma {:induction false} RunCellsExtend(g: Grid, s: Pos, r: Pos, c: Color, dy: int, dx: int)
    requires IsGrid(g) && UnitDir(dy, dx)
    requires r in RunCells(g, s, c, dy, dx)
    requires InBounds(Step(r, dy, dx)) && At(g, Step(r, dy, dx)) == Ball(c)
    ensures Step(r, dy, dx) in RunCells(g, s, c, dy, dx)
    decreases Span(s, dy, dx)
  {
    var next := Step(s, dy, dx);
    if r == s {
      assert Step(r, dy, dx) in RunCells(g, next, c, dy, dx);
    } else {
      RunCellsExtend(g, next, r, c, dy, dx);
    }
  }

  /**
   Walking back from a ball to the first ball of its line gives a start
   cell whose forward run covers the whole line, the ball included.
   */
  lemma {:induction false} RunStart(g: Grid, q: Pos, c: Color, dy: int, dx: int) returns (s: Pos)
    requires IsGrid(g) && UnitDir(dy, dx)
    requires InBounds(q) && At(g, q) == Ball(c)
    ensures InBounds(s) && At(g, s) == Ball(c)
    ensures q in RunCells(g, s, c, dy, dx)
    ensures Run(g, s, c, dy, dx) == Run(g, q, c, dy, dx) + Run(g, q, c, -dy, -dx) - 1
    decreases Span(q, -dy, -dx)
  {
    var back := Step(q, -dy, -dx);
    if InBounds(back) && At(g, back) == Ball(c) {
      assert Step(back, dy, dx) == q;
      s := RunStart(g, back, c, dy, dx);
      TotalStep(g, back, c, dy, dx);
      RunCellsExtend(g, s, back, c, dy, dx);
    } else {
      s := q;
    }
  }

  /** Every ball of a run of five or more lies on a line of five or more. */
  lemma RunOfFive(g: Grid, s: Pos, c: Color, dy: int, dx: int, q: Pos)
    requires IsGrid(g) && UnitDir(dy, dx)
    requires Run(g, s, c, dy, dx) >= 5 && q in RunCells(g, s, c, dy, dx)
    ensures InBounds(q) && At(g, q) == Ball(c)
    ensures Run(g, q, c, dy, dx) + Run(g, q, c, -dy, -dx) - 1 >= 5
  {
    RunCellsWithin(g, s, c, dy, dx, q);
    TotalAlongRun(g, s, q, c, dy, dx);
    assert Run(g, s, c, -dy, -dx) >= 1;
  }

  /** Every cell a scan step adds lies in a line of five or more. */
  lemma HitsInLine(g: Grid, s: Pos, k: int, q: Pos)
    requires IsGrid(g) && 0 <= k < 4
    requires q in Hits(g, s, k)
    ensures InLineOfFive(g, q)
  {
    MatchDirectionsAreUnit(k);
    var dy, dx, c := MatchDirections[k].0, MatchDirections[k].1, At(g, s).color;
    RunOfFive(g, s, c, dy, dx, q);
    assert LineLength(g, q, k) >= 5;
  }

  /** Every ball in a line of five or more is added by the scan step at the line's first ball. */
  lemma LineHit(g: Grid, q: Pos, k: int) returns (s: Pos)
    requires IsGrid(g) && InBounds(q) && At(g, q).Ball? && 0 <= k < 4
    requires LineLength(g, q, k) >= 5
    ensures InBounds(s) && q in Hits(g, s, k)
  {
    MatchDirectionsAreUnit(k);
    var dy, dx, c := MatchDirections[k].0, MatchDirections[k].1, At(g, q).color;
    s := RunStart(g, q, c, dy, dx);
  }

  lemma {:induction false} DirHitsSound(g: Grid, s: Pos, j: int, q: Pos) returns (k: int)
    requires IsGrid(g) && 0 <= j <= 4 && q in DirHits(g, s, j)
    ensures 0 <= k < j && q in Hits(g, s, k)
  {
    if q in Hits(g, s, j - 1) {
      k := j - 1;
    } else {
      k := DirHitsSound(g, s, j - 1, q);
    }
  }

  lemma {:induction false} DirHitsComplete(g: Grid, s: Pos, j: int, k: int)
    requires IsGrid(g) && 0 <= k < j <= 4
    ensures Hits(g, s, k) <= DirHits(g, s, j)
  {
    if k < j - 1 {
      DirHitsComplete(g, s, j - 1, k);
    }
  }

  /** The scan passes one more cell of a row. */
  lemma ScannedNext(f: Pos -> set<Pos>, y: int, x: int)
    requires 0 <= y < H && 0 <= x < W
    ensures Scanned(f, y, x + 1) == Scanned(f, y, x) + f(Pos(x, y))
  {
    assert Pos(x, y) in AllCells;
  }

  /** Finishing a row is starting the next one. */
  lemma ScannedRow(f: Pos -> set<Pos>, y: int)
    ensures Scanned(f, y + 1, 0) == Scanned(f, y, W)
  {
    forall q | q in Scanned(f, y + 1, 0)
      ensures q in Scanned(f, y, W)
    {
      var s :| s in AllCells && Before(s, y + 1, 0) && q in f(s);
      assert Before(s, y, W);
    }
  }

  /** Every cell of the full union comes from a start cell on the board. */
  lemma ScannedSound(f: Pos -> set<Pos>, q: Pos) returns (s: Pos)
    requires q in Scanned(f, H, 0)
    ensures InBounds(s) && q in f(s)
  {
    s :| s in AllCells && Before(s, H, 0) && q in f(s);
  }

  /** The full scan misses no start cell. */
  lemma ScannedComplete(f: Pos -> set<Pos>, s: Pos)
    requires InBounds(s)
    ensures f(s) <= Scanned(f, H, 0)
  {
    assert s == Pos(s.x, s.y);
    assert s in AllCells;
  }

  /** The whole scan adds exactly the balls that lie in a line of five or more. */
  lemma ScanFindsLines(g: Grid)
    requires IsGrid(g)
    ensures Scanned(StartHits(g), H, 0) == Lines(g)
  {
    forall q | q in Scanned(StartHits(g), H, 0)
      ensures q in Lines(g)
    {
      var s := ScannedSound(StartHits(g), q);
      var k := DirHitsSound(g, s, 4, q);
      HitsInLine(g, s, k, q);
    }
    forall q | q in Lines(g)
      ensures q in Scanned(StartHits(g), H, 0)
    {
      var k :| 0 <= k < 4 && LineLength(g, q, k) >= 5;
      var s := LineHit(g, q, k);
      DirHitsComplete(g, s, 4, k);
      ScannedComplete(StartHits(g), s);
    }
  }

  /** Balls are only ever removed five or more at a time. */
  lemma LinesHaveFive(g: Grid)
    requires IsGrid(g) && Lines(g) != {}
    ensures |Lines(g)| >= 5
  {
    var q :| q in Lines(g);
    var k :| 0 <= k < 4 && LineLength(g, q, k) >= 5;
    var s := LineHit(g, q, k);
    MatchDirectionsAreUnit(k);
    RunCellsCount(g, s, At(g, s).color, MatchDirections[k].0, MatchDirections[k].1);
    assert |Hits(g, s, k)| >= 5;
    forall r | r in Hits(g, s, k)
      ensures r in Lines(g)
    {
      HitsInLine(g, s, k, r);
    }
    SubsetCard(Hits(g, s, k), Lines(g));
  }

  /**
   One direction at one ball: a forward and a backward `dfs` sharing one
   visited set; the visited cells count when the length passes
   `is_valid_match`, and nothing counts otherwise.
   */
  method CheckDirection(g: Grid, y: int, x: int, color: Color, k: int) returns (found: set<Pos>)
    requires IsGrid(g) && 0 <= y < H && 0 <= x < W && g[y][x] == Ball(color) && 0 <= k < 4
    ensures found == Hits(g, Pos(x, y), k)
  {
    MatchDirectionsAreUnit(k);
    var dy, dx := MatchDirections[k].0, MatchDirections[k].1;
    var forward, visited := Dfs(g, y, x, color, {}, dy, dx);
    assert Pos(x, y) in visited;
    var backward;
    backward, visited := Dfs(g, y, x, color, visited, -dy, -dx);
    var length := forward + backward - 1;
    found := if IsValidMatch(length) then visited else {};
  }

  /**
   The scan of `check_matches`: every ball, four directions each, a forward
   and a backward `dfs` sharing one visited set, and the visited cells added
   to the matched set when the length passes `is_valid_match`.
   */
  method FindMatches(g: Grid) returns (matched: set<Pos>)
    requires IsGrid(g)
    ensures matched == Lines(g)
  {
    matched := {};
    for y := 0 to H
      invariant matched == Scanned(StartHits(g), y, 0)
    {
      for x := 0 to W
        invariant matched == Scanned(StartHits(g), y, x)
      {
        if g[y][x] != Empty {
          var color := g[y][x].color;
          for k := 0 to 4
            invariant matched == Scanned(StartHits(g), y, x) + DirHits(g, Pos(x, y), k)
          {
            var found := CheckDirection(g, y, x, color, k);
            matched := matched + found;
          }
        } else {
          NoHitsAtEmpty(g, Pos(x, y), 4);
        }
        ScannedNext(StartHits(g), y, x);
      }
      ScannedRow(StartHits(g), y);
    }
    ScanFindsLines(g);
  }

  lemma {:induction false} NoHitsAtEmpty(g: Grid, s: Pos, k: int)
    requires IsGrid(g) && InBounds(s) && At(g, s) == Empty && 0 <= k <= 4
    ensures DirHits(g, s, k) == {}
  {
    if k > 0 {
      NoHitsAtEmpty(g, s, k - 1);
    }
  }

  /** The board with every cell of `matched` emptied and every other cell unchanged. */
  function Cleared(g: Grid, matched: set<Pos>): (r: Grid)
    requires IsGrid(g)
    ensures IsGrid(r)
    ensures forall q :: InBounds(q) ==> At(r, q) == if q in matched then Empty else At(g, q)
  {
    seq(H, y requires 0 <= y < H => seq(W, x requires 0 <= x < W => if Pos(x, y) in matched then Empty else g[y][x]))
  }
}
