/**
 Move legality: a ball may travel from its cell to an empty destination
 through a chain of up/down/left/right steps over empty cells
 (`is_valid_move`, a breadth-first search).
 */
module Reachability {
  import opened Board

  /** The four (dx, dy) steps the search explores: right, left, down, up. */
  const Directions: seq<(int, int)> := [(1, 0), (-1, 0), (0, 1), (0, -1)]

  function Neighbor(p: Pos, k: int): Pos
    requires 0 <= k < 4
  {
    Pos(p.x + Directions[k].0, p.y + Directions[k].1)
  }

  /** Orthogonal neighbours: one coordinate equal, the other one apart. */
  predicate Adjacent(p: Pos, q: Pos) {
    || (p.y == q.y && (q.x == p.x + 1 || q.x == p.x - 1))
    || (p.x == q.x && (q.y == p.y + 1 || q.y == p.y - 1))
  }

  /**
   A route for a ball leaving `src`: consecutive cells are orthogonal
   neighbours and every cell after the first is in bounds and empty.
   */
  ghost predicate IsPath(g: Grid, path: seq<Pos>, src: Pos, dst: Pos)
    requires IsGrid(g)
  {
    && |path| > 0
    && path[0] == src
    && path[|path| - 1] == dst
    && forall i :: 0 < i < |path| ==> Adjacent(path[i - 1], path[i]) && Free(g, path[i])
  }

  ghost predicate Connected(g: Grid, src: Pos, dst: Pos)
    requires IsGrid(g)
  {
    exists path :: IsPath(g, path, src, dst)
  }

  /** A move from `src` to `dst` is legal: `dst` is an empty cell that a route reaches. */
  ghost predicate Reachable(g: Grid, src: Pos, dst: Pos)
    requires IsGrid(g)
  {
    Free(g, dst) && Connected(g, src, dst)
  }

  /** No cell of `visited` has an empty neighbour outside `visited`. */
  ghost predicate Closed(g: Grid, visited: set<Pos>)
    requires IsGrid(g)
  {
    forall v, k :: v in visited && 0 <= k < 4 && Free(g, Neighbor(v, k)) ==> Neighbor(v, k) in visited
  }

  /** Every orthogonal neighbour is one of the four search steps. */
  lemma AdjacentDirection(p: Pos, q: Pos) returns (k: int)
    requires Adjacent(p, q)
    ensures 0 <= k < 4 && q == Neighbor(p, k)
  {
    if q.x == p.x + 1 {
      k := 0;
    } else if q.x == p.x - 1 {
      k := 1;
    } else if q.y == p.y + 1 {
      k := 2;
    } else {
      k := 3;
    }
  }

  /** A set that holds `src` and is closed under empty neighbours holds every cell a route reaches. */
  lemma {:induction false} ClosedContainsPath(g: Grid, visited: set<Pos>, path: seq<Pos>, src: Pos, dst: Pos)
    requires IsGrid(g) && IsPath(g, path, src, dst)
    requires src in visited && Closed(g, visited)
    ensures dst in visited
    decreases |path|
  {
    if |path| > 1 {
      var prefix := path[..|path| - 1];
      var mid := prefix[|prefix| - 1];
      assert IsPath(g, prefix, src, mid) by {
        forall i | 0 < i < |prefix|
          ensures Adjacent(prefix[i - 1], prefix[i]) && Free(g, prefix[i])
        {
          assert prefix[i - 1] == path[i - 1] && prefix[i] == path[i];
        }
      }
      ClosedContainsPath(g, visited, prefix, src, mid);
      assert Adjacent(path[|path| - 2], path[|path| - 1]) && Free(g, path[|path| - 1]);
      var k := AdjacentDirection(mid, dst);
      assert Free(g, Neighbor(mid, k));
    }
  }

  /** A set that holds `src` and is closed under empty neighbours holds every cell connected to `src`. */
  lemma ClosedContainsConnected(g: Grid, visited: set<Pos>, src: Pos)
    requires IsGrid(g) && src in visited && Closed(g, visited)
    ensures forall dst :: Connected(g, src, dst) ==> dst in visited
  {
    forall dst | Connected(g, src, dst)
      ensures dst in visited
    {
      var path :| IsPath(g, path, src, dst);
      ClosedContainsPath(g, visited, path, src, dst);
    }
  }

  /** A route to `p` followed by one step to an empty neighbour is a route to that neighbour. */
  lemma {:induction false} ExtendPath(g: Grid, path: seq<Pos>, src: Pos, p: Pos, k: int)
    requires IsGrid(g) && 0 <= k < 4
    requires IsPath(g, path, src, p) && Free(g, Neighbor(p, k))
    ensures IsPath(g, path + [Neighbor(p, k)], src, Neighbor(p, k))
  {
    var ext := path + [Neighbor(p, k)];
    forall i | 0 < i < |ext|
      ensures Adjacent(ext[i - 1], ext[i]) && Free(g, ext[i])
    {
      if i < |path| {
        assert ext[i - 1] == path[i - 1] && ext[i] == path[i];
      }
    }
  }

  /** Visiting an empty neighbour of a cell a route reaches keeps every visited cell reachable. */
  lemma VisitNeighbor(g: Grid, src: Pos, visited: set<Pos>, p: Pos, k: int)
    requires IsGrid(g) && 0 <= k < 4 && p in visited && Free(g, Neighbor(p, k))
    requires forall v :: v in visited ==> Connected(g, src, v)
    ensures forall v :: v in visited + {Neighbor(p, k)} ==> Connected(g, src, v)
  {
    var path :| IsPath(g, path, src, p);
    ExtendPath(g, path, src, p, k);
  }

  /**
   is_valid_move(x1, y1, x2, y2): false at once when the destination is off
   the board or occupied; otherwise a breadth-first search from the source
   over empty cells, answering true when the destination is dequeued.
   */
  method IsValidMove(g: Grid, x1: int, y1: int, x2: int, y2: int) returns (ok: bool)
    requires IsGrid(g)
    ensures !Free(g, Pos(x2, y2)) ==> !ok
    ensures ok <==> Reachable(g, Pos(x1, y1), Pos(x2, y2))
  {
    var src, dst := Pos(x1, y1), Pos(x2, y2);
    if !(0 <= x2 < W && 0 <= y2 < H) || g[y2][x2] != Empty {
      return false;
    }
    assert Free(g, dst);
    var queue := [src];
    var visited := {src};
    assert IsPath(g, [src], src, src);
    while |queue| > 0
      invariant forall q :: q in queue ==> q in visited
      invariant src in visited
      invariant forall v :: v in visited ==> Connected(g, src, v)
      invariant forall v, k :: v in visited && v !in queue && 0 <= k < 4 && Free(g, Neighbor(v, k)) ==> Neighbor(v, k) in visited
      invariant dst in visited ==> dst in queue
      decreases AllCells - visited, |queue|
    {
      ghost var waiting := |queue|;
      var p := queue[0];
      queue := queue[1..];
      if p == dst {
        return true;
      }
      ghost var before := visited;
      for i := 0 to 4
        invariant forall q :: q in queue ==> q in visited
        invariant before <= visited && src in visited
        invariant forall v :: v in visited ==> Connected(g, src, v)
        invariant forall v, k :: v in visited && v !in queue && v != p && 0 <= k < 4 && Free(g, Neighbor(v, k)) ==> Neighbor(v, k) in visited
        invariant forall k :: 0 <= k < i && Free(g, Neighbor(p, k)) ==> Neighbor(p, k) in visited
        invariant dst in visited ==> dst in queue
        invariant visited == before ==> |queue| == waiting - 1
        invariant visited != before ==> AllCells - visited < AllCells - before
      {
        var nx, ny := p.x + Directions[i].0, p.y + Directions[i].1;
        if 0 <= nx < W && 0 <= ny < H && Pos(nx, ny) !in visited && g[ny][nx] == Empty {
          var n := Pos(nx, ny);
          assert n == Neighbor(p, i);
          VisitNeighbor(g, src, visited, p, i);
          visited := visited + {n};
          queue := queue + [n];
        }
      }
    }
    ClosedContainsConnected(g, visited, src);
    return false;
  }
}
