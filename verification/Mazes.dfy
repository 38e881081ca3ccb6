/** The arena as a bot sees it: goals, walls, shortest paths, and what a search of it maintains. */
module Mazes {
  import opened LittleEndian
  import opened Chains

  const INT_MAX: Int32 := 0x7fff_ffff

  /** Goals are food and boosts, walls are the segments of all snakes. */
  datatype Maze = Maze(width: nat, height: nat, goals: seq<Pos>, walls: seq<Pos>)

  /** A cell of the map. Row 0 and column 0 are there but are not part of the arena. */
  predicate OnMap(z: Maze, p: Pos) {
    0 <= p.x <= z.width && 0 <= p.y <= z.height
  }

  predicate Inside(z: Maze, p: Pos) {
    1 <= p.x <= z.width && 1 <= p.y <= z.height
  }

  ghost predicate Wellformed(z: Maze) {
    && (forall p :: p in z.goals ==> OnMap(z, p))
    && (forall p :: p in z.walls ==> OnMap(z, p))
  }

  /** A cell that a path may enter. */
  predicate Free(z: Maze, p: Pos) {
    Inside(z, p) && p !in z.walls
  }

  /** Where a search starts: a goal that no snake covers. */
  predicate Seed(z: Maze, p: Pos) {
    p in z.goals && p !in z.walls
  }

  predicate Adjacent(p: Pos, q: Pos) {
    q == Step(p, '^') || q == Step(p, 'v') || q == Step(p, '<') || q == Step(p, '>')
  }

  // ---------- shortest paths ----------

  /** A path from an uncovered goal through free cells. */
  ghost predicate IsPath(z: Maze, path: seq<Pos>) {
    && path != [] && Seed(z, path[0])
    && forall i :: 1 <= i < |path| ==> Free(z, path[i]) && Adjacent(path[i - 1], path[i])
  }

  ghost predicate PathTo(z: Maze, path: seq<Pos>, p: Pos) {
    IsPath(z, path) && path[|path| - 1] == p
  }

  /** There is a path of d steps to p. */
  ghost predicate Reached(z: Maze, p: Pos, d: int) {
    exists path :: PathTo(z, path, p) && |path| == d + 1
  }

  /** The shortest path to p has d steps. */
  ghost predicate IsDistance(z: Maze, p: Pos, d: int) {
    Reached(z, p, d) && forall path :: PathTo(z, path, p) ==> |path| - 1 >= d
  }

  lemma OneStepMore(z: Maze, path: seq<Pos>, p: Pos, q: Pos)
    requires PathTo(z, path, p) && Free(z, q) && Adjacent(p, q)
    ensures PathTo(z, path + [q], q)
  {
  }

  lemma OneStepLess(z: Maze, path: seq<Pos>)
    requires IsPath(z, path) && |path| > 1
    ensures IsPath(z, path[..|path| - 1])
    ensures Free(z, path[|path| - 1]) && Adjacent(path[|path| - 2], path[|path| - 1])
  {
    assert path[..|path| - 1][0] == path[0];
  }

  // ---------- the field ----------

  /** Rows of C++ ints. */
  type Field = seq<seq<Int32>>

  predicate Shaped(z: Maze, g: Field) {
    |g| == z.height + 1 && forall y :: 0 <= y < |g| ==> |g[y]| == z.width + 1
  }

  function At(z: Maze, g: Field, p: Pos): Int32
    requires Shaped(z, g) && OnMap(z, p)
  {
    g[p.y][p.x]
  }

  /** The field with one cell overwritten. */
  function Written(z: Maze, g: Field, p: Pos, v: Int32): (r: Field)
    requires Shaped(z, g) && OnMap(z, p)
    ensures Shaped(z, r)
  {
    var row: seq<Int32> := g[p.y][p.x := v];
    g[p.y := row]
  }

  function Set(z: Maze, g: Field, p: Pos, v: Int32): (r: Field)
    requires Shaped(z, g) && OnMap(z, p)
    ensures Shaped(z, r)
    ensures forall q :: OnMap(z, q) ==> At(z, r, q) == if q == p then v else At(z, g, q)
  {
    Written(z, g, p, v)
  }

  function Value(z: Maze, g: Field, p: Pos): int
    requires Shaped(z, g)
  {
    if OnMap(z, p) then At(z, g, p) else -1
  }

  predicate Visited(z: Maze, g: Field, p: Pos)
    requires Shaped(z, g)
  {
    OnMap(z, p) && 0 <= At(z, g, p) < INT_MAX
  }

  /** The field holds exact distances: -1 on walls, INT_MAX where there is no path. */
  ghost predicate Solved(z: Maze, g: Field) {
    && Shaped(z, g)
    && (forall p :: p in z.walls && OnMap(z, p) ==> At(z, g, p) == -1)
    && (forall p :: Free(z, p) ==>
          if exists path :: PathTo(z, path, p) then At(z, g, p) < INT_MAX && IsDistance(z, p, At(z, g, p))
          else At(z, g, p) == INT_MAX)
  }

  // ---------- the invariant of the search ----------

  /** Walls and seeds are marked, and every number comes from a path. */
  ghost predicate Sound(z: Maze, g: Field) {
    && Shaped(z, g)
    && (forall p :: OnMap(z, p) ==> (At(z, g, p) == -1 <==> p in z.walls) && -1 <= At(z, g, p) <= INT_MAX)
    && (forall p :: OnMap(z, p) && Seed(z, p) ==> At(z, g, p) == 0)
    && (forall p :: Visited(z, g, p) ==> Reached(z, p, At(z, g, p)))
  }

  /** All free neighbours of p have been visited, at most one step later than p. */
  ghost predicate Settled(z: Maze, g: Field, p: Pos)
    requires Shaped(z, g) && OnMap(z, p)
  {
    forall q :: Free(z, q) && Adjacent(p, q) ==> Visited(z, g, q) && At(z, g, q) <= At(z, g, p) + 1
  }

  /** The queue's values lie between v and v + 1 and never decrease. */
  ghost predicate Queued(z: Maze, g: Field, queue: seq<Pos>, v: int)
    requires Shaped(z, g)
  {
    && (forall i :: 0 <= i < |queue| ==> Visited(z, g, queue[i]) && v <= Value(z, g, queue[i]) <= v + 1)
    && (forall i, j :: 0 <= i < j < |queue| ==> Value(z, g, queue[i]) <= Value(z, g, queue[j]))
  }

  /** Between turns of the search. */
  ghost predicate Searching(z: Maze, g: Field, queue: seq<Pos>) {
    && Sound(z, g)
    && (queue != [] ==>
          && Visited(z, g, queue[0])
          && Queued(z, g, queue, At(z, g, queue[0]))
          && (forall p :: Visited(z, g, p) ==> At(z, g, p) <= At(z, g, queue[0]) + 1))
    && (forall p :: Visited(z, g, p) && p !in queue ==> Settled(z, g, p))
  }

  /** The field as the search starts: seeds are 0, walls are -1. */
  ghost predicate Populated(z: Maze, g: Field) {
    && Shaped(z, g)
    && forall p :: OnMap(z, p) ==> At(z, g, p) == if p in z.walls then -1 else if p in z.goals then 0 else INT_MAX
  }

  lemma SearchBegins(z: Maze, g: Field, queue: seq<Pos>)
    requires Wellformed(z) && Populated(z, g)
    requires forall p :: p in queue <==> Seed(z, p)
    ensures Searching(z, g, queue)
  {
    forall p | Visited(z, g, p) ensures Reached(z, p, 0) {
      assert PathTo(z, [p], p);
    }
    forall i | 0 <= i < |queue| ensures Visited(z, g, queue[i]) && At(z, g, queue[i]) == 0 {
      assert queue[i] in queue;
    }
  }

  /** While the neighbours of current, whose value is v, are being checked. */
  ghost predicate Expanding(z: Maze, g: Field, queue: seq<Pos>, current: Pos, v: int) {
    && Sound(z, g)
    && Visited(z, g, current) && At(z, g, current) == v
    && Queued(z, g, queue, v)
    && (forall p :: Visited(z, g, p) ==> At(z, g, p) <= v + 1)
    && (forall p :: Visited(z, g, p) && p !in queue && p != current ==> Settled(z, g, p))
  }

  lemma Pop(z: Maze, g: Field, queue: seq<Pos>)
    requires Searching(z, g, queue) && queue != []
    ensures Expanding(z, g, queue[1..], queue[0], At(z, g, queue[0]))
  {
  }

  lemma MarkQueued(z: Maze, g: Field, queue: seq<Pos>, v: int, q: Pos)
    requires Shaped(z, g) && Queued(z, g, queue, v) && 0 <= v + 1 < INT_MAX
    requires OnMap(z, q) && At(z, g, q) == INT_MAX
    ensures Queued(z, Set(z, g, q, v + 1), queue + [q], v)
  {
    forall i | 0 <= i < |queue| ensures queue[i] != q { assert Visited(z, g, queue[i]); }
  }

  lemma MarkSettled(z: Maze, g: Field, p: Pos, v: int, q: Pos)
    requires Shaped(z, g) && OnMap(z, p) && OnMap(z, q) && p != q
    requires At(z, g, q) == INT_MAX && 0 <= v + 1 < INT_MAX && Settled(z, g, p)
    ensures Settled(z, Set(z, g, q, v + 1), p)
  {
  }

  /** Marking an unvisited free neighbour of current. */
  lemma Mark(z: Maze, g: Field, queue: seq<Pos>, current: Pos, v: int, q: Pos)
    requires Expanding(z, g, queue, current, v) && v + 1 < INT_MAX
    requires Inside(z, q) && Adjacent(current, q) && At(z, g, q) == INT_MAX
    ensures Expanding(z, Set(z, g, q, v + 1), queue + [q], current, v)
  {
    var h, queue' := Set(z, g, q, v + 1), queue + [q];
    MarkSound(z, g, current, v, q);
    MarkQueued(z, g, queue, v, q);
    forall p | Visited(z, h, p) && p !in queue' && p != current ensures Settled(z, h, p) {
      assert q in queue';
      forall i | 0 <= i < |queue| ensures queue[i] != p { assert queue'[i] == queue[i]; }
      MarkSettled(z, g, p, v, q);
    }
  }

  lemma MarkSound(z: Maze, g: Field, current: Pos, v: int, q: Pos)
    requires Sound(z, g) && Visited(z, g, current) && At(z, g, current) == v && v + 1 < INT_MAX
    requires Inside(z, q) && Adjacent(current, q) && At(z, g, q) == INT_MAX
    ensures Sound(z, Set(z, g, q, v + 1))
  {
    var path :| PathTo(z, path, current) && |path| == v + 1;
    OneStepMore(z, path, current, q);
    assert Reached(z, q, v + 1);
  }

  /** When all four neighbours have been checked, current is settled. */
  lemma Expanded(z: Maze, g: Field, queue: seq<Pos>, current: Pos, v: int)
    requires Expanding(z, g, queue, current, v)
    requires Settled(z, g, current)
    ensures Searching(z, g, queue)
  {
  }

  // ---------- the end of the search ----------

  /** With nothing left to expand, the number at the end of a path is at most its length. */
  lemma {:induction false} AnyPath(z: Maze, g: Field, path: seq<Pos>)
    requires Wellformed(z) && Searching(z, g, []) && IsPath(z, path)
    ensures OnMap(z, path[|path| - 1]) && Visited(z, g, path[|path| - 1]) && At(z, g, path[|path| - 1]) <= |path| - 1
  {
    if |path| > 1 {
      OneStepLess(z, path);
      AnyPath(z, g, path[..|path| - 1]);
      assert Settled(z, g, path[|path| - 2]);
    }
  }

  /** With nothing left to expand, the field holds exact distances. */
  lemma SearchSolves(z: Maze, g: Field)
    requires Wellformed(z) && Searching(z, g, [])
    ensures Solved(z, g)
  {
    forall p | Free(z, p)
      ensures if exists path :: PathTo(z, path, p) then At(z, g, p) < INT_MAX && IsDistance(z, p, At(z, g, p))
        else At(z, g, p) == INT_MAX
    {
      forall path | PathTo(z, path, p) ensures Visited(z, g, p) && |path| - 1 >= At(z, g, p) {
        AnyPath(z, g, path);
      }
      if Visited(z, g, p) {
        assert Reached(z, p, At(z, g, p));
        var path :| PathTo(z, path, p) && |path| == At(z, g, p) + 1;
      }
    }
  }

  // ---------- counting cells ----------

  /** The cells of the first h rows of the arena. */
  function Cells(w: nat, h: nat): set<Pos>
    decreases h
  {
    if h == 0 then {} else Cells(w, h - 1) + Row(w, h)
  }

  function Row(w: nat, y: nat): set<Pos>
    decreases w
  {
    if w == 0 then {} else Row(w - 1, y) + {Pos(w, y)}
  }

  lemma {:induction false} InRow(w: nat, y: nat, p: Pos)
    ensures p in Row(w, y) <==> 1 <= p.x <= w && p.y == y
    decreases w
  {
    if w > 0 {
      InRow(w - 1, y, p);
    }
  }

  lemma {:induction false} InCells(w: nat, h: nat, p: Pos)
    ensures p in Cells(w, h) <==> 1 <= p.x <= w && 1 <= p.y <= h
    decreases h
  {
    if h > 0 {
      InCells(w, h - 1, p);
      InRow(w, h, p);
    }
  }

  lemma {:induction false} RowSize(w: nat, y: nat)
    ensures |Row(w, y)| == w
    decreases w
  {
    if w > 0 {
      RowSize(w - 1, y);
      InRow(w - 1, y, Pos(w, y));
    }
  }

  lemma DisjointSizes(a: set<Pos>, b: set<Pos>)
    requires a !! b
    ensures |a + b| == |a| + |b|
  {
  }

  lemma OneMoreRow(w: nat, h: nat)
    requires h > 0
    ensures |Cells(w, h)| == |Cells(w, h - 1)| + w
  {
    RowSize(w, h);
    forall p | p in Row(w, h) ensures p !in Cells(w, h - 1) {
      InRow(w, h, p);
      InCells(w, h - 1, p);
    }
    DisjointSizes(Cells(w, h - 1), Row(w, h));
  }

  lemma {:induction false} CellsSize(w: nat, h: nat)
    ensures |Cells(w, h)| == w * h
    decreases h
  {
    if h > 0 {
      CellsSize(w, h - 1);
      OneMoreRow(w, h);
      Product(|Cells(w, h - 1)|, w, h);
    }
  }

  lemma Product(area: nat, w: nat, h: nat)
    requires area == w * (h - 1)
    ensures area + w == w * h
  {
  }

  lemma InsideBound(z: Maze, marked: set<Pos>)
    requires forall p :: p in marked ==> Inside(z, p)
    ensures |marked| <= z.width * z.height
  {
    CellsSize(z.width, z.height);
    forall p | p in marked ensures p in Cells(z.width, z.height) {
      InCells(z.width, z.height, p);
    }
    SubsetSize(marked, Cells(z.width, z.height));
  }

  lemma {:induction false} SubsetSize(a: set<Pos>, b: set<Pos>)
    requires a <= b
    ensures |a| <= |b|
    decreases |a|
  {
    if a != {} {
      var p :| p in a;
      SubsetSize(a - {p}, b - {p});
    }
  }
}
