/** The bot's map of distances to the nearest food or boost. */
module Pathfinder {
  import opened Results
  import opened LittleEndian
  import opened Tables
  import opened Chains
  import opened Mazes
  import opened Steering

  /** What the bot keeps of the last game state. */
  datatype Snake = Snake(direction: char, segments: seq<Pos>)

  datatype View = View(players: Table<Int32, Snake>, food: seq<Pos>, boosts: seq<Pos>)

  /** The segments of the snakes with these ids. */
  function Walls(snakes: map<Int32, Snake>, ids: seq<Int32>): seq<Pos>
    requires forall id :: id in ids ==> id in snakes
  {
    if ids == [] then [] else Walls(snakes, ids[..|ids| - 1]) + snakes[ids[|ids| - 1]].segments
  }

  function MazeOf(view: View, width: nat, height: nat): Maze {
    Maze(width, height, view.food + view.boosts, Walls(view.players.m, view.players.keys))
  }

  /** The map when cells has been written over the field with v, in any order. */
  ghost predicate Painted(z: Maze, before: Field, after: Field, cells: seq<Pos>, v: int) {
    && Shaped(z, before) && Shaped(z, after)
    && (forall p :: p in cells ==> OnMap(z, p))
    && forall p :: OnMap(z, p) ==> At(z, after, p) == if p in cells then v else At(z, before, p)
  }

  lemma PaintedTwice(z: Maze, f: Field, g: Field, h: Field, a: seq<Pos>, b: seq<Pos>, v: int)
    requires Painted(z, f, g, a, v) && Painted(z, g, h, b, v)
    ensures Painted(z, f, h, a + b, v)
  {
  }

  lemma WallsNext(snakes: map<Int32, Snake>, ids: seq<Int32>, i: nat)
    requires i < |ids| && forall id :: id in ids ==> id in snakes
    ensures ids[i] in snakes && forall id :: id in ids[..i + 1] ==> id in snakes
    ensures Walls(snakes, ids[..i + 1]) == Walls(snakes, ids[..i]) + snakes[ids[i]].segments
  {
    assert ids[i] in ids;
    assert ids[..i + 1][..i] == ids[..i] && ids[..i + 1][i] == ids[i];
  }

  lemma {:induction false} SegmentIsWall(snakes: map<Int32, Snake>, ids: seq<Int32>, i: nat, p: Pos)
    requires i < |ids| && (forall id :: id in ids ==> id in snakes)
    requires ids[i] in snakes && p in snakes[ids[i]].segments
    ensures p in Walls(snakes, ids)
    decreases |ids|
  {
    var n := |ids| - 1;
    if i < n {
      SegmentIsWall(snakes, ids[..n], i, p);
    }
  }

  lemma PopulatedFrom(z: Maze, f0: Field, f1: Field, f2: Field, f3: Field, food: seq<Pos>, boosts: seq<Pos>)
    requires Shaped(z, f0) && forall p :: OnMap(z, p) ==> At(z, f0, p) == INT_MAX
    requires z.goals == food + boosts
    requires Painted(z, f0, f1, food, 0) && Painted(z, f1, f2, boosts, 0) && Painted(z, f2, f3, z.walls, -1)
    ensures Wellformed(z) && Populated(z, f3)
  {
  }

  /** How many cells the search has marked, and how far it can have got. */
  ghost predicate Budget(z: Maze, g: Field, marked: set<Pos>) {
    && Shaped(z, g)
    && (forall p :: p in marked ==> Inside(z, p) && Visited(z, g, p))
    && (forall p :: Visited(z, g, p) ==> At(z, g, p) <= |marked|)
  }

  lemma MarkBudget(z: Maze, g: Field, marked: set<Pos>, v: int, q: Pos)
    requires Budget(z, g, marked) && 0 <= v <= |marked| && z.width * z.height < INT_MAX
    requires Inside(z, q) && At(z, g, q) == INT_MAX
    ensures v + 1 < INT_MAX
    ensures |marked + {q}| == |marked| + 1
    ensures Budget(z, Set(z, g, q, v + 1), marked + {q})
  {
    assert q !in marked;
    InsideBound(z, marked + {q});
  }

  /** Cells in an order of nondecreasing distance. */
  ghost predicate NearestFirst(z: Maze, g: Field, order: seq<Pos>) {
    && Shaped(z, g)
    && (forall i :: 0 <= i < |order| ==> Visited(z, g, order[i]))
    && (forall i, j :: 0 <= i < j < |order| ==> Value(z, g, order[i]) <= Value(z, g, order[j]))
  }

  /** Nothing in order is farther than anything in the queue. */
  ghost predicate Before(z: Maze, g: Field, order: seq<Pos>, queue: seq<Pos>)
    requires Shaped(z, g)
  {
    order != [] ==> forall i :: 0 <= i < |queue| ==> Value(z, g, order[|order| - 1]) <= Value(z, g, queue[i])
  }

  /** Every cell that the choice of a move for this snake reads is there. */
  predicate LooksAtMap(z: Maze, g: Field, snake: Snake)
    requires snake.segments != []
  {
    forall d: Direction :: Allowed(z, snake.segments[0], snake.direction, d) ==> Cell(g, Step(snake.segments[0], d)).Ok?
  }

  // ---------- the search, one step at a time ----------

  datatype Search = Search(field: Field, queue: seq<Pos>)

  /** What checking one neighbour does. */
  function Check(z: Maze, s: Search, nextVal: Int32, p: Pos): (r: Search)
    requires Shaped(z, s.field)
    ensures Shaped(z, r.field)
  {
    if Inside(z, p) && At(z, s.field, p) == INT_MAX then Search(Written(z, s.field, p, nextVal), s.queue + [p]) else s
  }

  function CheckAll(z: Maze, s: Search, nextVal: Int32, cells: seq<Pos>): (r: Search)
    requires Shaped(z, s.field)
    ensures Shaped(z, r.field)
    decreases |cells|
  {
    if cells == [] then s else CheckAll(z, Check(z, s, nextVal, cells[0]), nextVal, cells[1..])
  }

  /** Up, down, left, right. */
  function Around(p: Pos): seq<Pos> {
    [Pos(p.x, p.y - 1), Pos(p.x, p.y + 1), Pos(p.x - 1, p.y), Pos(p.x + 1, p.y)]
  }

  /** One turn: the four neighbours of the front of the queue. */
  function Turn(z: Maze, s: Search): (r: Search)
    requires Shaped(z, s.field) && s.queue != [] && Visited(z, s.field, s.queue[0])
    ensures Shaped(z, r.field)
  {
    CheckAll(z, Search(s.field, s.queue[1..]), At(z, s.field, s.queue[0]) + 1, Around(s.queue[0]))
  }

  lemma CheckNext(z: Maze, s: Search, nextVal: Int32, cells: seq<Pos>, i: nat)
    requires Shaped(z, s.field) && i < |cells|
    ensures CheckAll(z, s, nextVal, cells[i..]) == CheckAll(z, Check(z, s, nextVal, cells[i]), nextVal, cells[i + 1..])
  {
    assert cells[i..][0] == cells[i] && cells[i..][1..] == cells[i + 1..];
  }

  /** Numbers once written stay. */
  ghost predicate Kept(z: Maze, g: Field, h: Field) {
    && Shaped(z, g) && Shaped(z, h)
    && forall p :: Visited(z, g, p) ==> Visited(z, h, p) && At(z, h, p) == At(z, g, p)
  }

  predicate Seen(z: Maze, g: Field, p: Pos)
    requires Shaped(z, g)
  {
    Free(z, p) ==> Visited(z, g, p)
  }

  /** While neighbours are being checked: the invariant, and one queued cell for every marked one. */
  ghost predicate Checking(z: Maze, s: Search, current: Pos, v: int, marked: set<Pos>) {
    Expanding(z, s.field, s.queue, current, v) && Budget(z, s.field, marked)
  }

  lemma CheckKeeps(z: Maze, s: Search, current: Pos, v: int, p: Pos, marked: set<Pos>) returns (marked': set<Pos>)
    requires Checking(z, s, current, v, marked) && z.width * z.height < INT_MAX && Adjacent(current, p)
    ensures Checking(z, Check(z, s, v + 1, p), current, v, marked')
    ensures Kept(z, s.field, Check(z, s, v + 1, p).field)
    ensures |Check(z, s, v + 1, p).queue| - |marked'| == |s.queue| - |marked|
    ensures Seen(z, Check(z, s, v + 1, p).field, p)
  {
    if Inside(z, p) && At(z, s.field, p) == INT_MAX {
      MarkBudget(z, s.field, marked, v, p);
      Mark(z, s.field, s.queue, current, v, p);
      marked' := marked + {p};
    } else {
      marked' := marked;
    }
  }

  lemma KeptTwice(z: Maze, f: Field, g: Field, h: Field)
    requires Kept(z, f, g) && Kept(z, g, h)
    ensures Kept(z, f, h)
  {
  }

  lemma {:induction false} CheckAllKeeps(z: Maze, s: Search, current: Pos, v: int, cells: seq<Pos>, marked: set<Pos>)
    returns (marked': set<Pos>)
    requires Checking(z, s, current, v, marked) && z.width * z.height < INT_MAX
    requires forall i :: 0 <= i < |cells| ==> Adjacent(current, cells[i])
    ensures Checking(z, CheckAll(z, s, v + 1, cells), current, v, marked')
    ensures Kept(z, s.field, CheckAll(z, s, v + 1, cells).field)
    ensures |CheckAll(z, s, v + 1, cells).queue| - |marked'| == |s.queue| - |marked|
    ensures forall i :: 0 <= i < |cells| ==> Seen(z, CheckAll(z, s, v + 1, cells).field, cells[i])
    decreases |cells|
  {
    if cells == [] {
      marked' := marked;
    } else {
      var next, all := Check(z, s, v + 1, cells[0]), CheckAll(z, s, v + 1, cells);
      var marked1 := CheckKeeps(z, s, current, v, cells[0], marked);
      marked' := CheckAllKeeps(z, next, current, v, cells[1..], marked1);
      KeptTwice(z, s.field, next.field, all.field);
      SeenKept(z, next.field, all.field, cells[0]);
      SeenLater(z, all.field, cells);
    }
  }

  lemma SeenLater(z: Maze, g: Field, cells: seq<Pos>)
    requires Shaped(z, g) && cells != [] && Seen(z, g, cells[0])
    requires forall i :: 0 <= i < |cells[1..]| ==> Seen(z, g, cells[1..][i])
    ensures forall i :: 0 <= i < |cells| ==> Seen(z, g, cells[i])
  {
    forall i | 0 < i < |cells| ensures Seen(z, g, cells[i]) {
      assert cells[1..][i - 1] == cells[i];
    }
  }

  lemma AllSeen(z: Maze, g: Field, queue: seq<Pos>, p: Pos, v: int)
    requires Expanding(z, g, queue, p, v)
    requires Seen(z, g, Pos(p.x, p.y - 1)) && Seen(z, g, Pos(p.x, p.y + 1))
    requires Seen(z, g, Pos(p.x - 1, p.y)) && Seen(z, g, Pos(p.x + 1, p.y))
    ensures Searching(z, g, queue)
  {
    assert Settled(z, g, p);
    Expanded(z, g, queue, p, v);
  }

  lemma SeenKept(z: Maze, g: Field, h: Field, p: Pos)
    requires Kept(z, g, h) && Seen(z, g, p)
    ensures Seen(z, h, p)
  {
  }

  lemma PopChecking(z: Maze, s: Search, marked: set<Pos>)
    requires Searching(z, s.field, s.queue) && s.queue != [] && Budget(z, s.field, marked)
    ensures Checking(z, Search(s.field, s.queue[1..]), s.queue[0], At(z, s.field, s.queue[0]), marked)
  {
    Pop(z, s.field, s.queue);
  }

  lemma AroundSeen(z: Maze, g: Field, queue: seq<Pos>, p: Pos, v: int)
    requires Expanding(z, g, queue, p, v)
    requires forall i :: 0 <= i < |Around(p)| ==> Seen(z, g, Around(p)[i])
    ensures Searching(z, g, queue)
  {
    var cells := Around(p);
    assert Seen(z, g, cells[0]) && Seen(z, g, cells[1]) && Seen(z, g, cells[2]) && Seen(z, g, cells[3]);
    AllSeen(z, g, queue, p, v);
  }

  lemma AroundChecked(z: Maze, s0: Search, s4: Search, p: Pos, v: int, marked: set<Pos>) returns (marked': set<Pos>)
    requires Checking(z, s0, p, v, marked) && z.width * z.height < INT_MAX
    requires s4 == CheckAll(z, s0, v + 1, Around(p))
    ensures Searching(z, s4.field, s4.queue) && Checking(z, s4, p, v, marked')
    ensures Kept(z, s0.field, s4.field)
    ensures |s4.queue| - |marked'| == |s0.queue| - |marked|
  {
    marked' := CheckAllKeeps(z, s0, p, v, Around(p), marked);
    AroundSeen(z, s4.field, s4.queue, p, v);
  }

  lemma TurnKeeps(z: Maze, s: Search, marked: set<Pos>) returns (marked': set<Pos>)
    requires Searching(z, s.field, s.queue) && s.queue != [] && Budget(z, s.field, marked)
    requires z.width * z.height < INT_MAX
    ensures Searching(z, Turn(z, s).field, Turn(z, s).queue) && Budget(z, Turn(z, s).field, marked')
    ensures Kept(z, s.field, Turn(z, s).field)
    ensures Queued(z, Turn(z, s).field, Turn(z, s).queue, At(z, s.field, s.queue[0]))
    ensures |Turn(z, s).queue| - |marked'| == |s.queue| - |marked| - 1
  {
    PopChecking(z, s, marked);
    var p := s.queue[0];
    marked' := AroundChecked(z, Search(s.field, s.queue[1..]), Turn(z, s), p, At(z, s.field, p), marked);
  }

  /** Between turns: the invariant of the search, and an account of the cells popped so far. */
  ghost predicate Progress(z: Maze, s: Search, marked: set<Pos>, order: seq<Pos>, seeds: nat) {
    && Searching(z, s.field, s.queue) && Budget(z, s.field, marked)
    && |order| + |s.queue| == seeds + |marked|
    && NearestFirst(z, s.field, order) && Before(z, s.field, order, s.queue)
  }

  lemma OrderKept(z: Maze, g: Field, h: Field, order: seq<Pos>)
    requires NearestFirst(z, g, order) && Kept(z, g, h)
    ensures NearestFirst(z, h, order)
  {
  }

  lemma OrderGrows(z: Maze, g: Field, order: seq<Pos>, queue: seq<Pos>)
    requires NearestFirst(z, g, order) && queue != [] && Visited(z, g, queue[0]) && Before(z, g, order, queue)
    ensures NearestFirst(z, g, order + [queue[0]])
  {
  }

  lemma TurnProgresses(z: Maze, s: Search, marked: set<Pos>, order: seq<Pos>, seeds: nat) returns (marked': set<Pos>)
    requires Progress(z, s, marked, order, seeds) && s.queue != [] && z.width * z.height < INT_MAX
    ensures Visited(z, s.field, s.queue[0])
    ensures Progress(z, Turn(z, s), marked', order + [s.queue[0]], seeds)
    ensures |order| < seeds + z.width * z.height
  {
    InsideBound(z, marked);
    marked' := TurnKeeps(z, s, marked);
    OrderGrows(z, s.field, order, s.queue);
    OrderKept(z, s.field, Turn(z, s).field, order + [s.queue[0]]);
  }

  class Pathfinder {
    const width: nat
    const height: nat
    var dijkstraMap: Field

    constructor (width: nat, height: nat)
      ensures this.width == width && this.height == height && dijkstraMap == []
    {
      this.width := width;
      this.height := height;
      dijkstraMap := [];
    }

    method Write(ghost z: Maze, p: Pos, v: Int32) returns (r: Result<Int32>)
      requires z.width == width && z.height == height && Shaped(z, dijkstraMap)
      modifies this
      ensures r == if OnMap(z, p) then Ok(v) else Err(CellOffMap)
      ensures dijkstraMap == if OnMap(z, p) then Set(z, old(dijkstraMap), p, v) else old(dijkstraMap)
    {
      r := Cell(dijkstraMap, p);
      if r.Ok? {
        var row: seq<Int32> := dijkstraMap[p.y][p.x := v];
        dijkstraMap := dijkstraMap[p.y := row];
        r := Ok(v);
      }
    }

    method Paint(ghost z: Maze, cells: seq<Pos>, v: Int32) returns (r: Result<Int32>)
      requires z.width == width && z.height == height && Shaped(z, dijkstraMap)
      modifies this
      ensures r.Ok? <==> forall i :: 0 <= i < |cells| ==> OnMap(z, cells[i])
      ensures r.Ok? ==> Painted(z, old(dijkstraMap), dijkstraMap, cells, v)
      ensures r.Err? ==> r.error == CellOffMap
    {
      for i := 0 to |cells|
        invariant Painted(z, old(dijkstraMap), dijkstraMap, cells[..i], v)
        invariant forall j :: 0 <= j < i ==> OnMap(z, cells[j])
      {
        assert cells[..i + 1] == cells[..i] + [cells[i]];
        var _ :- Write(z, cells[i], v);
      }
      assert cells[..|cells|] == cells;
      r := Ok(v);
    }

    /** Overwrite the fresh map with goals and then walls; a position off the map is an exception. */
    method PopulateFoodAndPlayers(view: View) returns (r: Result<Int32>)
      requires Shaped(MazeOf(view, width, height), dijkstraMap)
      requires forall p :: OnMap(MazeOf(view, width, height), p) ==>
        At(MazeOf(view, width, height), dijkstraMap, p) == INT_MAX
      modifies this
      ensures r.Ok? <==> Wellformed(MazeOf(view, width, height))
      ensures r.Ok? ==> Populated(MazeOf(view, width, height), dijkstraMap)
      ensures r.Err? ==> r.error == CellOffMap
    {
      ghost var z := MazeOf(view, width, height);
      ghost var f0 := dijkstraMap;
      assert forall i :: 0 <= i < |view.food| ==> view.food[i] in z.goals;
      assert forall i :: 0 <= i < |view.boosts| ==> view.boosts[i] in z.goals;
      var _ :- Paint(z, view.food, 0);
      ghost var f1 := dijkstraMap;
      var _ :- Paint(z, view.boosts, 0);
      ghost var f2 := dijkstraMap;
      var ids := view.players.keys;
      for i := 0 to |ids|
        invariant Painted(z, f2, dijkstraMap, Walls(view.players.m, ids[..i]), -1)
      {
        WallsNext(view.players.m, ids, i);
        ghost var g := dijkstraMap;
        var segments := view.players.m[ids[i]].segments;
        r := Paint(z, segments, -1);
        if r.Err? {
          ghost var j :| 0 <= j < |segments| && !OnMap(z, segments[j]);
          SegmentIsWall(view.players.m, ids, i, segments[j]);
          return;
        }
        PaintedTwice(z, f2, g, dijkstraMap, Walls(view.players.m, ids[..i]), segments, -1);
      }
      assert ids[..|ids|] == ids;
      PopulatedFrom(z, f0, f1, f2, dijkstraMap, view.food, view.boosts);
      r := Ok(0);
    }

    /** Queue the goals that no snake covers. */
    method Seeds(ghost z: Maze, goals: seq<Pos>, toVisit: seq<Pos>) returns (queue: seq<Pos>)
      requires z.width == width && z.height == height && Wellformed(z) && Populated(z, dijkstraMap)
      requires forall p :: p in goals ==> p in z.goals
      ensures forall p :: p in queue <==> p in toVisit || (p in goals && Seed(z, p))
      ensures |queue| <= |toVisit| + |goals|
    {
      queue := toVisit;
      for i := 0 to |goals|
        invariant forall p :: p in queue <==> p in toVisit || (p in goals[..i] && Seed(z, p))
        invariant |queue| <= |toVisit| + i
      {
        assert goals[i] in goals;
        assert goals[..i + 1] == goals[..i] + [goals[i]];
        assert OnMap(z, goals[i]);
        if Cell(dijkstraMap, goals[i]) == Ok(0) {
          queue := queue + [goals[i]];
        }
      }
      assert goals[..|goals|] == goals;
    }

    method CheckNeighbour(ghost z: Maze, nextVal: Int32, p: Pos, toVisit: seq<Pos>) returns (queue: seq<Pos>)
      requires z.width == width && z.height == height && Shaped(z, dijkstraMap)
      modifies this
      ensures Search(dijkstraMap, queue) == Check(z, Search(old(dijkstraMap), toVisit), nextVal, p)
    {
      if p.x <= 0 || p.x > width || p.y <= 0 || p.y > height {
        return toVisit;
      }
      if dijkstraMap[p.y][p.x] != INT_MAX {
        return toVisit;
      }
      var row: seq<Int32> := dijkstraMap[p.y][p.x := nextVal];
      dijkstraMap := dijkstraMap[p.y := row];
      queue := toVisit + [p];
    }

    method Expand(ghost z: Maze, toVisit: seq<Pos>) returns (queue: seq<Pos>)
      requires z.width == width && z.height == height && Shaped(z, dijkstraMap)
      requires toVisit != [] && Visited(z, dijkstraMap, toVisit[0])
      modifies this
      ensures Search(dijkstraMap, queue) == Turn(z, Search(old(dijkstraMap), toVisit))
    {
      var p := toVisit[0];
      var nextVal := dijkstraMap[p.y][p.x] + 1;
      ghost var cells, all := Around(p), Turn(z, Search(dijkstraMap, toVisit));
      assert cells[0..] == cells;
      queue := CheckOne(z, nextVal, Pos(p.x, p.y - 1), toVisit[1..], cells, 0, all);
      queue := CheckOne(z, nextVal, Pos(p.x, p.y + 1), queue, cells, 1, all);
      queue := CheckOne(z, nextVal, Pos(p.x - 1, p.y), queue, cells, 2, all);
      queue := CheckOne(z, nextVal, Pos(p.x + 1, p.y), queue, cells, 3, all);
    }

    /** Check neighbour i: with the neighbours from i on still to check the result is all, and so it is
        with those after i. */
    method CheckOne(ghost z: Maze, nextVal: Int32, p: Pos, toVisit: seq<Pos>, ghost cells: seq<Pos>,
        ghost i: nat, ghost all: Search)
      returns (queue: seq<Pos>)
      requires z.width == width && z.height == height && Shaped(z, dijkstraMap)
      requires i < |cells| && p == cells[i] && CheckAll(z, Search(dijkstraMap, toVisit), nextVal, cells[i..]) == all
      modifies this
      ensures Shaped(z, dijkstraMap) && CheckAll(z, Search(dijkstraMap, queue), nextVal, cells[i + 1..]) == all
    {
      CheckNext(z, Search(dijkstraMap, toVisit), nextVal, cells, i);
      queue := CheckNeighbour(z, nextVal, p, toVisit);
    }

    /** The search: distances are exact at the end, cells were expanded nearest first, and not many of them. */
    method ComputePaths(view: View) returns (ghost order: seq<Pos>)
      requires width * height < INT_MAX
      requires Wellformed(MazeOf(view, width, height)) && Populated(MazeOf(view, width, height), dijkstraMap)
      modifies this
      ensures Solved(MazeOf(view, width, height), dijkstraMap)
      ensures |order| <= |view.food| + |view.boosts| + width * height
      ensures NearestFirst(MazeOf(view, width, height), dijkstraMap, order)
    {
      ghost var z := MazeOf(view, width, height);
      var toVisit := Seeds(z, view.food, []);
      toVisit := Seeds(z, view.boosts, toVisit);
      SearchBegins(z, dijkstraMap, toVisit);
      order := [];
      ghost var seeds, marked := |toVisit|, {};
      while toVisit != []
        invariant Progress(z, Search(dijkstraMap, toVisit), marked, order, seeds)
        decreases seeds + width * height - |order|
      {
        marked := TurnProgresses(z, Search(dijkstraMap, toVisit), marked, order, seeds);
        order := order + [toVisit[0]];
        toVisit := Expand(z, toVisit);
      }
      InsideBound(z, marked);
      SearchSolves(z, dijkstraMap);
    }

    method RebuildMap(view: View) returns (r: Result<Int32>)
      requires width * height < INT_MAX
      modifies this
      ensures r.Ok? <==> Wellformed(MazeOf(view, width, height))
      ensures r.Ok? ==> Solved(MazeOf(view, width, height), dijkstraMap)
      ensures r.Err? ==> r.error == CellOffMap
    {
      dijkstraMap := seq(height + 1, y => seq(width + 1, x => INT_MAX));
      var _ :- PopulateFoodAndPlayers(view);
      ghost var order := ComputePaths(view);
      r := Ok(0);
    }

    /** The next move, or the exception for a snake that is not there or a head that looks off the map. */
    method CalculateNextMove(clientId: Int32, view: View) returns (r: Result<char>)
      requires Has(view.players, clientId) ==> view.players.m[clientId].segments != []
      ensures !Has(view.players, clientId) ==> r == Err(UnknownClient)
      ensures Has(view.players, clientId) ==>
        (r.Ok? <==> LooksAtMap(MazeOf(view, width, height), dijkstraMap, view.players.m[clientId]))
      ensures Has(view.players, clientId) && Shaped(MazeOf(view, width, height), dijkstraMap) && r.Ok? ==>
        && Readable(MazeOf(view, width, height),
                    view.players.m[clientId].segments[0], view.players.m[clientId].direction)
        && r.value == BestMove(MazeOf(view, width, height), dijkstraMap,
                               view.players.m[clientId].segments[0], view.players.m[clientId].direction)
    {
      if !Has(view.players, clientId) {
        return Err(UnknownClient);
      }
      var snake := view.players.m[clientId];
      r := Choose(MazeOf(view, width, height), snake.segments[0], snake.direction);
    }

    method Choose(ghost z: Maze, head: Pos, direction: char) returns (r: Result<char>)
      requires z.width == width && z.height == height
      ensures r.Ok? <==> forall d: Direction :: Allowed(z, head, direction, d) ==> Cell(dijkstraMap, Step(head, d)).Ok?
      ensures Shaped(z, dijkstraMap) && r.Ok? ==>
        Readable(z, head, direction) && r.value == BestMove(z, dijkstraMap, head, direction)
    {
      ChosenFails(z, dijkstraMap, head, direction);
      if Shaped(z, dijkstraMap) && Readable(z, head, direction) {
        ChosenIsBest(z, dijkstraMap, head, direction);
      }
      var lowest: (int, char) := (LONG_MAX, '?');
      lowest :- Consider(z, head, direction, '^', lowest);
      lowest :- Consider(z, head, direction, 'v', lowest);
      lowest :- Consider(z, head, direction, '<', lowest);
      lowest :- Consider(z, head, direction, '>', lowest);
      r := Ok(lowest.1);
    }

    method Consider(ghost z: Maze, head: Pos, direction: char, d: Direction, lowest: (int, char))
      returns (r: Result<(int, char)>)
      requires z.width == width && z.height == height
      ensures r == Considered(z, dijkstraMap, head, direction, d, lowest)
    {
      var edge := match d
        case '^' => head.y > 1
        case 'v' => head.y < height
        case '<' => head.x > 1
        case _ => head.x < width;
      r := Ok(lowest);
      if direction != Opposite(d) && edge {
        var neighbourVal :- Cell(dijkstraMap, Step(head, d));
        if neighbourVal >= 0 && neighbourVal < lowest.0 {
          r := Ok((neighbourVal, d));
        }
      }
    }
  }
}
