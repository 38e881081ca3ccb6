/** Following the map: the choice of the next move, and where repeating it leads. */
module Steering {
  import opened Results
  import opened LittleEndian
  import opened Chains
  import opened Mazes

  /** Not straight back, and not across the border of the arena. */
  predicate Allowed(z: Maze, p: Pos, direction: char, c: Direction) {
    && direction != Opposite(c)
    && match c
       case '^' => p.y > 1
       case 'v' => p.y < z.height
       case '<' => p.x > 1
       case _ => p.x < z.width
  }

  predicate Readable(z: Maze, p: Pos, direction: char) {
    forall c: Direction :: Allowed(z, p, direction, c) ==> OnMap(z, Step(p, c))
  }

  /** A move the bot may choose: allowed, and not into a wall. */
  predicate Option(z: Maze, g: Field, p: Pos, direction: char, c: char)
    requires Shaped(z, g) && Readable(z, p, direction)
  {
    (c == '^' || c == 'v' || c == '<' || c == '>') && Allowed(z, p, direction, c) && At(z, g, Step(p, c)) >= 0
  }

  function Rank(c: Direction): nat {
    match c
    case '^' => 0
    case 'v' => 1
    case '<' => 2
    case _ => 3
  }

  /** The option with the least number, the first in the order up, down, left, right of those; '?' if there is none. */
  ghost predicate Best(z: Maze, g: Field, p: Pos, direction: char, c: char)
    requires Shaped(z, g) && Readable(z, p, direction)
  {
    if c == '?' then
      forall d: Direction :: !Option(z, g, p, direction, d)
    else
      && Option(z, g, p, direction, c)
      && forall d: Direction :: Option(z, g, p, direction, d) && d != c ==>
           || At(z, g, Step(p, c)) < At(z, g, Step(p, d))
           || (At(z, g, Step(p, c)) == At(z, g, Step(p, d)) && Rank(c) < Rank(d))
  }

  lemma BestIsUnique(z: Maze, g: Field, p: Pos, direction: char, c: char, d: char)
    requires Shaped(z, g) && Readable(z, p, direction)
    requires Best(z, g, p, direction, c) && Best(z, g, p, direction, d)
    ensures c == d
  {
    if c != '?' && d != '?' {
      var c': Direction, d': Direction := c, d;
    }
    OptionIsDirection(z, g, p, direction, c);
    OptionIsDirection(z, g, p, direction, d);
  }

  lemma OptionIsDirection(z: Maze, g: Field, p: Pos, direction: char, c: char)
    requires Shaped(z, g) && Readable(z, p, direction)
    ensures Option(z, g, p, direction, c) ==> exists d: Direction :: d == c && Option(z, g, p, direction, d)
  {
    if Option(z, g, p, direction, c) {
      var d: Direction := c;
    }
  }

  /** The better of the best so far and one more direction. */
  function Better(z: Maze, g: Field, p: Pos, direction: char, c: char, d: Direction): (r: char)
    requires Shaped(z, g) && Readable(z, p, direction)
    requires c == '?' || Option(z, g, p, direction, c)
    ensures r == '?' || Option(z, g, p, direction, r)
    ensures r == c || r == d
    ensures r == c <==> !Option(z, g, p, direction, d) || (c != '?' && At(z, g, Step(p, c)) <= At(z, g, Step(p, d)))
  {
    if !Option(z, g, p, direction, d) then c
    else if c == '?' || At(z, g, Step(p, d)) < At(z, g, Step(p, c)) then d
    else c
  }

  function BestMove(z: Maze, g: Field, p: Pos, direction: char): (c: char)
    requires Shaped(z, g) && Readable(z, p, direction)
    ensures Best(z, g, p, direction, c)
  {
    var up := Better(z, g, p, direction, '?', '^');
    var vertical := Better(z, g, p, direction, up, 'v');
    var left := Better(z, g, p, direction, vertical, '<');
    Better(z, g, p, direction, left, '>')
  }

  // ---------- the choice as it is computed ----------

  const LONG_MAX: int := TWO_63 - 1

  /** The cell, or the exception that the bounds-checked access throws. */
  function Cell(g: Field, p: Pos): (r: Result<Int32>) {
    if 0 <= p.y < |g| && 0 <= p.x < |g[p.y]| then Ok(g[p.y][p.x]) else Err(CellOffMap)
  }

  /** Take the cell in direction d if that is allowed and its number is lower. */
  function Considered(z: Maze, g: Field, p: Pos, direction: char, d: Direction, lowest: (int,
      char)): Result<(int, char)> {
    if !Allowed(z, p, direction, d) then Ok(lowest)
    else
      var v :- Cell(g, Step(p, d));
      Ok(if 0 <= v < lowest.0 then (v as int, d as char) else lowest)
  }

  function Chosen(z: Maze, g: Field, p: Pos, direction: char): Result<(int, char)> {
    var up :- Considered(z, g, p, direction, '^', (LONG_MAX, '?'));
    var vertical :- Considered(z, g, p, direction, 'v', up);
    var left :- Considered(z, g, p, direction, '<', vertical);
    Considered(z, g, p, direction, '>', left)
  }

  /** No choice is made exactly when some allowed neighbour is off the map. */
  lemma ChosenFails(z: Maze, g: Field, p: Pos, direction: char)
    ensures Chosen(z, g, p, direction).Ok?
      <==> forall d: Direction :: Allowed(z, p, direction, d) ==> Cell(g, Step(p, d)).Ok?
  {
    if Chosen(z, g, p, direction).Ok? {
      forall d: Direction | Allowed(z, p, direction, d) ensures Cell(g, Step(p, d)).Ok? {
        assert d == '^' || d == 'v' || d == '<' || d == '>';
      }
    }
  }

  /** The number that goes with the best direction so far. */
  predicate Tracks(z: Maze, g: Field, p: Pos, direction: char, lowest: (int, char))
    requires Shaped(z, g) && Readable(z, p, direction)
  {
    if lowest.1 == '?' then lowest.0 == LONG_MAX
    else Option(z, g, p, direction, lowest.1) && lowest.0 == At(z, g, Step(p, lowest.1))
  }

  lemma ConsideredIsBetter(z: Maze, g: Field, p: Pos, direction: char, d: Direction, lowest: (int, char))
    requires Shaped(z, g) && Readable(z, p, direction) && Tracks(z, g, p, direction, lowest)
    ensures Considered(z, g, p, direction, d, lowest).Ok?
    ensures Tracks(z, g, p, direction, Considered(z, g, p, direction, d, lowest).value)
    ensures Considered(z, g, p, direction, d, lowest).value.1 == Better(z, g, p, direction, lowest.1, d)
  {
  }

  lemma ChosenIsBest(z: Maze, g: Field, p: Pos, direction: char)
    requires Shaped(z, g) && Readable(z, p, direction)
    ensures Chosen(z, g, p, direction).Ok?
    ensures Chosen(z, g, p, direction).value.1 == BestMove(z, g, p, direction)
  {
    var none := (LONG_MAX, '?');
    ConsideredIsBetter(z, g, p, direction, '^', none);
    var up := Considered(z, g, p, direction, '^', none).value;
    ConsideredIsBetter(z, g, p, direction, 'v', up);
    var vertical := Considered(z, g, p, direction, 'v', up).value;
    ConsideredIsBetter(z, g, p, direction, '<', vertical);
    var left := Considered(z, g, p, direction, '<', vertical).value;
    ConsideredIsBetter(z, g, p, direction, '>', left);
  }

  // ---------- the walk ----------

  datatype Heading = Heading(pos: Pos, direction: char)

  /** Turn to the best move and make it; stay where there is none. */
  function MoveOn(z: Maze, g: Field, h: Heading): Heading
    requires Shaped(z, g)
  {
    if !Readable(z, h.pos, h.direction) then h
    else
      var c := BestMove(z, g, h.pos, h.direction);
      if c == '?' then h else Heading(Step(h.pos, c), c)
  }

  /** n moves on an unchanging map. */
  function Walk(z: Maze, g: Field, h: Heading, n: nat): Heading
    requires Shaped(z, g)
    decreases n
  {
    if n == 0 then h else Walk(z, g, MoveOn(z, g, h), n - 1)
  }

  lemma BackAndForth(p: Pos, c: Direction)
    ensures Step(Step(p, c), Opposite(c)) == p && Opposite(Opposite(c)) == c
  {
  }

  lemma InsideReadable(z: Maze, p: Pos, direction: char)
    requires Inside(z, p)
    ensures Readable(z, p, direction)
    ensures forall c: Direction :: Allowed(z, p, direction, c) <==> direction != Opposite(c) && Inside(z, Step(p, c))
  {
  }

  /** A free cell one step from the end of a shortest path is at most one step nearer. */
  lemma NeighbourDistance(z: Maze, g: Field, p: Pos, q: Pos)
    requires Solved(z, g) && Free(z, p) && Free(z, q) && Adjacent(q, p)
    ensures At(z, g, p) <= INT_MAX && (At(z, g, q) == INT_MAX || At(z, g, p) <= At(z, g, q) + 1)
  {
    if At(z, g, q) != INT_MAX {
      var path :| PathTo(z, path, q) && |path| == At(z, g, q) + 1;
      OneStepMore(z, path, q, p);
    }
  }

  /** A free cell at distance v > 0 has a free neighbour at distance v - 1. */
  lemma NearerNeighbour(z: Maze, g: Field, p: Pos) returns (c: Direction)
    requires Solved(z, g) && (forall q :: q in z.goals ==> Inside(z, q))
    requires Free(z, p) && 0 < At(z, g, p) < INT_MAX
    ensures Free(z, Step(p, c)) && At(z, g, Step(p, c)) == At(z, g, p) - 1
  {
    var path :| PathTo(z, path, p) && |path| == At(z, g, p) + 1;
    OneStepLess(z, path);
    var q := path[|path| - 2];
    assert PathTo(z, path[..|path| - 1], q);
    assert Free(z, q);
    c := if p == Step(q, '^') then 'v' else if p == Step(q, 'v') then '^' else if p == Step(q, '<') then '>' else '<';
    assert Step(p, c) == q;
    NeighbourDistance(z, g, p, q);
  }

  /** A snake that has just moved to where it is, at distance v, from a wall or from a cell farther away. */
  ghost predicate OnCourse(z: Maze, g: Field, h: Heading, v: int) {
    && Shaped(z, g) && Free(z, h.pos) && At(z, g, h.pos) == v && 0 <= v < INT_MAX
    && (h.direction == '^' || h.direction == 'v' || h.direction == '<' || h.direction == '>')
    && var from := Step(h.pos, Opposite(h.direction));
       Inside(z, from) ==> At(z, g, from) < 0 || At(z, g, from) > v
  }

  /** The ban on turning back never stands in the way: the best move leads one step nearer. */
  lemma StaysOnCourse(z: Maze, g: Field, h: Heading, v: int)
    requires Solved(z, g) && (forall q :: q in z.goals ==> Inside(z, q))
    requires OnCourse(z, g, h, v) && v > 0
    ensures OnCourse(z, g, MoveOn(z, g, h), v - 1)
  {
    InsideReadable(z, h.pos, h.direction);
    var d := NearerNeighbour(z, g, h.pos);
    assert Option(z, g, h.pos, h.direction, d);
    var m := BestMove(z, g, h.pos, h.direction);
    assert m != '?';
    BackAndForth(h.pos, m);
    NeighbourDistance(z, g, h.pos, Step(h.pos, m));
  }

  /** From here the best move leads one step nearer. */
  ghost predicate LeadsOn(z: Maze, g: Field, h: Heading, v: int)
    requires Shaped(z, g)
  {
    OnCourse(z, g, h, v) && v > 0 ==> OnCourse(z, g, MoveOn(z, g, h), v - 1)
  }

  /** Once on course at distance v, the snake is k steps nearer after k moves. */
  lemma {:induction false} CourseHolds(z: Maze, g: Field, h: Heading, v: int, k: nat)
    requires Shaped(z, g) && (forall i, w :: LeadsOn(z, g, i, w))
    requires OnCourse(z, g, h, v) && k <= v
    ensures OnCourse(z, g, Walk(z, g, h, k), v - k)
    decreases k
  {
    if k > 0 {
      assert LeadsOn(z, g, h, v);
      CourseHolds(z, g, MoveOn(z, g, h), v - 1, k - 1);
    }
  }

  /** A free cell is at distance 0 exactly when there is an uncovered goal on it. */
  lemma ZeroIsGoal(z: Maze, g: Field, p: Pos)
    requires Solved(z, g) && Free(z, p)
    ensures At(z, g, p) == 0 <==> Seed(z, p)
  {
    if Seed(z, p) {
      assert PathTo(z, [p], p);
    } else if At(z, g, p) == 0 {
      var path :| PathTo(z, path, p) && |path| == 1;
    }
  }

  /** The first move puts a snake on course. */
  lemma SetsOut(z: Maze, g: Field, h: Heading)
    requires Solved(z, g) && Inside(z, h.pos) && h.pos in z.walls
    requires Readable(z, h.pos, h.direction) && BestMove(z, g, h.pos, h.direction) != '?'
    requires At(z, g, MoveOn(z, g, h).pos) < INT_MAX
    ensures OnCourse(z, g, MoveOn(z, g, h), At(z, g, MoveOn(z, g, h).pos))
  {
    InsideReadable(z, h.pos, h.direction);
    BackAndForth(h.pos, BestMove(z, g, h.pos, h.direction));
  }

  /**
   A head on the map whose first chosen neighbour is at a finite distance v reaches a goal with its
   move number 1 + v and no earlier, and every cell it enters until then is free.
   */
  lemma GreedyArrives(z: Maze, g: Field, h: Heading, k: nat)
    requires Solved(z, g) && (forall q :: q in z.goals ==> Inside(z, q))
    requires Inside(z, h.pos) && h.pos in z.walls
    requires Readable(z, h.pos, h.direction) && BestMove(z, g, h.pos, h.direction) != '?'
    requires k <= At(z, g, Step(h.pos, BestMove(z, g, h.pos, h.direction))) < INT_MAX
    ensures Free(z, Walk(z, g, h, 1 + k).pos)
    ensures At(z, g, Walk(z, g, h, 1 + k).pos) == At(z, g, Step(h.pos, BestMove(z, g, h.pos, h.direction))) - k
    ensures Seed(z, Walk(z, g, h, 1 + k).pos) <==> k == At(z, g, Step(h.pos, BestMove(z, g, h.pos, h.direction)))
  {
    forall i, w ensures LeadsOn(z, g, i, w) {
      if OnCourse(z, g, i, w) && w > 0 {
        StaysOnCourse(z, g, i, w);
      }
    }
    SetsOut(z, g, h);
    CourseHolds(z, g, MoveOn(z, g, h), At(z, g, MoveOn(z, g, h).pos), k);
    ZeroIsGoal(z, g, Walk(z, g, h, 1 + k).pos);
  }
}
