/** A bot in a game: what the server tells it, and where following its map leads. */
module Bot {
  import opened LittleEndian
  import opened Tables
  import opened Chains
  import opened Protocol
  import opened Engine
  import opened Invariants
  import opened Mazes
  import opened Steering
  import opened Pathfinder

  function ItemCells(items: seq<Food>): seq<Pos> {
    if items == [] then [] else [Pos(items[0].x, items[0].y)] + ItemCells(items[1..])
  }

  function SegmentCells(segments: seq<Segment>): seq<Pos> {
    if segments == [] then [] else [Pos(segments[0].x, segments[0].y)] + SegmentCells(segments[1..])
  }

  function SnakeOf(p: PlayerState): Snake {
    Snake(p.direction, SegmentCells(p.segments))
  }

  function Snakes(t: Table<Int32, Snake>, players: seq<PlayerState>): Table<Int32, Snake>
    decreases |players|
  {
    if players == [] then t else Snakes(Put(t, players[0].clientId, SnakeOf(players[0])), players[1..])
  }

  /** What the bot keeps of a game state message. */
  function FromProtocol(m: Message): View
    requires m.GameState?
  {
    View(Snakes(Empty(), m.players), ItemCells(m.food), ItemCells(m.speedBoosts))
  }

  lemma {:induction false} SegmentsArrive(cells: seq<Pos>)
    ensures SegmentCells(SegmentsOf(cells)) == cells
  {
    if cells != [] {
      SegmentsArrive(cells[1..]);
    }
  }

  lemma {:induction false} ItemsArrive(m: map<Pos, Food>, cells: seq<Pos>)
    requires forall c :: c in cells ==> c in m && m[c].x == c.x && m[c].y == c.y
    ensures ItemCells(ItemList(m, cells)) == cells
  {
    if cells != [] {
      ItemsArrive(m, cells[1..]);
    }
  }

  /** A broadcast shows every player once, in iteration order, as it is. */
  lemma BroadcastShows(g: Game, now: int, i: nat)
    requires i < |g.players.keys|
    ensures |BuildGameState(g, now).players| == |g.players.keys|
    ensures var id := g.players.keys[i];
      var p, shown := g.players.m[id], BuildGameState(g, now).players[i];
      && shown.clientId == id && shown.score == p.score && shown.color == p.color && shown.username == p.name
      && SnakeOf(shown) == Seen(p)
  {
    var p := g.players.m[g.players.keys[i]];
    PlayerStatesAt(g.players.m, g.players.keys, i);
    SegmentsArrive(Positions(p.chain));
  }

  /** A player as the bot sees it. */
  function Seen(p: Player): Snake {
    Snake(p.direction, Positions(p.chain))
  }

  lemma {:induction false} SnakesArrive(t: Table<Int32, Snake>, m: map<Int32, Player>, ids: seq<Int32>)
    requires forall id :: id in ids ==> id in m
    ensures var r := Snakes(t, PlayerStates(m, ids)).m;
      && (forall id :: id in r <==> id in ids || id in t.m)
      && (forall id :: id in r ==> r[id] == if id in ids then Seen(m[id]) else t.m[id])
    decreases |ids|
  {
    if ids != [] {
      var p := PlayerStateOf(ids[0], m[ids[0]]);
      SegmentsArrive(Positions(m[ids[0]].chain));
      assert PlayerStates(m, ids)[0] == p && PlayerStates(m, ids)[1..] == PlayerStates(m, ids[1..]);
      SnakesArrive(Put(t, ids[0], SnakeOf(p)), m, ids[1..]);
    }
  }

  lemma {:induction false} WallsInside(snakes: map<Int32, Snake>, ids: seq<Int32>, z: Maze)
    requires forall id :: id in ids ==> id in snakes
    requires forall id :: id in ids ==> forall p :: p in snakes[id].segments ==> Inside(z, p)
    ensures forall p :: p in Walls(snakes, ids) ==> Inside(z, p)
    decreases |ids|
  {
    if ids != [] {
      WallsInside(snakes, ids[..|ids| - 1], z);
      assert ids[|ids| - 1] in ids;
    }
  }

  /** The view that a broadcast of this game leads to, as a maze. */
  function ServedMaze(cfg: Config, g: Game, now: int): Maze {
    MazeOf(FromProtocol(BuildGameState(g, now)), cfg.width, cfg.height)
  }

  lemma ChainInside(cfg: Config, p: Player)
    requires Invariants.Sound(cfg, p)
    ensures forall q :: q in Positions(p.chain) ==> InArena(cfg, q)
  {
  }

  lemma GoalsServed(cfg: Config, g: Game, now: int)
    requires ItemsInside(cfg, g.food) && ItemsInside(cfg, g.boosts)
    ensures ServedMaze(cfg, g, now).goals == g.food.keys + g.boosts.keys
  {
    ItemsArrive(g.food.m, g.food.keys);
    ItemsArrive(g.boosts.m, g.boosts.keys);
  }

  /** The bot keeps every player of the game and no other. */
  lemma PlayersServed(g: Game, now: int)
    ensures var players := FromProtocol(BuildGameState(g, now)).players;
      && (forall id :: Has(players, id) <==> Has(g.players, id))
      && (forall id :: Has(players, id) ==> players.m[id] == Seen(g.players.m[id]))
  {
    SnakesArrive(Empty(), g.players.m, g.players.keys);
  }

  lemma SnakesInside(cfg: Config, g: Game, t: Table<Int32, Snake>, z: Maze)
    requires GoodGame(cfg, g) && z.width == cfg.width && z.height == cfg.height
    requires forall id :: Has(t, id) ==> Has(g.players, id) && t.m[id] == Seen(g.players.m[id])
    ensures forall p :: p in Walls(t.m, t.keys) ==> Inside(z, p)
  {
    forall id | id in t.keys ensures forall p :: p in t.m[id].segments ==> Inside(z, p) {
      assert Has(t, id);
      ChainInside(cfg, g.players.m[id]);
    }
    WallsInside(t.m, t.keys, z);
  }

  lemma WallsServed(cfg: Config, g: Game, now: int)
    requires GoodGame(cfg, g)
    ensures forall p :: p in ServedMaze(cfg, g, now).walls ==> InArena(cfg, p)
  {
    PlayersServed(g, now);
    SnakesInside(cfg, g, FromProtocol(BuildGameState(g, now)).players, ServedMaze(cfg, g, now));
  }

  lemma HeadsServed(cfg: Config, g: Game, now: int, id: Int32)
    requires id in g.players.m
    ensures Head(g.players.m[id]) in ServedMaze(cfg, g, now).walls
  {
    var players := FromProtocol(BuildGameState(g, now)).players;
    PlayersServed(g, now);
    assert Has(players, id);
    var i :| 0 <= i < |players.keys| && players.keys[i] == id;
    assert Positions(g.players.m[id].chain)[0] == Head(g.players.m[id]);
    SegmentIsWall(players.m, players.keys, i, Head(g.players.m[id]));
  }

  /** In every reachable game the bot's maze has exactly the game's food and boosts as goals, these and
      the walls are in the arena, and every snake's head is a wall. */
  lemma ServedMazeIsSound(cfg: Config, g: Game, now: int)
    requires Paced(cfg) && Reachable(cfg, g)
    ensures Wellformed(ServedMaze(cfg, g, now))
    ensures forall p :: p in ServedMaze(cfg, g, now).goals <==> p in g.food.m || p in g.boosts.m
    ensures forall p :: p in ServedMaze(cfg, g, now).goals ==> InArena(cfg, p)
    ensures forall p :: p in ServedMaze(cfg, g, now).walls ==> InArena(cfg, p)
    ensures forall id :: id in g.players.m ==>
      InArena(cfg, Head(g.players.m[id])) && Head(g.players.m[id]) in ServedMaze(cfg, g, now).walls
  {
    ReachableIsGood(cfg, g);
    GoalsServed(cfg, g, now);
    WallsServed(cfg, g, now);
    forall id | id in g.players.m ensures Head(g.players.m[id]) in ServedMaze(cfg, g, now).walls {
      HeadsServed(cfg, g, now, id);
    }
  }

  /**
   In every reachable game, a bot that has rebuilt its map from the broadcast and finds a first move to
   a cell at a finite distance v gets to food or a boost with its move number 1 + v, if nothing else
   moves meanwhile.
   */
  lemma BotArrives(cfg: Config, g: Game, now: int, f: Field, id: Int32, k: nat)
    requires Paced(cfg) && Reachable(cfg, g) && id in g.players.m
    requires Solved(ServedMaze(cfg, g, now), f)
    ensures Readable(ServedMaze(cfg, g, now), Head(g.players.m[id]), g.players.m[id].direction)
    ensures var z := ServedMaze(cfg, g, now);
      var h := Steering.Heading(Head(g.players.m[id]), g.players.m[id].direction);
      var m := BestMove(z, f, h.pos, h.direction);
      m != '?' && k <= At(z, f, Step(h.pos, m)) < INT_MAX ==>
        && Free(z, Walk(z, f, h, 1 + k).pos)
        && (k == At(z, f, Step(h.pos, m)) <==>
             Walk(z, f, h, 1 + k).pos in g.food.m || Walk(z, f, h, 1 + k).pos in g.boosts.m)
  {
    var z := ServedMaze(cfg, g, now);
    var h := Steering.Heading(Head(g.players.m[id]), g.players.m[id].direction);
    ServedMazeIsSound(cfg, g, now);
    InsideReadable(z, h.pos, h.direction);
    var m := BestMove(z, f, h.pos, h.direction);
    if m != '?' && k <= At(z, f, Step(h.pos, m)) < INT_MAX {
      GreedyArrives(z, f, h, k);
    }
  }
}
