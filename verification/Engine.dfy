/**
 The simulation as a function: what one tick does to a game, and which records it produces.
 The class SnakeServer is the same thing as methods that update fields in place.
 */
module Engine {
  import opened LittleEndian
  import opened Tables
  import opened Chains
  import opened Protocol

  const MIN_FOOD_IN_ARENA: nat := 6
  const FOOD_SPAWN_FROM_BODY_SEGMENT_PROBABILITY := 3
  const SPEED_BOOST_PROBABILITY := 80
  const NANOS_PER_MS := 1_000_000
  const GRID_CELL_VALUES := 65536   // a grid cell is a uint16_t
  const WHITE := 1

  /** Settings, and the random source: given its state and a range it returns a number and its next state. */
  datatype RawConfig = Config(
    width: int, height: int, movementFrequencyMs: int, boostedMovementFrequencyMs: int, boostDurationMs: int,
    draw: (nat, int, int) -> (int, nat))

  /** Numbers are drawn in range. */
  ghost predicate DrawsInRange(draw: (nat, int, int) -> (int, nat)) {
    forall gen, lo, hi :: lo <= hi ==> lo <= draw(gen, lo, hi).0 <= hi
  }

  /** The arena is large enough for the spawn area, which keeps six cells from the borders. */
  type Config = c: RawConfig | c.width >= 12 && c.height >= 12 && DrawsInRange(c.draw)
    witness RawConfig.Config(40, 40, 200, 133, 8000, (g: nat, lo: int, hi: int) => (lo, g))

  function Draw(cfg: Config, gen: nat, lo: int, hi: int): (r: (int, nat))
    requires lo <= hi
    ensures lo <= r.0 <= hi
  {
    cfg.draw(gen, lo, hi)
  }

  datatype Player = Player(
    chain: Chain, direction: Direction, nextDirection: Direction, name: Bytes, score: int, color: int,
    frequencyMs: int, nextMoveTime: int, boosted: bool, boostExpireTime: int)

  datatype HighScore = HighScore(name: Bytes, score: int)

  type Players = Table<Int32, Player>
  type Items = Table<Pos, Food>

  datatype Game = Game(players: Players, food: Items, boosts: Items, gen: nat, high: HighScore)

  const NO_NAME: Bytes := [0, 0, 0, 0, 0, 0, 0, 0, 0, 0, 0, 0, 0, 0, 0, 0]

  function NewGame(seed: nat): Game {
    Game(Empty(), Empty(), Empty(), seed, HighScore(NO_NAME, 0))
  }

  predicate InArena(cfg: Config, p: Pos) {
    1 <= p.x <= cfg.width && 1 <= p.y <= cfg.height
  }

  function Head(p: Player): Pos {
    p.chain[0].pos
  }

  // ---------- food ----------

  function PlaceFoodAt(food: Items, c: Pos, color: int): Items {
    Put(food, c, Food(color, '@', c.x, c.y))
  }

  function PlaceFood(cfg: Config, food: Items, gen: nat): (Items, nat) {
    var (x, g1) := Draw(cfg, gen, 1, cfg.width - 1);
    var (y, g2) := Draw(cfg, g1, 1, cfg.height - 1);
    (PlaceFoodAt(food, Pos(x, y), WHITE), g2)
  }

  /** At most n turns of the loop that places food until there is enough of it. */
  function Refill(cfg: Config, food: Items, gen: nat, n: nat): (Items, nat)
    decreases n
  {
    if |food.keys| >= MIN_FOOD_IN_ARENA || n == 0 then (food, gen)
    else
      var (f, g) := PlaceFood(cfg, food, gen);
      Refill(cfg, f, g, n - 1)
  }

  predicate Refilled(cfg: Config, food: Items, gen: nat, n: nat) {
    |Refill(cfg, food, gen, n).0.keys| >= MIN_FOOD_IN_ARENA
  }

  /** The loop ends: some number of turns is enough. */
  ghost predicate Refillable(cfg: Config, food: Items, gen: nat) {
    exists n: nat :: Refilled(cfg, food, gen, n)
  }

  /** The one assumption about the random source: placing food cannot keep hitting occupied cells
      for ever, from any of its states. */
  ghost predicate Fair(cfg: Config) {
    forall food: Items, gen: nat :: Refillable(cfg, food, gen)
  }

  /** Where the loop ends. (Where it does not end, the value has no meaning.) */
  ghost function ReplaceFood(cfg: Config, food: Items, gen: nat): (Items, nat) {
    if Refillable(cfg, food, gen) then
      var n: nat :| Refilled(cfg, food, gen, n);
      Refill(cfg, food, gen, n)
    else (food, gen)
  }

  /** A turn more than enough changes nothing. */
  lemma {:induction false} RefillEnds(cfg: Config, food: Items, gen: nat, n: nat)
    requires Refilled(cfg, food, gen, n)
    ensures Refill(cfg, food, gen, n + 1) == Refill(cfg, food, gen, n)
    decreases n
  {
    if |food.keys| < MIN_FOOD_IN_ARENA {
      var next := PlaceFood(cfg, food, gen);
      RefillEnds(cfg, next.0, next.1, n - 1);
    }
  }

  /** However many turns are allowed, if they are enough the loop ends in the same place. */
  lemma {:induction false} RefillSettles(cfg: Config, food: Items, gen: nat, n: nat, m: nat)
    requires Refilled(cfg, food, gen, n) && n <= m
    ensures Refill(cfg, food, gen, m) == Refill(cfg, food, gen, n)
    decreases m
  {
    if n < m {
      RefillSettles(cfg, food, gen, n, m - 1);
      RefillEnds(cfg, food, gen, m - 1);
    }
  }

  lemma ReplaceFoodIs(cfg: Config, food: Items, gen: nat, n: nat)
    requires Refilled(cfg, food, gen, n)
    ensures ReplaceFood(cfg, food, gen) == Refill(cfg, food, gen, n)
  {
    var m: nat :| Refilled(cfg, food, gen, m) && ReplaceFood(cfg, food, gen) == Refill(cfg, food, gen, m);
    if n <= m { RefillSettles(cfg, food, gen, n, m); } else { RefillSettles(cfg, food, gen, m, n); }
  }

  lemma ReplaceFoodFills(cfg: Config, food: Items, gen: nat)
    requires Fair(cfg)
    ensures |ReplaceFood(cfg, food, gen).0.keys| >= MIN_FOOD_IN_ARENA
  {
    assert Refillable(cfg, food, gen);
  }

  lemma EnoughFood(cfg: Config, food: Items, gen: nat)
    requires |food.keys| >= MIN_FOOD_IN_ARENA
    ensures ReplaceFood(cfg, food, gen) == (food, gen)
  {
    ReplaceFoodIs(cfg, food, gen, 0);
  }

  // ---------- messages ----------

  /** The record of a message: its transact time is the tick's. Numbering comes later. */
  function Stamp(m: Message, now: int): Message {
    m.(hdr := m.hdr.(sequence := 0, transactTime := now))
  }

  /** What a step produces: the new game, the records it logs, whether clients must be told. */
  datatype Outcome = Outcome(game: Game, records: seq<Message>, changed: bool)

  /** The remainder of a division that rounds toward zero: it has the sign of a. */
  function Remainder(a: int, n: nat): int
    requires n > 0
  {
    if a >= 0 then a % n else -(-a % n)
  }

  function SpawnPlayer(cfg: Config, id: Int32, name: Bytes, at: Pos, now: int): Player {
    Player(Spawn(at), '^', '^', name, 1, Remainder(id, 5) + 2, cfg.movementFrequencyMs,
           now + cfg.movementFrequencyMs * NANOS_PER_MS, false, now)
  }

  function SpawnCell(cfg: Config, gen: nat): (Pos, nat) {
    var (x, g1) := Draw(cfg, gen, 6, cfg.width - 6);
    var (y, g2) := Draw(cfg, g1, 6, cfg.height - 6);
    (Pos(x, y), g2)
  }

  /** A client that already has a player keeps it. */
  function AddPlayer(t: Players, id: Int32, p: Player): Players {
    if Has(t, id) then t else Put(t, id, p)
  }

  /** A join draws a spawn cell in any case. */
  function CreateNewPlayer(cfg: Config, g: Game, now: int, id: Int32, name: Bytes): Game {
    var (cell, gen) := SpawnCell(cfg, g.gen);
    g.(gen := gen, players := AddPlayer(g.players, id, SpawnPlayer(cfg, id, name, cell, now)))
  }

  /** A key changes the next direction, unless it is unknown or points backwards. */
  function Turn(p: Player, input: char): Player {
    if input == '^' then (if p.direction != 'v' then p.(nextDirection := '^') else p)
    else if input == 'v' then (if p.direction != '^' then p.(nextDirection := 'v') else p)
    else if input == '<' then (if p.direction != '>' then p.(nextDirection := '<') else p)
    else if input == '>' then (if p.direction != '<' then p.(nextDirection := '>') else p)
    else p
  }

  function Welcome(id: Int32, now: int): Message {
    ServerWelcome(Header(SERVER_WELCOME, id, 0, now))
  }

  function ApplyOne(cfg: Config, g: Game, now: int, m: Message): Outcome {
    var record := Stamp(m, now);
    var id := m.hdr.clientId;
    match m
    case ClientJoin(_, name) =>
      Outcome(CreateNewPlayer(cfg, g, now, id, name), [record, Welcome(id, now)], true)
    case ClientInput(_, input) =>
      if Has(g.players, id) then
        Outcome(g.(players := Put(g.players, id, Turn(g.players.m[id], input))), [record], false)
      else
        Outcome(g, [record], false)
    case ClientDisconnect(_) =>
      Outcome(if Has(g.players, id) then g.(players := Erase(g.players, id)) else g, [record], true)
    case _ => Outcome(g, [record], false)
  }

  /** The records that a message causes besides its own. */
  function Answers(m: Message, now: int): seq<Message> {
    if m.ClientJoin? then [Welcome(m.hdr.clientId, now)] else []
  }

  lemma RecordsOf(cfg: Config, g: Game, now: int, m: Message)
    ensures ApplyOne(cfg, g, now, m).records == [Stamp(m, now)] + Answers(m, now)
  {
  }

  /** One outcome after another. */
  function Then(first: Outcome, rest: Outcome): Outcome {
    Outcome(rest.game, first.records + rest.records, first.changed || rest.changed)
  }

  function ApplyAll(cfg: Config, g: Game, now: int, messages: seq<Message>): Outcome
    decreases |messages|
  {
    if messages == [] then Outcome(g, [], false)
    else
      var first := ApplyOne(cfg, g, now, messages[0]);
      Then(first, ApplyAll(cfg, first.game, now, messages[1..]))
  }

  // ---------- movement ----------

  function Expire(cfg: Config, p: Player, now: int): Player {
    if p.boosted && p.boostExpireTime <= now then
      p.(boosted := false, frequencyMs := cfg.movementFrequencyMs)
    else p
  }

  predicate Due(p: Player, now: int) {
    now >= p.nextMoveTime
  }

  function MoveSnake(p: Player, now: int): Player {
    p.(direction := p.nextDirection, chain := Move(p.chain, p.nextDirection),
       nextMoveTime := now + p.frequencyMs * NANOS_PER_MS)
  }

  function StepPlayer(cfg: Config, p: Player, now: int): Player {
    var q := Expire(cfg, p, now);
    if Due(q, now) then MoveSnake(q, now) else q
  }

  function UpdateSnakes(cfg: Config, g: Game, now: int): Game {
    g.(players := WithValues(g.players, map id | id in g.players.m :: StepPlayer(cfg, g.players.m[id], now)))
  }

  ghost predicate AnyDue(g: Game, now: int) {
    exists id :: id in g.players.m && Due(g.players.m[id], now)
  }

  // ---------- the grid of bodies ----------

  function Occurrences(cells: seq<Pos>, c: Pos): nat {
    if cells == [] then 0 else (if cells[0] == c then 1 else 0) + Occurrences(cells[1..], c)
  }

  /** How many body segments of the snakes ids are in cell c. */
  function BodyCount(m: map<Int32, Player>, ids: seq<Int32>, c: Pos): nat
    requires forall id :: id in ids ==> id in m
  {
    if ids == [] then 0 else Occurrences(Body(m[ids[0]].chain), c) + BodyCount(m, ids[1..], c)
  }

  /** What the grid's counter for cell c shows. */
  function Shown(players: Players, c: Pos): nat {
    BodyCount(players.m, players.keys, c) % GRID_CELL_VALUES
  }

  function Index(cfg: Config, c: Pos): int {
    (c.y - 1) * cfg.width + c.x - 1
  }

  // ---------- collisions ----------

  function HeadsIn(m: map<Int32, Player>, ids: seq<Int32>, c: Pos): (r: seq<Int32>)
    requires forall id :: id in ids ==> id in m
    ensures forall id :: id in r <==> id in ids && Head(m[id]) == c
  {
    if ids == [] then [] else
      assert forall id :: id in ids <==> id == ids[0] || id in ids[1..];
      (if Head(m[ids[0]]) == c then [ids[0]] else []) + HeadsIn(m, ids[1..], c)
  }

  /** Who moves earlier; the smaller id in a tie. */
  predicate Before(m: map<Int32, Player>, a: Int32, b: Int32)
    requires a in m && b in m
  {
    if m[a].nextMoveTime != m[b].nextMoveTime then m[a].nextMoveTime < m[b].nextMoveTime else a < b
  }

  function Earliest(m: map<Int32, Player>, ids: seq<Int32>): (e: Int32)
    requires ids != []
    requires forall id :: id in ids ==> id in m
    ensures e in ids && forall id :: id in ids && id != e ==> Before(m, e, id)
  {
    if |ids| == 1 then ids[0]
    else
      assert forall id :: id in ids <==> id == ids[0] || id in ids[1..];
      var e := Earliest(m, ids[1..]);
      if Before(m, e, ids[0]) then e else ids[0]
  }

  /** The state of a collision check: which players it has looked at shows in doomed and the rest. */
  datatype Clash = Clash(players: Players, food: Items, boosts: Items, high: HighScore, doomed: seq<Int32>)

  function Feed(p: Player): Player {
    p.(chain := Grow(p.chain), score := p.score + 1)
  }

  function Boost(cfg: Config, p: Player, now: int): Player {
    p.(boosted := true, frequencyMs := cfg.boostedMovementFrequencyMs,
       boostExpireTime := now + cfg.boostDurationMs * NANOS_PER_MS)
  }

  datatype Verdict = Dies | Eats | Speeds | Stays

  /** The branch that the check of one player takes. The grid was filled from the players bodies,
      before the check began. */
  function Decide(cfg: Config, bodies: Players, c: Clash, id: Int32): Verdict
    requires id in c.players.m
  {
    var head := Head(c.players.m[id]);
    var heads := HeadsIn(c.players.m, c.players.keys, head);
    if !InArena(cfg, head) || Shown(bodies, head) > 0 then Dies
    else if |heads| > 1 then (if id != Earliest(c.players.m, heads) then Dies else Stays)
    else if Has(c.food, head) then Eats
    else if Has(c.boosts, head) then Speeds
    else Stays
  }

  /** The player after that branch. */
  function Sentence(cfg: Config, v: Verdict, p: Player, now: int): Player {
    match v
    case Eats => Feed(p)
    case Speeds => Boost(cfg, p, now)
    case _ => p
  }

  /** Take the branch, then track the high score. */
  function Apply(cfg: Config, c: Clash, id: Int32, v: Verdict, now: int): (r: Clash)
    requires id in c.players.m
    ensures r.players.keys == c.players.keys && r.players.m.Keys == c.players.m.Keys
  {
    var p := Sentence(cfg, v, c.players.m[id], now);
    var head := Head(c.players.m[id]);
    var high := if p.score > c.high.score then HighScore(p.name, p.score) else c.high;
    match v
    case Dies => c.(doomed := c.doomed + [id], high := high)
    case Eats => c.(players := Put(c.players, id, p), food := Erase(c.food, head), high := high)
    case Speeds => c.(players := Put(c.players, id, p), boosts := Erase(c.boosts, head), high := high)
    case Stays => c.(high := high)
  }

  /** The check of one player. */
  function CollideOne(cfg: Config, bodies: Players, c: Clash, id: Int32, now: int): (r: Clash)
    requires id in c.players.m
    ensures r.players.keys == c.players.keys && r.players.m.Keys == c.players.m.Keys
  {
    Apply(cfg, c, id, Decide(cfg, bodies, c, id), now)
  }

  /** The check of the players in the given iteration order. */
  function CollideAll(cfg: Config, bodies: Players, c: Clash, order: seq<Int32>, now: int): (r: Clash)
    requires forall id :: id in order ==> id in c.players.m
    ensures r.players.keys == c.players.keys && r.players.m.Keys == c.players.m.Keys
    decreases |order|
  {
    if order == [] then c
    else CollideAll(cfg, bodies, CollideOne(cfg, bodies, c, order[0], now), order[1..], now)
  }

  function StartClash(g: Game): Clash {
    Clash(g.players, g.food, g.boosts, g.high, [])
  }

  /** Each cell of a dead snake's body becomes food with probability one in three. */
  function Scatter(cfg: Config, food: Items, gen: nat, cells: seq<Pos>, color: int): (Items, nat)
    decreases |cells|
  {
    if cells == [] then (food, gen)
    else
      var (v, g) := Draw(cfg, gen, 1, FOOD_SPAWN_FROM_BODY_SEGMENT_PROBABILITY);
      Scatter(cfg, if v == 1 then PlaceFoodAt(food, cells[0], color) else food, g, cells[1..], color)
  }

  function DestroyPlayer(cfg: Config, g: Game, id: Int32): Game
    requires Has(g.players, id)
  {
    var p := g.players.m[id];
    var (food, gen) := Scatter(cfg, g.food, g.gen, Body(p.chain), p.color);
    g.(food := food, gen := gen, players := Erase(g.players, id))
  }

  function DestroyPlayers(cfg: Config, g: Game, ids: seq<Int32>): Game
    decreases |ids|
  {
    if ids == [] || !Has(g.players, ids[0]) then g
    else DestroyPlayers(cfg, DestroyPlayer(cfg, g, ids[0]), ids[1..])
  }

  function AfterClash(g: Game, c: Clash): Game {
    g.(players := c.players, food := c.food, boosts := c.boosts, high := c.high)
  }

  function CheckCollisions(cfg: Config, g: Game, now: int): Game {
    var c := CollideAll(cfg, g.players, StartClash(g), g.players.keys, now);
    DestroyPlayers(cfg, AfterClash(g, c), c.doomed)
  }

  function PlaceSpeedBoost(cfg: Config, g: Game): Game {
    if g.boosts.keys != [] then g
    else
      var (v, g1) := Draw(cfg, g.gen, 1, SPEED_BOOST_PROBABILITY);
      if v != 1 then g.(gen := g1)
      else
        var (x, g2) := Draw(cfg, g1, 1, cfg.width - 1);
        var (y, g3) := Draw(cfg, g2, 1, cfg.height - 1);
        g.(gen := g3, boosts := Put(g.boosts, Pos(x, y), Food(WHITE, '*', x, y)))
  }

  // ---------- the broadcast ----------

  function SegmentsOf(cells: seq<Pos>): seq<Segment> {
    if cells == [] then [] else [Segment(cells[0].x, cells[0].y)] + SegmentsOf(cells[1..])
  }

  function PlayerStateOf(id: Int32, p: Player): PlayerState {
    PlayerState(id, p.color, p.direction, p.score, p.name, SegmentsOf(Positions(p.chain)))
  }

  function PlayerStates(m: map<Int32, Player>, ids: seq<Int32>): seq<PlayerState>
    requires forall id :: id in ids ==> id in m
  {
    if ids == [] then [] else [PlayerStateOf(ids[0], m[ids[0]])] + PlayerStates(m, ids[1..])
  }

  function ItemList(m: map<Pos, Food>, cells: seq<Pos>): seq<Food>
    requires forall c :: c in cells ==> c in m
  {
    if cells == [] then [] else [m[cells[0]]] + ItemList(m, cells[1..])
  }

  function BuildGameState(g: Game, now: int): Message {
    GameState(Header(GAME_STATE, -1, 0, now), g.high.score, g.high.name,
              ItemList(g.food.m, g.food.keys), ItemList(g.boosts.m, g.boosts.keys),
              PlayerStates(g.players.m, g.players.keys))
  }

  lemma {:induction false} PlayerStatesAt(m: map<Int32, Player>, ids: seq<Int32>, i: nat)
    requires (forall id :: id in ids ==> id in m) && i < |ids|
    ensures |PlayerStates(m, ids)| == |ids|
    ensures ids[i] in m && PlayerStates(m, ids)[i] == PlayerStateOf(ids[i], m[ids[i]])
  {
    assert ids[0] in ids;
    forall id | id in ids[1..] ensures id in m { assert id in ids; }
    if i > 0 {
      PlayerStatesAt(m, ids[1..], i - 1);
    } else if |ids| > 1 {
      PlayerStatesAt(m, ids[1..], 0);
    }
  }

  const SPEED_BOOST_RATIO: Bytes := [0, 0, 192, 63]   // 1.5 as a float

  /** The record that opens a log. */
  function ConfigRecord(cfg: Config, seed: nat, now: int): Message {
    ServerConfig(Header(SERVER_CONFIG, -1, 0, now), cfg.width, cfg.height, seed, MIN_FOOD_IN_ARENA,
                 FOOD_SPAWN_FROM_BODY_SEGMENT_PROBABILITY, SPEED_BOOST_PROBABILITY, SPEED_BOOST_RATIO,
                 cfg.movementFrequencyMs, cfg.boostedMovementFrequencyMs, cfg.boostDurationMs)
  }

  // ---------- one tick ----------

  ghost function ReplaceFoodIn(cfg: Config, g: Game): Game {
    var (food, gen) := ReplaceFood(cfg, g.food, g.gen);
    g.(food := food, gen := gen)
  }

  /** Movement and, if any snake moved, what follows from it. */
  ghost function Advance(cfg: Config, g: Game, now: int): Game {
    var h := UpdateSnakes(cfg, g, now);
    if AnyDue(g, now) then PlaceSpeedBoost(cfg, CheckCollisions(cfg, h, now)) else h
  }

  /** The part of a tick after the messages: movement, and the broadcast if there is news. */
  ghost function Finish(cfg: Config, a: Outcome, now: int): Outcome {
    var h := Advance(cfg, a.game, now);
    var changed := a.changed || AnyDue(a.game, now);
    Outcome(h, a.records + if changed then [BuildGameState(h, now)] else [], changed)
  }

  /** One turn of the engine's loop. */
  ghost function Tick(cfg: Config, g: Game, now: int, messages: seq<Message>): Outcome {
    Finish(cfg, ApplyAll(cfg, ReplaceFoodIn(cfg, g), now, messages), now)
  }

  /** What one poll returned: the time of the tick and the messages, disconnects included. */
  datatype Poll = Poll(at: int, messages: seq<Message>)

  ghost function Run(cfg: Config, g: Game, polls: seq<Poll>): (r: (Game, seq<Message>))
    decreases |polls|
  {
    if polls == [] then (g, [])
    else
      var t := Tick(cfg, g, polls[0].at, polls[0].messages);
      var rest := Run(cfg, t.game, polls[1..]);
      (rest.0, t.records + rest.1)
  }

  function WithSequence(m: Message, n: int): Message {
    m.(hdr := m.hdr.(sequence := n))
  }

  /** The log: record i of a list carries sequence number from + i. */
  function Number(records: seq<Message>, from: int): (r: seq<Message>)
    ensures |r| == |records|
  {
    if records == [] then [] else [WithSequence(records[0], from)] + Number(records[1..], from + 1)
  }

  lemma {:induction false} NumberAt(records: seq<Message>, from: int, i: nat)
    requires i < |records|
    ensures Number(records, from)[i] == WithSequence(records[i], from + i)
  {
    if i > 0 { NumberAt(records[1..], from + 1, i - 1); }
  }

  lemma {:induction false} NumberConcat(a: seq<Message>, b: seq<Message>, from: int)
    ensures Number(a + b, from) == Number(a, from) + Number(b, from + |a|)
  {
    if a == [] {
      assert a + b == b;
    } else {
      NumberConcat(a[1..], b, from + 1);
      assert (a + b)[1..] == a[1..] + b && (a + b)[0] == a[0];
      NumberHead(a + b, from);
      NumberHead(a, from);
      var first := [WithSequence(a[0], from)];
      var more, rest := Number(a[1..], from + 1), Number(b, from + |a|);
      assert first + (more + rest) == (first + more) + rest;
    }
  }

  lemma NumberHead(a: seq<Message>, from: int)
    requires a != []
    ensures Number(a, from) == [WithSequence(a[0], from)] + Number(a[1..], from + 1)
  {
  }
}
