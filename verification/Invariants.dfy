/** What every reachable game satisfies, tick after tick. */
module Invariants {
  import opened LittleEndian
  import opened Tables
  import opened Chains
  import opened Lives
  import opened Protocol
  import opened Engine
  import opened Collisions
  import opened Survivors

  // ---------- one player ----------

  function Gap(cfg: Config): int {
    cfg.boostedMovementFrequencyMs * NANOS_PER_MS
  }

  /** Boosted snakes are not slower than others. */
  predicate Paced(cfg: Config) {
    0 <= cfg.boostedMovementFrequencyMs <= cfg.movementFrequencyMs
  }

  /** The player is what this life made of a snake spawned there: its body, the way it faces, its
      score, its speed, and when it may move again. */
  ghost predicate Lived(cfg: Config, p: Player, spawn: Pos, life: Life) {
    && p.chain == ChainOf(spawn, life)
    && NeverReverses(life) && p.direction == Heading(life) && p.nextDirection != Opposite(p.direction)
    && p.score == |p.chain|
    && p.frequencyMs == (if p.boosted then cfg.boostedMovementFrequencyMs else cfg.movementFrequencyMs)
    && Spaced(MoveTimes(life), Gap(cfg))
    && (forall i :: 0 <= i < |MoveTimes(life)| ==> MoveTimes(life)[i] + Gap(cfg) <= p.nextMoveTime)
  }

  /** Everything but the head's position is in the arena. */
  predicate BodyInside(cfg: Config, c: Chain) {
    forall i :: 0 <= i < |c| ==> InArena(cfg, c[i].prev) && (i > 0 ==> InArena(cfg, c[i].pos))
  }

  ghost predicate Roaming(cfg: Config, p: Player) {
    BodyInside(cfg, p.chain) && exists spawn, life :: Lived(cfg, p, spawn, life)
  }

  ghost predicate Sound(cfg: Config, p: Player) {
    Roaming(cfg, p) && InArena(cfg, Head(p))
  }

  lemma SpawnIsSound(cfg: Config, id: Int32, name: Bytes, at: Pos, now: int)
    requires InArena(cfg, at)
    ensures Sound(cfg, SpawnPlayer(cfg, id, name, at, now))
  {
    assert Lived(cfg, SpawnPlayer(cfg, id, name, at, now), at, []);
  }

  // What each thing that can happen to a player does to the life behind it.

  lemma TurnLives(cfg: Config, p: Player, input: char, spawn: Pos, life: Life)
    requires Lived(cfg, p, spawn, life)
    ensures Lived(cfg, Turn(p, input), spawn, life)
  {
  }

  lemma TurnIsSound(cfg: Config, p: Player, input: char)
    requires Sound(cfg, p)
    ensures Sound(cfg, Turn(p, input))
  {
    var spawn, life :| Lived(cfg, p, spawn, life);
    TurnLives(cfg, p, input, spawn, life);
  }

  lemma ExpireLives(cfg: Config, p: Player, now: int, spawn: Pos, life: Life)
    requires Lived(cfg, p, spawn, life)
    ensures Lived(cfg, Expire(cfg, p, now), spawn, life)
  {
  }

  lemma MoveKeepsInside(cfg: Config, c: Chain, p: Pos)
    requires BodyInside(cfg, c) && InArena(cfg, c[0].pos)
    ensures BodyInside(cfg, MoveTo(c, p))
  {
    MoveToAt(c, p);
    var r := MoveTo(c, p);
    forall i | 0 <= i < |r| ensures InArena(cfg, r[i].prev) && (i > 0 ==> InArena(cfg, r[i].pos)) {
      if i > 0 { assert r[i] == Node(c[i - 1].pos, c[i].pos); }
    }
  }

  lemma MovedLife(life: Life, d: Direction, now: int)
    ensures var l := life + [Moved(d, now)]; l != [] && Earlier(l) == life && Latest(l) == Moved(d, now)
  {
  }

  lemma GrownLife(life: Life)
    ensures var l := life + [Grew]; l != [] && Earlier(l) == life && Latest(l) == Grew
  {
  }

  /** A due player's move is one more event, at this time and in the direction asked for. */
  lemma MoveLives(cfg: Config, p: Player, now: int, spawn: Pos, life: Life)
    requires Paced(cfg) && Lived(cfg, p, spawn, life) && Due(p, now)
    ensures Lived(cfg, MoveSnake(p, now), spawn, life + [Moved(p.nextDirection, now)])
  {
    var l := life + [Moved(p.nextDirection, now)];
    MovedLife(life, p.nextDirection, now);
    assert MoveTimes(l) == MoveTimes(life) + [now];
    assert p.frequencyMs * NANOS_PER_MS >= Gap(cfg);
  }

  lemma StepLives(cfg: Config, p: Player, now: int, spawn: Pos, life: Life)
    requires Paced(cfg) && Lived(cfg, p, spawn, life)
    ensures Lived(cfg, StepPlayer(cfg, p, now), spawn,
                  if Due(p, now) then life + [Moved(p.nextDirection, now)] else life)
  {
    ExpireLives(cfg, p, now, spawn, life);
    if Due(p, now) { MoveLives(cfg, Expire(cfg, p, now), now, spawn, life); }
  }

  lemma StepIsRoaming(cfg: Config, p: Player, now: int)
    requires Paced(cfg) && Sound(cfg, p)
    ensures Roaming(cfg, StepPlayer(cfg, p, now))
    ensures !Due(p, now) ==> Sound(cfg, StepPlayer(cfg, p, now))
  {
    var spawn, life :| Lived(cfg, p, spawn, life);
    StepLives(cfg, p, now, spawn, life);
    MoveKeepsInside(cfg, p.chain, Step(Head(p), p.nextDirection));
  }

  lemma GrowKeepsInside(cfg: Config, c: Chain)
    requires BodyInside(cfg, c)
    ensures BodyInside(cfg, Grow(c))
  {
    GrowAt(c);
  }

  lemma FeedLives(cfg: Config, p: Player, spawn: Pos, life: Life)
    requires Lived(cfg, p, spawn, life)
    ensures Lived(cfg, Feed(p), spawn, life + [Grew])
  {
    GrownLife(life);
    var l, q := life + [Grew], Feed(p);
    assert ChainOf(spawn, l) == q.chain;
    assert MoveTimes(l) == MoveTimes(life) && Heading(l) == Heading(life) && NeverReverses(l);
  }

  lemma BoostLives(cfg: Config, p: Player, now: int, spawn: Pos, life: Life)
    requires Lived(cfg, p, spawn, life)
    ensures Lived(cfg, Boost(cfg, p, now), spawn, life)
  {
  }

  /** Carrying out a verdict is a growth or no event at all. */
  lemma SentenceLives(cfg: Config, v: Verdict, p: Player, now: int, spawn: Pos, life: Life)
    requires Lived(cfg, p, spawn, life)
    ensures Lived(cfg, Sentence(cfg, v, p, now), spawn, if v == Eats then life + [Grew] else life)
  {
    if v == Eats {
      FeedLives(cfg, p, spawn, life);
    } else if v == Speeds {
      BoostLives(cfg, p, now, spawn, life);
    }
  }

  lemma SentenceIsRoaming(cfg: Config, v: Verdict, p: Player, now: int)
    requires Roaming(cfg, p)
    ensures Roaming(cfg, Sentence(cfg, v, p, now))
  {
    var spawn, life :| Lived(cfg, p, spawn, life);
    SentenceLives(cfg, v, p, now, spawn, life);
    GrowKeepsInside(cfg, p.chain);
  }

  // ---------- food and boosts ----------

  predicate ItemsInside(cfg: Config, t: Items) {
    forall c :: c in t.m ==> InArena(cfg, c) && t.m[c].x == c.x && t.m[c].y == c.y
  }

  lemma {:induction false} RefillInside(cfg: Config, food: Items, gen: nat, n: nat)
    requires ItemsInside(cfg, food)
    ensures ItemsInside(cfg, Refill(cfg, food, gen, n).0)
    decreases n
  {
    if |food.keys| < MIN_FOOD_IN_ARENA && n > 0 {
      var (f, g) := PlaceFood(cfg, food, gen);
      RefillInside(cfg, f, g, n - 1);
    }
  }

  lemma ReplaceFoodInside(cfg: Config, food: Items, gen: nat)
    requires ItemsInside(cfg, food)
    ensures ItemsInside(cfg, ReplaceFood(cfg, food, gen).0)
  {
    if Refillable(cfg, food, gen) {
      var n: nat :| Refilled(cfg, food, gen, n) && ReplaceFood(cfg, food, gen) == Refill(cfg, food, gen, n);
      RefillInside(cfg, food, gen, n);
    }
  }

  lemma {:induction false} ScatterInside(cfg: Config, food: Items, gen: nat, cells: seq<Pos>, color: int)
    requires ItemsInside(cfg, food)
    requires forall i :: 0 <= i < |cells| ==> InArena(cfg, cells[i])
    ensures ItemsInside(cfg, Scatter(cfg, food, gen, cells, color).0)
    decreases |cells|
  {
    if cells != [] {
      var (v, g) := Draw(cfg, gen, 1, FOOD_SPAWN_FROM_BODY_SEGMENT_PROBABILITY);
      ScatterInside(cfg, if v == 1 then PlaceFoodAt(food, cells[0], color) else food, g, cells[1..], color);
    }
  }

  // ---------- the game ----------

  /** Everything that counts between ticks. */
  ghost predicate GoodGame(cfg: Config, g: Game) {
    && (forall id :: id in g.players.m ==> Sound(cfg, g.players.m[id]))
    && ItemsInside(cfg, g.food) && ItemsInside(cfg, g.boosts)
  }

  /** After the snakes have moved and before collisions are resolved, heads may be outside. */
  ghost predicate MovingGame(cfg: Config, g: Game) {
    && (forall id :: id in g.players.m ==> Roaming(cfg, g.players.m[id]))
    && ItemsInside(cfg, g.food) && ItemsInside(cfg, g.boosts)
  }

  lemma ApplyOneGood(cfg: Config, g: Game, now: int, m: Message)
    requires GoodGame(cfg, g)
    ensures GoodGame(cfg, ApplyOne(cfg, g, now, m).game)
  {
    var id := m.hdr.clientId;
    if m.ClientJoin? {
      var (cell, _) := SpawnCell(cfg, g.gen);
      SpawnIsSound(cfg, id, m.username, cell, now);
    } else if m.ClientInput? && Has(g.players, id) {
      TurnIsSound(cfg, g.players.m[id], m.input);
    }
  }

  lemma {:induction false} ApplyAllGood(cfg: Config, g: Game, now: int, messages: seq<Message>)
    requires GoodGame(cfg, g)
    ensures GoodGame(cfg, ApplyAll(cfg, g, now, messages).game)
    decreases |messages|
  {
    if messages != [] {
      ApplyOneGood(cfg, g, now, messages[0]);
      ApplyAllGood(cfg, ApplyOne(cfg, g, now, messages[0]).game, now, messages[1..]);
    }
  }

  lemma UpdateIsMoving(cfg: Config, g: Game, now: int)
    requires Paced(cfg) && GoodGame(cfg, g)
    ensures MovingGame(cfg, UpdateSnakes(cfg, g, now))
    ensures !AnyDue(g, now) ==> GoodGame(cfg, UpdateSnakes(cfg, g, now))
  {
    forall id | id in g.players.m
      ensures Roaming(cfg, StepPlayer(cfg, g.players.m[id], now))
      ensures !AnyDue(g, now) ==> Sound(cfg, StepPlayer(cfg, g.players.m[id], now))
    {
      StepIsRoaming(cfg, g.players.m[id], now);
    }
  }

  /** Every cell that the grid is asked about for a body is in the arena. */
  lemma BodyCellsInside(cfg: Config, p: Player)
    requires Roaming(cfg, p)
    ensures forall i :: 0 <= i < |Body(p.chain)| ==> InArena(cfg, Body(p.chain)[i])
  {
  }

  lemma {:induction false} DestroyInside(cfg: Config, g: Game, ids: seq<Int32>)
    requires MovingGame(cfg, g)
    ensures ItemsInside(cfg, DestroyPlayers(cfg, g, ids).food)
    decreases |ids|
  {
    if ids != [] && Has(g.players, ids[0]) {
      var p := g.players.m[ids[0]];
      BodyCellsInside(cfg, p);
      ScatterInside(cfg, g.food, g.gen, Body(p.chain), p.color);
      DestroyInside(cfg, DestroyPlayer(cfg, g, ids[0]), ids[1..]);
    }
  }

  lemma CheckedIsMoving(cfg: Config, g: Game, now: int)
    requires MovingGame(cfg, g)
    ensures MovingGame(cfg, AfterClash(g, CollideAll(cfg, g.players, StartClash(g), g.players.keys, now)))
  {
    var start := StartClash(g);
    var c := CollideAll(cfg, g.players, start, g.players.keys, now);
    var vs := VerdictsOf(cfg, g.players, start);
    assert OrderOf(g.players.keys, start.players);
    CheckIsVerdicts(cfg, g.players, start, g.players.keys, now);
    assert PlayersResolved(cfg, vs, g.players, g.players.keys, now, c.players);
    forall id | id in c.players.m ensures Roaming(cfg, c.players.m[id]) {
      SentenceIsRoaming(cfg, vs[id], g.players.m[id], now);
    }
  }

  lemma CheckIsGood(cfg: Config, g: Game, now: int)
    requires MovingGame(cfg, g)
    ensures GoodGame(cfg, CheckCollisions(cfg, g, now))
  {
    var c := CollideAll(cfg, g.players, StartClash(g), g.players.keys, now);
    var h := CheckCollisions(cfg, g, now);
    CheckedIsMoving(cfg, g, now);
    DestroyInside(cfg, AfterClash(g, c), c.doomed);
    SurvivorsAreApart(cfg, g, now);
    forall id | id in h.players.m ensures Sound(cfg, h.players.m[id]) {
      SurvivesExactlyWhen(cfg, g, now, id);
      SentenceIsRoaming(cfg, Decide(cfg, g.players, StartClash(g), id), g.players.m[id], now);
    }
    BoostsKept(cfg, AfterClash(g, c), c.doomed);
  }

  lemma {:induction false} BoostsKept(cfg: Config, g: Game, ids: seq<Int32>)
    ensures DestroyPlayers(cfg, g, ids).boosts == g.boosts
    ensures DestroyPlayers(cfg, g, ids).high == g.high
    decreases |ids|
  {
    if ids != [] && Has(g.players, ids[0]) {
      BoostsKept(cfg, DestroyPlayer(cfg, g, ids[0]), ids[1..]);
    }
  }

  lemma SpeedBoostIsGood(cfg: Config, g: Game)
    requires GoodGame(cfg, g)
    ensures GoodGame(cfg, PlaceSpeedBoost(cfg, g))
  {
    var h := PlaceSpeedBoost(cfg, g);
    assert h.players == g.players && h.food == g.food;
    assert ItemsInside(cfg, h.boosts);
  }

  lemma AdvanceIsGood(cfg: Config, g: Game, now: int)
    requires Paced(cfg) && GoodGame(cfg, g)
    ensures GoodGame(cfg, Advance(cfg, g, now))
  {
    UpdateIsMoving(cfg, g, now);
    if AnyDue(g, now) {
      var h := UpdateSnakes(cfg, g, now);
      CheckIsGood(cfg, h, now);
      SpeedBoostIsGood(cfg, CheckCollisions(cfg, h, now));
    }
  }

  /** One tick keeps a good game good. */
  lemma TickIsGood(cfg: Config, g: Game, now: int, messages: seq<Message>)
    requires Paced(cfg) && GoodGame(cfg, g)
    ensures GoodGame(cfg, Tick(cfg, g, now, messages).game)
  {
    ReplaceFoodInside(cfg, g.food, g.gen);
    ApplyAllGood(cfg, ReplaceFoodIn(cfg, g), now, messages);
    AdvanceIsGood(cfg, ApplyAll(cfg, ReplaceFoodIn(cfg, g), now, messages).game, now);
  }

  lemma {:induction false} RunIsGood(cfg: Config, g: Game, polls: seq<Poll>)
    requires Paced(cfg) && GoodGame(cfg, g)
    ensures GoodGame(cfg, Run(cfg, g, polls).0)
    decreases |polls|
  {
    if polls != [] {
      TickIsGood(cfg, g, polls[0].at, polls[0].messages);
      RunIsGood(cfg, Tick(cfg, g, polls[0].at, polls[0].messages).game, polls[1..]);
    }
  }

  // ---------- the invariants of reachable games ----------

  ghost predicate Reachable(cfg: Config, g: Game) {
    exists seed, polls :: g == Run(cfg, NewGame(seed), polls).0
  }

  lemma ReachableIsGood(cfg: Config, g: Game)
    requires Paced(cfg) && Reachable(cfg, g)
    ensures GoodGame(cfg, g)
  {
    var seed, polls :| g == Run(cfg, NewGame(seed), polls).0;
    RunIsGood(cfg, NewGame(seed), polls);
  }

  /** Between ticks every segment, food and boost is in the arena. */
  lemma ArenaContainsAll(cfg: Config, g: Game)
    requires Paced(cfg) && Reachable(cfg, g)
    ensures forall id, i :: id in g.players.m && 0 <= i < |g.players.m[id].chain| ==>
      InArena(cfg, g.players.m[id].chain[i].pos)
    ensures forall c :: c in g.food.m || c in g.boosts.m ==> InArena(cfg, c)
  {
    ReachableIsGood(cfg, g);
    forall id, i | id in g.players.m && 0 <= i < |g.players.m[id].chain|
      ensures InArena(cfg, g.players.m[id].chain[i].pos)
    {
      assert Sound(cfg, g.players.m[id]);
    }
  }

  /** A snake of fewer than five segments that has moved since its spawn is not on its own body. */
  lemma ShortSnakeIsOff(cfg: Config, p: Player)
    requires Roaming(cfg, p) && |p.chain| < 5 && p.chain[0].pos != p.chain[0].prev
    ensures Head(p) !in Body(p.chain)
  {
    var spawn, life :| Lived(cfg, p, spawn, life);
    BodyFollowsHead(spawn, life);
    var h, ix := History(spawn, life), Moments(life);
    assert p.chain[0].pos == h[ix[0]] && p.chain[0].prev == h[ix[1]];
    ShortSnakesCannotBite(spawn, life);
  }

  /** In every reachable game, and whatever happened since, such a snake is not on its own body. */
  lemma ShortSnakesAreOff(cfg: Config, g: Game, id: Int32)
    requires Paced(cfg) && Reachable(cfg, g) && id in g.players.m
    requires |g.players.m[id].chain| < 5 && g.players.m[id].chain[0].pos != g.players.m[id].chain[0].prev
    ensures Head(g.players.m[id]) !in Body(g.players.m[id].chain)
  {
    ReachableIsGood(cfg, g);
    assert Sound(cfg, g.players.m[id]);
    ShortSnakeIsOff(cfg, g.players.m[id]);
  }

  /** A tick of a good game between its movement and its collision check. */
  ghost function Moving(cfg: Config, g: Game, now: int, messages: seq<Message>): Game {
    UpdateSnakes(cfg, ApplyAll(cfg, ReplaceFoodIn(cfg, g), now, messages).game, now)
  }

  lemma MovingIsMoving(cfg: Config, g: Game, now: int, messages: seq<Message>)
    requires Paced(cfg) && GoodGame(cfg, g)
    ensures MovingGame(cfg, Moving(cfg, g, now, messages))
  {
    ReplaceFoodInside(cfg, g.food, g.gen);
    ApplyAllGood(cfg, ReplaceFoodIn(cfg, g), now, messages);
    UpdateIsMoving(cfg, ApplyAll(cfg, ReplaceFoodIn(cfg, g), now, messages).game, now);
  }

  /** When a check begins no snake of fewer than five segments that has moved is on its own body: it is
      never the grid's count of its own segments that kills it. */
  lemma ShortSnakesAreOffAtCheck(cfg: Config, g: Game, now: int, messages: seq<Message>, id: Int32)
    requires Paced(cfg) && Reachable(cfg, g) && id in Moving(cfg, g, now, messages).players.m
    requires |Moving(cfg, g, now, messages).players.m[id].chain| < 5
    requires var c := Moving(cfg, g, now, messages).players.m[id].chain; c[0].pos != c[0].prev
    ensures var p := Moving(cfg, g, now, messages).players.m[id]; Head(p) !in Body(p.chain)
  {
    ReachableIsGood(cfg, g);
    MovingIsMoving(cfg, g, now, messages);
    ShortSnakeIsOff(cfg, Moving(cfg, g, now, messages).players.m[id]);
  }

  /** In every tick of a reachable game the cells that the grid counts are in the arena, even if heads
      have just left it. */
  lemma CountedCellsInside(cfg: Config, g: Game, now: int, messages: seq<Message>, id: Int32, i: nat)
    requires Paced(cfg) && Reachable(cfg, g) && id in Moving(cfg, g, now, messages).players.m
    requires i < |Body(Moving(cfg, g, now, messages).players.m[id].chain)|
    ensures InArena(cfg, Body(Moving(cfg, g, now, messages).players.m[id].chain)[i])
  {
    ReachableIsGood(cfg, g);
    MovingIsMoving(cfg, g, now, messages);
    BodyCellsInside(cfg, Moving(cfg, g, now, messages).players.m[id]);
  }

  /** A move schedules the next one after the boosted interval exactly when the boost is still running. */
  lemma MoveSchedule(cfg: Config, p: Player, now: int)
    requires Sound(cfg, p) && Due(p, now)
    ensures StepPlayer(cfg, p, now).nextMoveTime == now +
      (if p.boosted && p.boostExpireTime > now then Gap(cfg) else cfg.movementFrequencyMs * NANOS_PER_MS)
  {
    var spawn, life :| Lived(cfg, p, spawn, life);
  }

  /** A boost lasts for its duration: until then moves are scheduled after the boosted interval, from
      then on after the base interval. */
  lemma BoostLasts(cfg: Config, p: Player, now: int, at: int)
    requires Sound(cfg, p) && Due(Boost(cfg, p, now), at)
    ensures StepPlayer(cfg, Boost(cfg, p, now), at).nextMoveTime == at +
      (if at < now + cfg.boostDurationMs * NANOS_PER_MS then Gap(cfg) else cfg.movementFrequencyMs * NANOS_PER_MS)
  {
    SentenceIsRoaming(cfg, Speeds, p, now);
    MoveSchedule(cfg, Boost(cfg, p, now), at);
  }

  // ---------- the speed boost ----------

  lemma {:induction false} MessagesKeepBoosts(cfg: Config, g: Game, now: int, messages: seq<Message>)
    ensures ApplyAll(cfg, g, now, messages).game.boosts == g.boosts
    decreases |messages|
  {
    if messages != [] {
      MessagesKeepBoosts(cfg, ApplyOne(cfg, g, now, messages[0]).game, now, messages[1..]);
    }
  }

  /** A check takes boosts away and never adds one. */
  lemma CheckTakesBoosts(cfg: Config, g: Game, now: int)
    ensures |CheckCollisions(cfg, g, now).boosts.keys| <= |g.boosts.keys|
  {
    var start := StartClash(g);
    assert OrderOf(g.players.keys, start.players);
    CheckIsVerdicts(cfg, g.players, start, g.players.keys, now);
    var c := CollideAll(cfg, g.players, start, g.players.keys, now);
    BoostsKept(cfg, AfterClash(g, c), c.doomed);
  }

  lemma TickKeepsOneBoost(cfg: Config, g: Game, now: int, messages: seq<Message>)
    requires |g.boosts.keys| <= 1
    ensures |Tick(cfg, g, now, messages).game.boosts.keys| <= 1
  {
    var f := ReplaceFoodIn(cfg, g);
    MessagesKeepBoosts(cfg, f, now, messages);
    CheckTakesBoosts(cfg, UpdateSnakes(cfg, ApplyAll(cfg, f, now, messages).game, now), now);
  }

  lemma {:induction false} RunKeepsOneBoost(cfg: Config, g: Game, polls: seq<Poll>)
    requires |g.boosts.keys| <= 1
    ensures |Run(cfg, g, polls).0.boosts.keys| <= 1
    decreases |polls|
  {
    if polls != [] {
      TickKeepsOneBoost(cfg, g, polls[0].at, polls[0].messages);
      RunKeepsOneBoost(cfg, Tick(cfg, g, polls[0].at, polls[0].messages).game, polls[1..]);
    }
  }

  /** There is never more than one boost in the arena. */
  lemma AtMostOneBoost(cfg: Config, g: Game)
    requires Reachable(cfg, g)
    ensures |g.boosts.keys| <= 1
  {
    var seed, polls :| g == Run(cfg, NewGame(seed), polls).0;
    RunKeepsOneBoost(cfg, NewGame(seed), polls);
  }

  // ---------- the high score ----------

  function Larger(a: int, b: int): int {
    if a > b then a else b
  }

  /** The largest score among some players, or low if none is larger. */
  function TopScore(m: map<Int32, Player>, ids: seq<Int32>, low: int): int
    requires forall id :: id in ids ==> id in m
  {
    if ids == [] then low else Larger(m[ids[0]].score, TopScore(m, ids[1..], low))
  }

  lemma {:induction false} TopScoreIsTop(m: map<Int32, Player>, ids: seq<Int32>, low: int)
    requires forall id :: id in ids ==> id in m
    ensures var s := TopScore(m, ids, low);
      && s >= low && (forall id :: id in ids ==> s >= m[id].score)
      && (s == low || exists id :: id in ids && s == m[id].score)
  {
    if ids != [] {
      assert ids[0] in ids;
      forall id | id in ids[1..] ensures id in m { assert id in ids; }
      TopScoreIsTop(m, ids[1..], low);
      var s := TopScore(m, ids[1..], low);
      if s != low {
        var id :| id in ids[1..] && s == m[id].score;
        assert id in ids;
      }
    }
  }

  /** After a check the high score is the larger of the old one and the best score at the check, the
      players about to be destroyed included. */
  lemma CheckTracksHighScore(cfg: Config, g: Game, now: int)
    ensures var c := CollideAll(cfg, g.players, StartClash(g), g.players.keys, now);
      CheckCollisions(cfg, g, now).high.score == TopScore(c.players.m, c.players.keys, g.high.score)
  {
    var start := StartClash(g);
    var c := CollideAll(cfg, g.players, start, g.players.keys, now);
    var vs := VerdictsOf(cfg, g.players, start);
    CheckIsVerdicts(cfg, g.players, start, g.players.keys, now);
    assert PlayersResolved(cfg, vs, g.players, g.players.keys, now, c.players);
    TopScoreIsTop(c.players.m, c.players.keys, g.high.score);
    BoostsKept(cfg, AfterClash(g, c), c.doomed);
    PeakIsTop(cfg, vs, start, c, now, TopScore(c.players.m, c.players.keys, g.high.score));
  }

  lemma PeakIsTop(cfg: Config, vs: Verdicts, start: Clash, c: Clash, now: int, top: int)
    requires PlayersResolved(cfg, vs, start.players, start.players.keys, now, c.players)
    requires Covers(vs, start, start.players.keys)
    requires IsPeak(cfg, vs, start, start.players.keys, now, c.high.score)
    requires top >= start.high.score && forall id :: id in c.players.keys ==> top >= c.players.m[id].score
    requires top == start.high.score || exists id :: id in c.players.keys && top == c.players.m[id].score
    ensures c.high.score == top
  {
    var keys := start.players.keys;
    forall id | id in keys ensures c.players.m[id] == Sentence(cfg, vs[id], start.players.m[id], now) {
      assert id in start.players.m;
    }
    if top != start.high.score {
      var id :| id in c.players.keys && top == c.players.m[id].score;
      assert c.high.score >= Sentence(cfg, vs[id], start.players.m[id], now).score;
    }
    if c.high.score != start.high.score {
      var id :| id in keys && c.high.score == Sentence(cfg, vs[id], start.players.m[id], now).score;
      assert top >= c.players.m[id].score;
    }
  }

  /** The best score at the collision check of a tick, if it has one, or low. */
  ghost function SeenInTick(cfg: Config, g: Game, now: int, messages: seq<Message>, low: int): int {
    var a := ApplyAll(cfg, ReplaceFoodIn(cfg, g), now, messages).game;
    var h := UpdateSnakes(cfg, a, now);
    var c := CollideAll(cfg, h.players, StartClash(h), h.players.keys, now);
    if AnyDue(a, now) then TopScore(c.players.m, c.players.keys, low) else low
  }

  /** The best score at any collision check of a run, or low. */
  ghost function BestSeen(cfg: Config, g: Game, polls: seq<Poll>, low: int): int
    decreases |polls|
  {
    if polls == [] then low
    else
      var seen := SeenInTick(cfg, g, polls[0].at, polls[0].messages, low);
      BestSeen(cfg, Tick(cfg, g, polls[0].at, polls[0].messages).game, polls[1..], seen)
  }

  lemma AdvanceTracksHighScore(cfg: Config, g: Game, now: int)
    ensures var h := UpdateSnakes(cfg, g, now);
      var c := CollideAll(cfg, h.players, StartClash(h), h.players.keys, now);
      Advance(cfg, g, now).high.score ==
        if AnyDue(g, now) then TopScore(c.players.m, c.players.keys, g.high.score) else g.high.score
  {
    CheckTracksHighScore(cfg, UpdateSnakes(cfg, g, now), now);
  }

  lemma TickTracksHighScore(cfg: Config, g: Game, now: int, messages: seq<Message>)
    ensures Tick(cfg, g, now, messages).game.high.score == SeenInTick(cfg, g, now, messages, g.high.score)
  {
    var f := ReplaceFoodIn(cfg, g);
    var a := ApplyAll(cfg, f, now, messages).game;
    MessagesKeepHighScore(cfg, f, now, messages);
    AdvanceTracksHighScore(cfg, a, now);
  }

  lemma {:induction false} MessagesKeepHighScore(cfg: Config, g: Game, now: int, messages: seq<Message>)
    ensures ApplyAll(cfg, g, now, messages).game.high == g.high
    decreases |messages|
  {
    if messages != [] {
      MessagesKeepHighScore(cfg, ApplyOne(cfg, g, now, messages[0]).game, now, messages[1..]);
    }
  }

  /** Over a run the high score is the best score seen at any collision check. */
  lemma {:induction false} HighScoreIsBestSeen(cfg: Config, g: Game, polls: seq<Poll>)
    ensures Run(cfg, g, polls).0.high.score == BestSeen(cfg, g, polls, g.high.score)
    decreases |polls|
  {
    if polls != [] {
      TickTracksHighScore(cfg, g, polls[0].at, polls[0].messages);
      HighScoreIsBestSeen(cfg, Tick(cfg, g, polls[0].at, polls[0].messages).game, polls[1..]);
    }
  }
}
