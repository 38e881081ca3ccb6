/**
 Everything a server logs fits the wire format and the length prefix of the log, as long as what it was
 sent does and there is room for its largest broadcast.
 */
module Writability {
  import opened Arithmetic
  import opened LittleEndian
  import opened Tables
  import opened Chains
  import opened Protocol
  import opened Batching
  import opened Engine
  import opened Collisions
  import opened Survivors
  import opened Invariants
  import opened Replay
  import Mazes

  // ---------- the size of a broadcast ----------

  lemma {:induction false} SegmentsSize(segments: seq<Segment>, rest: Bytes)
    ensures |PutList(PutSegment, segments, rest)| == 8 * |segments| + |rest|
  {
    if segments != [] { SegmentsSize(segments[1..], rest); }
  }

  lemma {:induction false} FoodsSize(foods: seq<Food>, rest: Bytes)
    ensures |PutList(PutFood, foods, rest)| == 13 * |foods| + |rest|
  {
    if foods != [] { FoodsSize(foods[1..], rest); }
  }

  const PLAYER_FIELDS_SIZE: nat := 33

  lemma PlayerSize(p: PlayerState, rest: Bytes)
    ensures |PutPlayer(p, rest)| == PLAYER_FIELDS_SIZE - USERNAME_SIZE + |p.username| + 8 * |p.segments| + |rest|
  {
    SegmentsSize(p.segments, rest);
  }

  lemma {:induction false} PlayersSize(players: seq<PlayerState>, len: nat, rest: Bytes)
    requires forall i :: 0 <= i < |players| ==> |players[i].username| == USERNAME_SIZE && |players[i].segments| <= len
    ensures |PutList(PutPlayer, players, rest)| <= |players| * (PLAYER_FIELDS_SIZE + 8 * len) + |rest|
  {
    if players != [] {
      var later := PutList(PutPlayer, players[1..], rest);
      PlayersSize(players[1..], len, rest);
      PlayerSize(players[0], later);
      OneMoreTime(|players|, PLAYER_FIELDS_SIZE + 8 * len);
    }
  }

  lemma OneMoreTime(n: nat, k: nat)
    requires n > 0
    ensures n * k == (n - 1) * k + k
  {
  }

  lemma GameStateSize(m: Message, len: nat)
    requires m.GameState? && |m.highScoreUsername| == USERNAME_SIZE
    requires forall i :: 0 <= i < |m.players| ==>
      |m.players[i].username| == USERNAME_SIZE && |m.players[i].segments| <= len
    ensures |Encode(m)|
      <= 56 + 13 * |m.food| + 13 * |m.speedBoosts| + |m.players| * (PLAYER_FIELDS_SIZE + 8 * len)
  {
    var players := PutList(PutPlayer, m.players, []);
    PlayersSize(m.players, len, []);
    var boosts := PutList(PutFood, m.speedBoosts, PutUint32(|m.players|, players));
    FoodsSize(m.speedBoosts, PutUint32(|m.players|, players));
    FoodsSize(m.food, PutUint32(|m.speedBoosts|, boosts));
  }

  // ---------- how much there is in a game ----------

  const MIN_COLOR := -2
  const MAX_COLOR := 6

  predicate PlainPlayer(p: Player, len: nat) {
    |p.name| == USERNAME_SIZE && MIN_COLOR <= p.color <= MAX_COLOR && |p.chain| <= len && 0 <= p.score <= len
  }

  ghost predicate PlainItems(t: Items) {
    forall c :: c in t.m ==> MIN_COLOR <= t.m[c].color <= MAX_COLOR && FitsChar(t.m[c].icon)
  }

  predicate PlainHigh(h: HighScore, len: nat) {
    |h.name| == USERNAME_SIZE && 0 <= h.score <= len
  }

  /** At most joins players, none longer than len. */
  ghost predicate Sized(g: Game, joins: nat, len: nat) {
    && |g.players.keys| <= joins && (forall id :: id in g.players.m ==> PlainPlayer(g.players.m[id], len))
    && PlainItems(g.food) && PlainItems(g.boosts) && |g.boosts.keys| <= 1
    && PlainHigh(g.high, len)
  }

  lemma {:induction false} RefillPlain(cfg: Config, food: Items, gen: nat, n: nat)
    requires PlainItems(food)
    ensures PlainItems(Refill(cfg, food, gen, n).0)
    decreases n
  {
    if |food.keys| < MIN_FOOD_IN_ARENA && n > 0 {
      var next := PlaceFood(cfg, food, gen);
      RefillPlain(cfg, next.0, next.1, n - 1);
    }
  }

  lemma ReplaceFoodSized(cfg: Config, g: Game, joins: nat, len: nat)
    requires Sized(g, joins, len)
    ensures Sized(ReplaceFoodIn(cfg, g), joins, len)
  {
    if Refillable(cfg, g.food, g.gen) {
      var n: nat :| Refilled(cfg, g.food, g.gen, n) && ReplaceFood(cfg, g.food, g.gen) == Refill(cfg, g.food, g.gen, n);
      RefillPlain(cfg, g.food, g.gen, n);
    }
  }

  /** How many of some messages are joins. */
  function JoinsIn(messages: seq<Message>): nat {
    if messages == [] then 0 else (if messages[0].ClientJoin? then 1 else 0) + JoinsIn(messages[1..])
  }

  lemma ApplyOneSized(cfg: Config, g: Game, now: int, m: Message, joins: nat, len: nat)
    requires Sized(g, joins, len) && len > 0 && Encodable(m)
    ensures Sized(ApplyOne(cfg, g, now, m).game, joins + if m.ClientJoin? then 1 else 0, len)
  {
  }

  lemma {:induction false} ApplyAllSized(cfg: Config, g: Game, now: int, messages: seq<Message>, joins: nat, len: nat)
    requires Sized(g, joins, len) && len > 0 && forall i :: 0 <= i < |messages| ==> Encodable(messages[i])
    ensures Sized(ApplyAll(cfg, g, now, messages).game, joins + JoinsIn(messages), len)
    decreases |messages|
  {
    if messages != [] {
      var joined := joins + if messages[0].ClientJoin? then 1 else 0;
      ApplyOneSized(cfg, g, now, messages[0], joins, len);
      ApplyAllSized(cfg, ApplyOne(cfg, g, now, messages[0]).game, now, messages[1..], joined, len);
    }
  }

  lemma UpdateSized(cfg: Config, g: Game, now: int, joins: nat, len: nat)
    requires Sized(g, joins, len)
    ensures Sized(UpdateSnakes(cfg, g, now), joins, len)
  {
    forall id | id in g.players.m ensures PlainPlayer(StepPlayer(cfg, g.players.m[id], now), len) {
      assert PlainPlayer(g.players.m[id], len);
    }
  }

  // ---------- the collision check ----------

  lemma SentencePlain(cfg: Config, v: Verdict, p: Player, now: int, len: nat)
    requires PlainPlayer(p, len)
    ensures PlainPlayer(Sentence(cfg, v, p, now), len + 1)
  {
  }

  ghost predicate Named(c: Clash) {
    |c.high.name| == USERNAME_SIZE && forall id :: id in c.players.m ==> |c.players.m[id].name| == USERNAME_SIZE
  }

  lemma ApplyNamed(cfg: Config, c: Clash, id: Int32, v: Verdict, now: int)
    requires id in c.players.m && Named(c)
    ensures Named(Apply(cfg, c, id, v, now))
  {
  }

  /** The high score's name is the old one or some player's. */
  lemma {:induction false} CheckNamed(cfg: Config, bodies: Players, c: Clash, order: seq<Int32>, now: int)
    requires (forall id :: id in order ==> id in c.players.m) && Named(c)
    ensures Named(CollideAll(cfg, bodies, c, order, now))
    decreases |order|
  {
    if order != [] {
      assert order[0] in order;
      ApplyNamed(cfg, c, order[0], Decide(cfg, bodies, c, order[0]), now);
      CheckNamed(cfg, bodies, CollideOne(cfg, bodies, c, order[0], now), order[1..], now);
    }
  }

  lemma CheckedHigh(cfg: Config, g: Game, now: int, joins: nat, len: nat)
    requires Sized(g, joins, len)
    ensures PlainHigh(CheckCollisions(cfg, g, now).high, len + 1)
  {
    var c := CollideAll(cfg, g.players, StartClash(g), g.players.keys, now);
    CheckNamed(cfg, g.players, StartClash(g), g.players.keys, now);
    CheckTracksHighScore(cfg, g, now);
    CheckResolved(cfg, g, now);
    forall id | id in c.players.keys ensures 0 <= c.players.m[id].score <= len + 1 {
      SentencePlain(cfg, VerdictsOf(cfg, g.players, StartClash(g))[id], g.players.m[id], now, len);
    }
    TopScoreIsTop(c.players.m, c.players.keys, g.high.score);
    BoostsKept(cfg, AfterClash(g, c), c.doomed);
  }

  lemma CheckedPlayers(cfg: Config, g: Game, now: int, joins: nat, len: nat)
    requires Sized(g, joins, len)
    ensures forall id :: id in CheckCollisions(cfg, g, now).players.m ==>
      PlainPlayer(CheckCollisions(cfg, g, now).players.m[id], len + 1)
  {
    var t, vs := CheckCollisions(cfg, g, now).players, VerdictsOf(cfg, g.players, StartClash(g));
    CheckOutcome(cfg, g, now);
    forall id | id in t.m ensures PlainPlayer(t.m[id], len + 1) {
      SentencePlain(cfg, vs[id], g.players.m[id], now, len);
    }
  }

  lemma {:induction false} DestroyedCount(cfg: Config, g: Game, ids: seq<Int32>)
    ensures |DestroyPlayers(cfg, g, ids).players.keys| <= |g.players.keys|
    decreases |ids|
  {
    if ids != [] && Has(g.players, ids[0]) {
      DestroyedCount(cfg, DestroyPlayer(cfg, g, ids[0]), ids[1..]);
    }
  }

  lemma {:induction false} ScatterPlain(cfg: Config, food: Items, gen: nat, cells: seq<Pos>, color: int)
    requires PlainItems(food) && MIN_COLOR <= color <= MAX_COLOR
    ensures PlainItems(Scatter(cfg, food, gen, cells, color).0)
    decreases |cells|
  {
    if cells != [] {
      var (v, g) := Draw(cfg, gen, 1, FOOD_SPAWN_FROM_BODY_SEGMENT_PROBABILITY);
      ScatterPlain(cfg, if v == 1 then PlaceFoodAt(food, cells[0], color) else food, g, cells[1..], color);
    }
  }

  lemma {:induction false} DestroyPlain(cfg: Config, g: Game, ids: seq<Int32>)
    requires PlainItems(g.food)
    requires forall id :: id in g.players.m ==> MIN_COLOR <= g.players.m[id].color <= MAX_COLOR
    ensures PlainItems(DestroyPlayers(cfg, g, ids).food)
    decreases |ids|
  {
    if ids != [] && Has(g.players, ids[0]) {
      var p := g.players.m[ids[0]];
      ScatterPlain(cfg, g.food, g.gen, Body(p.chain), p.color);
      DestroyPlain(cfg, DestroyPlayer(cfg, g, ids[0]), ids[1..]);
    }
  }

  lemma CheckedItems(cfg: Config, g: Game, now: int, joins: nat, len: nat)
    requires Sized(g, joins, len)
    ensures PlainItems(CheckCollisions(cfg, g, now).food) && PlainItems(CheckCollisions(cfg, g, now).boosts)
  {
    var start := StartClash(g);
    var c := CollideAll(cfg, g.players, start, g.players.keys, now);
    assert OrderOf(g.players.keys, start.players);
    CheckIsVerdicts(cfg, g.players, start, g.players.keys, now);
    CheckResolved(cfg, g, now);
    forall id | id in c.players.m ensures MIN_COLOR <= c.players.m[id].color <= MAX_COLOR {
      SentencePlain(cfg, VerdictsOf(cfg, g.players, start)[id], g.players.m[id], now, len);
    }
    DestroyPlain(cfg, AfterClash(g, c), c.doomed);
    BoostsKept(cfg, AfterClash(g, c), c.doomed);
  }

  lemma CheckSized(cfg: Config, g: Game, now: int, joins: nat, len: nat)
    requires Sized(g, joins, len)
    ensures Sized(CheckCollisions(cfg, g, now), joins, len + 1)
  {
    var c := CollideAll(cfg, g.players, StartClash(g), g.players.keys, now);
    CheckedPlayers(cfg, g, now, joins, len);
    CheckedHigh(cfg, g, now, joins, len);
    CheckedItems(cfg, g, now, joins, len);
    CheckTakesBoosts(cfg, g, now);
    DestroyedCount(cfg, AfterClash(g, c), c.doomed);
  }

  lemma SpeedBoostSized(cfg: Config, g: Game, joins: nat, len: nat)
    requires Sized(g, joins, len)
    ensures Sized(PlaceSpeedBoost(cfg, g), joins, len)
  {
  }

  lemma LongerSized(g: Game, joins: nat, len: nat)
    requires Sized(g, joins, len)
    ensures Sized(g, joins, len + 1)
  {
    forall id | id in g.players.m ensures PlainPlayer(g.players.m[id], len + 1) {
      assert PlainPlayer(g.players.m[id], len);
    }
  }

  lemma AdvanceSized(cfg: Config, g: Game, now: int, joins: nat, len: nat)
    requires Sized(g, joins, len)
    ensures Sized(Advance(cfg, g, now), joins, len + 1)
  {
    var h := UpdateSnakes(cfg, g, now);
    UpdateSized(cfg, g, now, joins, len);
    if AnyDue(g, now) {
      CheckSized(cfg, h, now, joins, len);
      SpeedBoostSized(cfg, CheckCollisions(cfg, h, now), joins, len + 1);
    } else {
      LongerSized(h, joins, len);
    }
  }

  ghost predicate AllEncodable(messages: seq<Message>) {
    forall i :: 0 <= i < |messages| ==> Encodable(messages[i]) && |Encode(messages[i])| < TWO_32
  }

  lemma TickSized(cfg: Config, g: Game, now: int, messages: seq<Message>, joins: nat, len: nat)
    requires Sized(g, joins, len) && len > 0 && AllEncodable(messages)
    ensures Sized(Tick(cfg, g, now, messages).game, joins + JoinsIn(messages), len + 1)
  {
    ReplaceFoodSized(cfg, g, joins, len);
    ApplyAllSized(cfg, ReplaceFoodIn(cfg, g), now, messages, joins, len);
    AdvanceSized(cfg, ApplyAll(cfg, ReplaceFoodIn(cfg, g), now, messages).game, now, joins + JoinsIn(messages), len);
  }

  // ---------- a broadcast fits ----------

  /** The dimensions of the arena are C++ ints, and its area is small beside 2^31. */
  predicate Room(cfg: Config, joins: nat, len: nat) {
    && cfg.width < TWO_31 && cfg.height < TWO_31 && len < TWO_31
    && 69 + 13 * (cfg.width * cfg.height) + joins * (PLAYER_FIELDS_SIZE + 8 * len) < TWO_31
  }

  lemma {:induction false} CountDistinct(keys: seq<Pos>, s: set<Pos>)
    requires forall p :: p in keys ==> p in s
    requires forall i, j :: 0 <= i < j < |keys| ==> keys[i] != keys[j]
    ensures |keys| <= |s|
  {
    if keys != [] {
      var p := keys[0];
      assert p in keys;
      forall q | q in keys[1..] ensures q in s - {p} { assert q in keys; }
      CountDistinct(keys[1..], s - {p});
    }
  }

  /** There is at most one item in each cell of the arena. */
  lemma ItemsCount(cfg: Config, t: Items)
    requires ItemsInside(cfg, t)
    ensures |t.keys| <= cfg.width * cfg.height
  {
    var s := t.m.Keys;
    CountDistinct(t.keys, s);
    Mazes.InsideBound(Mazes.Maze(cfg.width, cfg.height, [], []), s);
  }

  lemma {:induction false} ItemListFits(m: map<Pos, Food>, cells: seq<Pos>, i: nat)
    requires (forall c :: c in cells ==> c in m) && i < |cells|
    ensures |ItemList(m, cells)| == |cells|
    ensures cells[i] in m && ItemList(m, cells)[i] == m[cells[i]]
  {
    assert cells[0] in cells;
    if i > 0 {
      ItemListFits(m, cells[1..], i - 1);
    } else if |cells| > 1 {
      ItemListFits(m, cells[1..], 0);
    }
  }

  lemma ItemsFit(cfg: Config, t: Items)
    requires cfg.width < TWO_31 && cfg.height < TWO_31 && ItemsInside(cfg, t) && PlainItems(t)
    ensures |ItemList(t.m, t.keys)| == |t.keys| && forall f :: f in ItemList(t.m, t.keys) ==> FitsFood(f)
  {
    var list := ItemList(t.m, t.keys);
    if t.keys != [] { ItemListFits(t.m, t.keys, 0); }
    forall i | 0 <= i < |list| ensures FitsFood(list[i]) {
      ItemListFits(t.m, t.keys, i);
    }
  }

  lemma {:induction false} SegmentsFit(cells: seq<Pos>)
    requires forall i :: 0 <= i < |cells| ==> FitsInt32(cells[i].x) && FitsInt32(cells[i].y)
    ensures |SegmentsOf(cells)| == |cells| && forall s :: s in SegmentsOf(cells) ==> FitsSegment(s)
  {
    if cells != [] { SegmentsFit(cells[1..]); }
  }

  lemma PlayerFits(cfg: Config, id: Int32, p: Player, len: nat)
    requires cfg.width < TWO_31 && cfg.height < TWO_31 && len < TWO_31
    requires Sound(cfg, p) && PlainPlayer(p, len)
    ensures FitsPlayer(PlayerStateOf(id, p)) && |PlayerStateOf(id, p).segments| <= len
  {
    SegmentsFit(Positions(p.chain));
  }

  ghost predicate Presentable(cfg: Config, g: Game, joins: nat, len: nat) {
    GoodGame(cfg, g) && Sized(g, joins, len)
  }

  lemma PlayersFit(cfg: Config, g: Game, joins: nat, len: nat)
    requires cfg.width < TWO_31 && cfg.height < TWO_31 && len < TWO_31 && Presentable(cfg, g, joins, len)
    ensures var list := PlayerStates(g.players.m, g.players.keys);
      && |list| == |g.players.keys|
      && forall i :: 0 <= i < |list| ==> FitsPlayer(list[i]) && |list[i].segments| <= len
  {
    var list := PlayerStates(g.players.m, g.players.keys);
    if g.players.keys != [] { PlayerStatesAt(g.players.m, g.players.keys, 0); }
    forall i | 0 <= i < |list| ensures FitsPlayer(list[i]) && |list[i].segments| <= len {
      PlayerStatesAt(g.players.m, g.players.keys, i);
      PlayerFits(cfg, g.players.keys[i], g.players.m[g.players.keys[i]], len);
    }
  }

  /** A record that the log can hold. */
  ghost predicate Carriable(m: Message) {
    Encodable(m) && |Encode(m)| < TWO_32
  }

  /** The three lists of a broadcast. */
  ghost predicate ListsFit(
    food: seq<Food>, boosts: seq<Food>, players: seq<PlayerState>, joins: nat, len: nat, area: nat)
  {
    && |food| <= area && (forall f :: f in food ==> FitsFood(f))
    && |boosts| <= 1 && (forall f :: f in boosts ==> FitsFood(f))
    && |players| <= joins
    && forall i :: 0 <= i < |players| ==> FitsPlayer(players[i]) && |players[i].segments| <= len
  }

  lemma FoodFits(cfg: Config, g: Game)
    requires cfg.width < TWO_31 && cfg.height < TWO_31
    requires ItemsInside(cfg, g.food) && PlainItems(g.food) && ItemsInside(cfg, g.boosts) && PlainItems(g.boosts)
    ensures var m := BuildGameState(g, 0);
      && |m.food| <= cfg.width * cfg.height && (forall f :: f in m.food ==> FitsFood(f))
      && |m.speedBoosts| == |g.boosts.keys| && (forall f :: f in m.speedBoosts ==> FitsFood(f))
  {
    ItemsFit(cfg, g.food);
    ItemsFit(cfg, g.boosts);
    ItemsCount(cfg, g.food);
  }

  lemma BroadcastLists(cfg: Config, g: Game, now: int, joins: nat, len: nat)
    requires Presentable(cfg, g, joins, len) && Room(cfg, joins, len)
    ensures var m := BuildGameState(g, now);
      ListsFit(m.food, m.speedBoosts, m.players, joins, len, cfg.width * cfg.height)
  {
    FoodFits(cfg, g);
    PlayersFit(cfg, g, joins, len);
  }

  lemma StateFits(m: Message, joins: nat, len: nat, area: nat)
    requires m.GameState? && FitsHeader(m.hdr) && m.hdr.messageType == GAME_STATE
    requires |m.highScoreUsername| == USERNAME_SIZE && FitsInt32(m.highScore)
    requires ListsFit(m.food, m.speedBoosts, m.players, joins, len, area)
    requires 69 + 13 * area + joins * (PLAYER_FIELDS_SIZE + 8 * len) < TWO_31
    ensures Carriable(m)
  {
    Within(|m.players|, joins, PLAYER_FIELDS_SIZE + 8 * len);
    BroadcastBound(m, joins, len, area);
    forall p | p in m.players ensures FitsPlayer(p) {
      var i :| 0 <= i < |m.players| && m.players[i] == p;
    }
  }

  lemma BroadcastFits(cfg: Config, g: Game, now: int, joins: nat, len: nat)
    requires Presentable(cfg, g, joins, len) && Room(cfg, joins, len) && FitsInt64(now)
    ensures Carriable(BuildGameState(g, now))
  {
    BroadcastLists(cfg, g, now, joins, len);
    StateFits(BuildGameState(g, now), joins, len, cfg.width * cfg.height);
  }

  /** Fewer players take less room; so do no more than there are bytes. */
  lemma Within(n: nat, joins: nat, k: nat)
    requires n <= joins && k > 0
    ensures n <= n * k <= joins * k
  {
    Scaled(n, joins, k);
    if n > 0 { Scaled(1, k, n); }
  }

  lemma BroadcastBound(m: Message, joins: nat, len: nat, area: nat)
    requires m.GameState? && |m.highScoreUsername| == USERNAME_SIZE
    requires forall i :: 0 <= i < |m.players| ==> FitsPlayer(m.players[i]) && |m.players[i].segments| <= len
    requires |m.food| <= area && |m.speedBoosts| <= 1
    requires |m.players| * (PLAYER_FIELDS_SIZE + 8 * len) <= joins * (PLAYER_FIELDS_SIZE + 8 * len)
    requires 69 + 13 * area + joins * (PLAYER_FIELDS_SIZE + 8 * len) < TWO_31
    ensures |Encode(m)| < TWO_31
  {
    GameStateSize(m, len);
  }

  // ---------- the records of a run fit ----------

  lemma BodyIgnoresHeader(m: Message, h: Header)
    ensures PutBody(m.(hdr := h), []) == PutBody(m, [])
  {
  }

  lemma NewHeaderFits(m: Message, h: Header)
    requires Carriable(m) && FitsHeader(h) && h.messageType == m.hdr.messageType
    ensures Carriable(m.(hdr := h))
  {
    BodyIgnoresHeader(m, h);
  }

  lemma WelcomeFits(id: Int32, now: int)
    requires FitsInt64(now)
    ensures Carriable(Welcome(id, now))
  {
  }

  ghost predicate AllFit(log: seq<Message>) {
    forall m :: m in log ==> Carriable(m) && TimeOf(m) > 0
  }

  lemma AllFitConcat(a: seq<Message>, b: seq<Message>)
    requires AllFit(a) && AllFit(b)
    ensures AllFit(a + b)
  {
  }

  lemma OneFits(m: Message)
    requires Carriable(m) && TimeOf(m) > 0
    ensures AllFit([m])
  {
  }

  lemma OneMessageFits(cfg: Config, g: Game, now: int, m: Message)
    requires Carriable(m) && now > 0 && FitsInt64(now)
    ensures AllFit([Stamp(m, now)]) && AllFit(Answers(m, now))
  {
    NewHeaderFits(m, Stamp(m, now).hdr);
    OneFits(Stamp(m, now));
    if m.ClientJoin? {
      WelcomeFits(m.hdr.clientId, now);
      OneFits(Welcome(m.hdr.clientId, now));
    }
  }

  lemma {:induction false} MessagesFit(cfg: Config, g: Game, now: int, messages: seq<Message>)
    requires AllEncodable(messages) && now > 0 && FitsInt64(now)
    ensures AllFit(ApplyAll(cfg, g, now, messages).records)
    ensures |ApplyAll(cfg, g, now, messages).records| <= 2 * |messages|
    decreases |messages|
  {
    if messages != [] {
      var a := ApplyOne(cfg, g, now, messages[0]);
      RecordsOf(cfg, g, now, messages[0]);
      OneMessageFits(cfg, g, now, messages[0]);
      AllFitConcat([Stamp(messages[0], now)], Answers(messages[0], now));
      MessagesFit(cfg, a.game, now, messages[1..]);
      AllFitConcat(a.records, ApplyAll(cfg, a.game, now, messages[1..]).records);
    }
  }

  lemma TickIsPresentable(cfg: Config, g: Game, now: int, messages: seq<Message>, joins: nat, len: nat)
    requires Paced(cfg) && Presentable(cfg, g, joins, len) && len > 0 && AllEncodable(messages)
    ensures Presentable(cfg, Tick(cfg, g, now, messages).game, joins + JoinsIn(messages), len + 1)
  {
    TickIsGood(cfg, g, now, messages);
    TickSized(cfg, g, now, messages, joins, len);
  }

  lemma ToldFits(cfg: Config, t: Outcome, now: int, joins: nat, len: nat)
    requires Presentable(cfg, t.game, joins, len) && Room(cfg, joins, len) && now > 0 && FitsInt64(now)
    ensures AllFit(if t.changed then [BuildGameState(t.game, now)] else [])
  {
    if t.changed {
      BroadcastFits(cfg, t.game, now, joins, len);
      OneFits(BuildGameState(t.game, now));
    }
  }

  /** The records of a tick are those of its messages and those of telling the clients. */
  lemma TickRecords(cfg: Config, g: Game, now: int, messages: seq<Message>)
    ensures var t := Tick(cfg, g, now, messages);
      t.records == ApplyAll(cfg, ReplaceFoodIn(cfg, g), now, messages).records
                   + if t.changed then [BuildGameState(t.game, now)] else []
  {
  }

  lemma TickFits(cfg: Config, g: Game, now: int, messages: seq<Message>, joins: nat, len: nat)
    requires Presentable(cfg, Tick(cfg, g, now, messages).game, joins, len) && AllEncodable(messages)
    requires Room(cfg, joins, len) && now > 0 && FitsInt64(now)
    ensures AllFit(Tick(cfg, g, now, messages).records) && |Tick(cfg, g, now, messages).records| <= 2 * |messages| + 1
  {
    var t := Tick(cfg, g, now, messages);
    TickRecords(cfg, g, now, messages);
    MessagesFit(cfg, ReplaceFoodIn(cfg, g), now, messages);
    ToldFits(cfg, t, now, joins, len);
    AllFitConcat(ApplyAll(cfg, ReplaceFoodIn(cfg, g), now, messages).records,
                 if t.changed then [BuildGameState(t.game, now)] else []);
  }

  /** Messages that were read from frames, at a positive time. */
  ghost predicate ReceivablePoll(p: Poll) {
    AllEncodable(p.messages) && 0 < p.at && FitsInt64(p.at)
  }

  ghost predicate Receivable(polls: seq<Poll>) {
    forall p :: p in polls ==> ReceivablePoll(p)
  }

  function MessageCount(polls: seq<Poll>): nat {
    if polls == [] then 0 else |polls[0].messages| + MessageCount(polls[1..])
  }

  function JoinCount(polls: seq<Poll>): nat {
    if polls == [] then 0 else JoinsIn(polls[0].messages) + JoinCount(polls[1..])
  }

  lemma RoomShrinks(cfg: Config, joins: nat, len: nat, moreJoins: nat, moreLen: nat)
    requires Room(cfg, moreJoins, moreLen) && joins <= moreJoins && len <= moreLen
    ensures Room(cfg, joins, len)
  {
    Scaled(joins, moreJoins, PLAYER_FIELDS_SIZE + 8 * moreLen);
    ScaledRight(joins, PLAYER_FIELDS_SIZE + 8 * len, PLAYER_FIELDS_SIZE + 8 * moreLen);
  }

  lemma ScaledRight(n: nat, a: nat, b: nat)
    requires a <= b
    ensures n * a <= n * b
  {
    if n > 0 { Scaled(a, b, n); }
  }

  /** What an engine does to a game, and what it logs: in one tick, and in a run. */
  datatype Doing = Doing(
    next: (Game, Poll) -> Game, records: (Game, Poll) -> seq<Message>, log: (Game, seq<Poll>) -> seq<Message>)

  ghost predicate Unrolls(e: Doing, g: Game, polls: seq<Poll>) {
    e.log(g, polls) ==
      if polls == [] then [] else e.records(g, polls[0]) + e.log(e.next(g, polls[0]), polls[1..])
  }

  /** If the game is good before the tick, it is good after it. */
  ghost predicate StaysGood(e: Doing, good: (Game, nat, nat) -> bool, p: Poll, g: Game, j: nat, l: nat) {
    good(g, j, l) ==> good(e.next(g, p), j + JoinsIn(p.messages), l + 1)
  }

  /** If the game is good after the tick, its records are ok, unless there were too many joins or ticks. */
  ghost predicate LogsOk(
    e: Doing, good: (Game, nat, nat) -> bool, ok: seq<Message> -> bool, p: Poll, joins: nat, len: nat,
    g: Game, j: nat, l: nat)
  {
    good(e.next(g, p), j, l) && j <= joins && l <= len ==> ok(e.records(g, p))
  }

  ghost predicate KeptByConcat(ok: seq<Message> -> bool, a: seq<Message>, b: seq<Message>) {
    ok(a) && ok(b) ==> ok(a + b)
  }

  lemma {:induction false} RunKeepsGood(
    e: Doing, good: (Game, nat, nat) -> bool, ok: seq<Message> -> bool,
    g: Game, polls: seq<Poll>, j: nat, l: nat, joins: nat, len: nat)
    requires forall h, ps :: Unrolls(e, h, ps)
    requires forall p, h, x, y :: p in polls ==> StaysGood(e, good, p, h, x, y)
    requires forall p, h, x, y :: p in polls ==> LogsOk(e, good, ok, p, joins, len, h, x, y)
    requires ok([]) && forall a, b :: KeptByConcat(ok, a, b)
    requires good(g, j, l) && j + JoinCount(polls) <= joins && l + |polls| <= len
    ensures ok(e.log(g, polls))
    decreases |polls|
  {
    assert Unrolls(e, g, polls);
    if polls != [] {
      var p := polls[0];
      assert p in polls && StaysGood(e, good, p, g, j, l);
      assert LogsOk(e, good, ok, p, joins, len, g, j + JoinsIn(p.messages), l + 1);
      RunKeepsGood(e, good, ok, e.next(g, p), polls[1..], j + JoinsIn(p.messages), l + 1, joins, len);
      assert KeptByConcat(ok, e.records(g, p), e.log(e.next(g, p), polls[1..]));
    }
  }

  lemma {:induction false} RecordCount(cfg: Config, g: Game, now: int, messages: seq<Message>)
    ensures |ApplyAll(cfg, g, now, messages).records| <= 2 * |messages|
    decreases |messages|
  {
    if messages != [] {
      RecordsOf(cfg, g, now, messages[0]);
      RecordCount(cfg, ApplyOne(cfg, g, now, messages[0]).game, now, messages[1..]);
    }
  }

  lemma {:induction false} RunCount(cfg: Config, g: Game, polls: seq<Poll>)
    ensures |Run(cfg, g, polls).1| <= 2 * MessageCount(polls) + |polls|
    decreases |polls|
  {
    if polls != [] {
      var now, messages := polls[0].at, polls[0].messages;
      RecordCount(cfg, ReplaceFoodIn(cfg, g), now, messages);
      TickRecords(cfg, g, now, messages);
      RunCount(cfg, Tick(cfg, g, now, messages).game, polls[1..]);
      RunCons(cfg, g, polls);
    }
  }

  /** The engine of this model. */
  ghost function Ticking(cfg: Config): Doing {
    Doing((h: Game, p: Poll) => Tick(cfg, h, p.at, p.messages).game,
          (h: Game, p: Poll) => Tick(cfg, h, p.at, p.messages).records,
          (h: Game, ps: seq<Poll>) => Run(cfg, h, ps).1)
  }

  ghost function GoodFor(cfg: Config): (Game, nat, nat) -> bool {
    (h: Game, j: nat, l: nat) => l > 0 && Presentable(cfg, h, j, l)
  }

  ghost function Fitting(): seq<Message> -> bool {
    (log: seq<Message>) => AllFit(log)
  }

  lemma RunUnrolls(cfg: Config, g: Game, polls: seq<Poll>)
    ensures Unrolls(Ticking(cfg), g, polls)
  {
    if polls != [] { RunCons(cfg, g, polls); }
  }

  lemma TickStaysGood(cfg: Config, p: Poll, g: Game, j: nat, l: nat)
    requires Paced(cfg) && ReceivablePoll(p)
    ensures StaysGood(Ticking(cfg), GoodFor(cfg), p, g, j, l)
  {
    if GoodFor(cfg)(g, j, l) { TickIsPresentable(cfg, g, p.at, p.messages, j, l); }
  }

  lemma TickLogsOk(cfg: Config, p: Poll, joins: nat, len: nat, g: Game, j: nat, l: nat)
    requires ReceivablePoll(p) && Room(cfg, joins, len)
    ensures LogsOk(Ticking(cfg), GoodFor(cfg), Fitting(), p, joins, len, g, j, l)
  {
    if GoodFor(cfg)(Ticking(cfg).next(g, p), j, l) && j <= joins && l <= len {
      RoomShrinks(cfg, j, l, joins, len);
      TickFits(cfg, g, p.at, p.messages, j, l);
    }
  }

  lemma FittingByConcat(a: seq<Message>, b: seq<Message>)
    ensures KeptByConcat(Fitting(), a, b)
  {
    if AllFit(a) && AllFit(b) { AllFitConcat(a, b); }
  }

  lemma RunFits(cfg: Config, g: Game, polls: seq<Poll>, joins: nat, len: nat)
    requires Paced(cfg) && Presentable(cfg, g, 0, 1) && Receivable(polls) && Room(cfg, joins, len)
    requires JoinCount(polls) <= joins && 1 + |polls| <= len
    ensures AllFit(Run(cfg, g, polls).1)
  {
    var e, good, ok := Ticking(cfg), GoodFor(cfg), Fitting();
    forall h, ps ensures Unrolls(e, h, ps) { RunUnrolls(cfg, h, ps); }
    forall p, h, j: nat, l: nat | p in polls ensures StaysGood(e, good, p, h, j, l) {
      TickStaysGood(cfg, p, h, j, l);
    }
    forall p, h, j: nat, l: nat | p in polls ensures LogsOk(e, good, ok, p, joins, len, h, j, l) {
      TickLogsOk(cfg, p, joins, len, h, j, l);
    }
    forall a, b ensures KeptByConcat(ok, a, b) { FittingByConcat(a, b); }
    RunKeepsGood(e, good, ok, g, polls, 0, 1, joins, len);
  }

  /** There is room for a broadcast with a player for every join, each grown in every tick, and the
      records can be numbered. */
  predicate Roomy(cfg: Config, polls: seq<Poll>) {
    Room(cfg, JoinCount(polls), 1 + |polls|) && 1 + 2 * MessageCount(polls) + |polls| < TWO_63
  }

  lemma NewGameIsPresentable(cfg: Config, seed: nat)
    ensures Presentable(cfg, NewGame(seed), 0, 1)
  {
  }

  lemma OneNumberFits(m: Message, n: int)
    requires Carriable(m) && FitsInt64(n)
    ensures Carriable(WithSequence(m, n)) && TimeOf(WithSequence(m, n)) == TimeOf(m)
  {
    NewHeaderFits(m, WithSequence(m, n).hdr);
  }

  lemma NumberFits(log: seq<Message>, from: nat)
    requires AllFit(log) && from + |log| < TWO_63
    ensures AllFit(Number(log, from))
  {
    var n := Number(log, from);
    forall i | 0 <= i < |n| ensures Carriable(n[i]) && TimeOf(n[i]) > 0 {
      NumberAt(log, from, i);
      assert log[i] in log;
      OneNumberFits(log[i], from + i);
    }
  }

  /** Every record that a server logs after its configuration can be written, and has a positive time. */
  lemma LogFits(cfg: Config, seed: nat, polls: seq<Poll>)
    requires Paced(cfg) && Receivable(polls) && Roomy(cfg, polls)
    ensures AllFit(LogOf(cfg, seed, polls))
  {
    NewGameIsPresentable(cfg, seed);
    RunFits(cfg, NewGame(seed), polls, JoinCount(polls), 1 + |polls|);
    RunCount(cfg, NewGame(seed), polls);
    NumberFits(Run(cfg, NewGame(seed), polls).1, 1);
  }

  // ---------- so does what a replay is fed ----------

  lemma {:induction false} KeptCount(messages: seq<Message>)
    ensures |KeptOnly(messages)| <= |messages|
    ensures forall m :: m in KeptOnly(messages) ==> m in messages
  {
    if messages != [] { KeptCount(messages[1..]); }
  }

  lemma {:induction false} StampCount(messages: seq<Message>, now: int)
    ensures |StampAll(messages, now)| == |messages|
  {
    if messages != [] { StampCount(messages[1..], now); }
  }

  /** What is kept of a tick's records is no more than what it was sent. */
  lemma TickKeeps(cfg: Config, g: Game, now: int, messages: seq<Message>)
    ensures |KeptOnly(Tick(cfg, g, now, messages).records)| <= |messages|
  {
    var f := ReplaceFoodIn(cfg, g);
    var a, t := ApplyAll(cfg, f, now, messages).records, Tick(cfg, g, now, messages);
    RecordsKept(cfg, f, now, messages);
    StampCount(KeptOnly(messages), now);
    KeptCount(messages);
    var told := if t.changed then [BuildGameState(t.game, now)] else [];
    KeptOnlyConcat(a, told);
    if t.changed { KeptOnlyHead(told); }
  }

  lemma {:induction false} RunKeeps(cfg: Config, g: Game, polls: seq<Poll>)
    ensures |KeptOnly(Run(cfg, g, polls).1)| <= MessageCount(polls)
    decreases |polls|
  {
    if polls != [] {
      var t := Tick(cfg, g, polls[0].at, polls[0].messages);
      RunKeeps(cfg, t.game, polls[1..]);
      TickKeeps(cfg, g, polls[0].at, polls[0].messages);
      RunCons(cfg, g, polls);
      KeptOnlyConcat(t.records, Run(cfg, t.game, polls[1..]).1);
    }
  }

  /** A replay has no more ticks than the run it replays. */
  lemma {:induction false} ReplayIsNoLonger(cfg: Config, g: Game, polls: seq<Poll>)
    ensures |ReplayPolls(Run(cfg, g, polls).1)| <= |polls|
    decreases |polls|
  {
    if polls != [] {
      var t := Tick(cfg, g, polls[0].at, polls[0].messages);
      var later := Run(cfg, t.game, polls[1..]).1;
      ReplayIsNoLonger(cfg, t.game, polls[1..]);
      RunCons(cfg, g, polls);
      if t.records == [] {
        assert [] + later == later;
      } else {
        TickTimes(cfg, g, polls[0].at, polls[0].messages);
        ReplayPrepend(t.records, later, polls[0].at);
      }
    }
  }

  lemma {:induction false} BatchesCount(batches: seq<Batch>)
    ensures MessageCount(ReplayBatches(batches)) == |KeptOnly(Flatten(batches))|
  {
    if batches != [] {
      BatchesCount(batches[1..]);
      KeptOnlyConcat(batches[0], Flatten(batches[1..]));
    }
  }

  lemma {:induction false} InFlatten(batches: seq<Batch>, i: nat)
    requires i < |batches|
    ensures forall m :: m in batches[i] ==> m in Flatten(batches)
  {
    if i > 0 { InFlatten(batches[1..], i - 1); }
  }

  lemma {:induction false} ReplayBatchAt(batches: seq<Batch>, i: nat)
    requires i < |batches|
    ensures |ReplayBatches(batches)| == |batches|
    ensures ReplayBatches(batches)[i] == Poll(BatchTime(batches[i]), KeptOnly(batches[i]))
  {
    if i > 0 {
      ReplayBatchAt(batches[1..], i - 1);
    } else if |batches| > 1 {
      ReplayBatchAt(batches[1..], 0);
    }
  }

  lemma BatchesFit(batches: seq<Batch>)
    requires AllFit(Flatten(batches))
    ensures Receivable(ReplayBatches(batches))
  {
    var polls := ReplayBatches(batches);
    if batches != [] { ReplayBatchAt(batches, 0); }
    forall i | 0 <= i < |polls| ensures ReceivablePoll(polls[i]) {
      ReplayBatchAt(batches, i);
      InFlatten(batches, i);
      BatchFits(batches[i]);
    }
  }

  lemma BatchFits(b: Batch)
    requires AllFit(b)
    ensures AllEncodable(KeptOnly(b)) && 0 < BatchTime(b) && FitsInt64(BatchTime(b))
  {
    KeptCount(b);
    forall i | 0 <= i < |KeptOnly(b)| ensures Carriable(KeptOnly(b)[i]) {
      assert KeptOnly(b)[i] in KeptOnly(b);
    }
    assert b[0] in b;
  }

  lemma {:induction false} JoinsConcat(a: seq<Message>, b: seq<Message>)
    ensures JoinsIn(a + b) == JoinsIn(a) + JoinsIn(b)
  {
    if a == [] {
      assert a + b == b;
    } else {
      assert (a + b)[1..] == a[1..] + b;
      JoinsConcat(a[1..], b);
    }
  }

  lemma {:induction false} JoinsAreKept(messages: seq<Message>)
    ensures JoinsIn(KeptOnly(messages)) == JoinsIn(messages)
  {
    if messages != [] {
      JoinsAreKept(messages[1..]);
      KeptOnlyHead(messages);
    }
  }

  lemma OneJoins(m: Message, now: int)
    ensures JoinsIn([Stamp(m, now)] + Answers(m, now)) == if m.ClientJoin? then 1 else 0
  {
    JoinsConcat([Stamp(m, now)], Answers(m, now));
  }

  lemma {:induction false} RecordJoins(cfg: Config, g: Game, now: int, messages: seq<Message>)
    ensures JoinsIn(ApplyAll(cfg, g, now, messages).records) == JoinsIn(messages)
    decreases |messages|
  {
    if messages != [] {
      var a := ApplyOne(cfg, g, now, messages[0]);
      RecordsOf(cfg, g, now, messages[0]);
      OneJoins(messages[0], now);
      RecordJoins(cfg, a.game, now, messages[1..]);
      JoinsConcat(a.records, ApplyAll(cfg, a.game, now, messages[1..]).records);
    }
  }

  /** The joins in a log are the joins that the server was sent. */
  lemma {:induction false} RunJoins(cfg: Config, g: Game, polls: seq<Poll>)
    ensures JoinsIn(Run(cfg, g, polls).1) == JoinCount(polls)
    decreases |polls|
  {
    if polls != [] {
      var now, messages := polls[0].at, polls[0].messages;
      var t := Tick(cfg, g, now, messages);
      TickRecords(cfg, g, now, messages);
      RecordJoins(cfg, ReplaceFoodIn(cfg, g), now, messages);
      JoinsConcat(ApplyAll(cfg, ReplaceFoodIn(cfg, g), now, messages).records,
                  if t.changed then [BuildGameState(t.game, now)] else []);
      RunJoins(cfg, t.game, polls[1..]);
      RunCons(cfg, g, polls);
      JoinsConcat(t.records, Run(cfg, t.game, polls[1..]).1);
    }
  }

  lemma {:induction false} BatchesJoins(batches: seq<Batch>)
    ensures JoinCount(ReplayBatches(batches)) == JoinsIn(Flatten(batches))
  {
    if batches != [] {
      BatchesJoins(batches[1..]);
      JoinsAreKept(batches[0]);
      JoinsConcat(batches[0], Flatten(batches[1..]));
    }
  }

  /** A replay has as many joins as the run it replays, no more messages and no more ticks. */
  lemma ReplayCounts(cfg: Config, g: Game, polls: seq<Poll>)
    ensures var again := ReplayPolls(Run(cfg, g, polls).1);
      JoinCount(again) == JoinCount(polls) && MessageCount(again) <= MessageCount(polls) && |again| <= |polls|
  {
    var run := Run(cfg, g, polls).1;
    GroupsAreTheLog(run);
    BatchesCount(GroupByTime(run));
    BatchesJoins(GroupByTime(run));
    RunKeeps(cfg, g, polls);
    RunJoins(cfg, g, polls);
    ReplayIsNoLonger(cfg, g, polls);
  }

  lemma FewerAreRoomy(cfg: Config, polls: seq<Poll>, fewer: seq<Poll>)
    requires Roomy(cfg, polls) && |fewer| <= |polls|
    requires JoinCount(fewer) == JoinCount(polls) && MessageCount(fewer) <= MessageCount(polls)
    ensures Roomy(cfg, fewer)
  {
    RoomShrinks(cfg, JoinCount(fewer), 1 + |fewer|, JoinCount(polls), 1 + |polls|);
  }

  /** What a replay is fed was read from frames, if the records of the log fit. */
  lemma ReplayIsReceivable(log: seq<Message>)
    requires AllFit(log)
    ensures Receivable(ReplayPolls(log))
  {
    GroupsAreTheLog(log);
    BatchesFit(GroupByTime(log));
  }

  /** The log of a replay fits, too. */
  lemma ReplayFits(cfg: Config, seed: nat, polls: seq<Poll>)
    requires Paced(cfg) && Receivable(polls) && Roomy(cfg, polls)
    ensures AllFit(LogOf(cfg, seed, ReplayPolls(LogOf(cfg, seed, polls))))
  {
    var run := Run(cfg, NewGame(seed), polls).1;
    NewGameIsPresentable(cfg, seed);
    RunFits(cfg, NewGame(seed), polls, JoinCount(polls), 1 + |polls|);
    ReplayIsReceivable(run);
    ReplayCounts(cfg, NewGame(seed), polls);
    FewerAreRoomy(cfg, polls, ReplayPolls(run));
    LogFits(cfg, seed, ReplayPolls(run));
    NumbersIgnored(cfg, NewGame(seed), run, 1);
  }

  // ---------- ticks that log nothing take no room ----------

  /** A run without its quiet ticks was sent the same messages in no more ticks. */
  lemma {:induction false} LoudCounts(cfg: Config, g: Game, polls: seq<Poll>)
    ensures MessageCount(Loud(cfg, g, polls)) == MessageCount(polls)
    ensures JoinCount(Loud(cfg, g, polls)) == JoinCount(polls)
    ensures |Loud(cfg, g, polls)| <= |polls|
    decreases |polls|
  {
    if polls != [] {
      LoudCounts(cfg, Tick(cfg, g, polls[0].at, polls[0].messages).game, polls[1..]);
    }
  }

  lemma RoomyWhenLoud(cfg: Config, g: Game, polls: seq<Poll>)
    requires Roomy(cfg, polls)
    ensures Roomy(cfg, Loud(cfg, g, polls))
  {
    LoudCounts(cfg, g, polls);
    FewerAreRoomy(cfg, polls, Loud(cfg, g, polls));
  }

  lemma {:induction false} LoudIsReceivable(cfg: Config, g: Game, polls: seq<Poll>)
    requires Receivable(polls)
    ensures Receivable(Loud(cfg, g, polls))
    decreases |polls|
  {
    if polls != [] {
      LoudIsReceivable(cfg, Tick(cfg, g, polls[0].at, polls[0].messages).game, polls[1..]);
      assert ReceivablePoll(polls[0]);
    }
  }

  /** However many quiet ticks there are, the log fits, and so does that of its replay, as long as there is
      room for the other ticks. */
  lemma LoudLogsFit(cfg: Config, seed: nat, polls: seq<Poll>)
    requires Fair(cfg) && Paced(cfg) && Ordered(polls) && Receivable(polls)
    requires Roomy(cfg, Loud(cfg, NewGame(seed), polls))
    ensures AllFit(LogOf(cfg, seed, polls)) && AllFit(LogOf(cfg, seed, ReplayPolls(LogOf(cfg, seed, polls))))
  {
    var loud := Loud(cfg, NewGame(seed), polls);
    QuietTicksCanGo(cfg, NewGame(seed), polls);
    LoudIsReceivable(cfg, NewGame(seed), polls);
    LogFits(cfg, seed, loud);
    ReplayFits(cfg, seed, loud);
  }
}
