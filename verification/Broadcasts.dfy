/** What the GAME_STATEs in a log say: the game after the tick that logged them, and whose high score it is. */
module Broadcasts {
  import opened LittleEndian
  import opened Protocol
  import opened Chains
  import opened Engine
  import opened Collisions
  import opened Invariants
  import opened Replay
  import opened Clients
  import opened Draws

  // ---------- items ----------

  /** Food is shown as '@' and a boost as a white '*', each in its own cell. */
  ghost predicate LooksRight(g: Game) {
    FoodLooksRight(g.food.m) && forall c :: c in g.boosts.m ==> g.boosts.m[c] == Food(1, '*', c.x, c.y)
  }

  ghost predicate FoodLooksRight(m: map<Pos, Food>) {
    forall c :: c in m ==> m[c].x == c.x && m[c].y == c.y && m[c].icon == '@'
  }

  lemma LaidLooksRight(cfg: Config, food: map<Pos, Food>, gen: nat, k: nat, after: map<Pos, Food>, end: nat)
    requires FoodLooksRight(food) && DrawnAndLaid(cfg, food, gen, k, after, end)
    ensures FoodLooksRight(after)
  {
  }

  lemma RefilledLooksRight(cfg: Config, g: Game)
    requires FoodLooksRight(g.food.m)
    ensures FoodLooksRight(ReplaceFoodIn(cfg, g).food.m)
  {
    if Refillable(cfg, g.food, g.gen) {
      var n: nat :| Refilled(cfg, g.food, g.gen, n);
      var (after, end) := Refill(cfg, g.food, g.gen, n);
      ReplaceFoodIs(cfg, g.food, g.gen, n);
      var k := RefillDraws(cfg, g.food, g.gen, n, after, end);
      LaidLooksRight(cfg, g.food.m, g.gen, k, after.m, end);
    }
  }

  lemma StrewnLooksRight(
    cfg: Config, food: map<Pos, Food>, gen: nat, remains: seq<(Pos, int)>, after: map<Pos, Food>, end: nat)
    requires FoodLooksRight(food) && Thrown(cfg, food, gen, remains, after, end)
    ensures FoodLooksRight(after)
  {
    var dice := Dice(cfg, gen, |remains|, 3).0;
    forall c | c in after ensures after[c].x == c.x && after[c].y == c.y && after[c].icon == '@' {
      assert StrewnAt(food, remains, dice, after, c);
    }
  }

  /** Someone was boosted in cell c. */
  ghost predicate Collected(cfg: Config, g: Game, c: Pos) {
    exists id :: id in g.players.m && Head(g.players.m[id]) == c && Decide(cfg, g.players, StartClash(g), id) == Speeds
  }

  /** A check takes exactly the boosts that somebody gets. */
  lemma BoostsAfterCheck(cfg: Config, g: Game, now: int)
    ensures var h := CheckCollisions(cfg, g, now);
      && (forall c :: c in h.boosts.m <==> c in g.boosts.m && !Collected(cfg, g, c))
      && (forall c :: c in h.boosts.m ==> h.boosts.m[c] == g.boosts.m[c])
  {
    var start, order := StartClash(g), g.players.keys;
    var x, vs := CollideAll(cfg, g.players, start, order, now), VerdictsOf(cfg, g.players, start);
    assert OrderOf(order, start.players);
    CheckIsVerdicts(cfg, g.players, start, order, now);
    BoostsKept(cfg, AfterClash(g, x), x.doomed);
    forall c ensures c in CellsOf(vs, start, order, Speeds) <==> Collected(cfg, g, c) { CollectedCells(cfg, g, c); }
  }

  lemma CollectedCells(cfg: Config, g: Game, c: Pos)
    ensures var vs := VerdictsOf(cfg, g.players, StartClash(g));
      Covers(vs, StartClash(g), g.players.keys)
      && (c in CellsOf(vs, StartClash(g), g.players.keys, Speeds) <==> Collected(cfg, g, c))
  {
  }

  lemma CheckLooksRight(cfg: Config, g: Game, now: int)
    requires LooksRight(g)
    ensures LooksRight(CheckCollisions(cfg, g, now))
  {
    var x, h := CollideAll(cfg, g.players, StartClash(g), g.players.keys, now), CheckCollisions(cfg, g, now);
    CheckThrows(cfg, g, now);
    StrewnLooksRight(cfg, x.food.m, g.gen, Remains(g.players.m, x.doomed), h.food.m, h.gen);
    BoostsAfterCheck(cfg, g, now);
  }

  lemma BoostLooksRight(cfg: Config, g: Game)
    requires LooksRight(g)
    ensures LooksRight(PlaceSpeedBoost(cfg, g))
  {
    BoostIsPlaced(cfg, g);
  }

  lemma AdvanceLooksRight(cfg: Config, g: Game, now: int)
    requires LooksRight(g)
    ensures LooksRight(Advance(cfg, g, now))
  {
    var h := UpdateSnakes(cfg, g, now);
    if AnyDue(g, now) {
      CheckLooksRight(cfg, h, now);
      BoostLooksRight(cfg, CheckCollisions(cfg, h, now));
    }
  }

  lemma TickLooksRight(cfg: Config, g: Game, now: int, messages: seq<Message>)
    requires LooksRight(g)
    ensures LooksRight(Tick(cfg, g, now, messages).game)
  {
    RefilledLooksRight(cfg, g);
    MessagesTouchPlayers(cfg, ReplaceFoodIn(cfg, g), now, messages);
    AdvanceLooksRight(cfg, ApplyAll(cfg, ReplaceFoodIn(cfg, g), now, messages).game, now);
  }

  lemma {:induction false} RunLooksRight(cfg: Config, g: Game, polls: seq<Poll>)
    requires LooksRight(g)
    ensures LooksRight(Run(cfg, g, polls).0)
    decreases |polls|
  {
    if polls != [] {
      TickLooksRight(cfg, g, polls[0].at, polls[0].messages);
      RunLooksRight(cfg, Tick(cfg, g, polls[0].at, polls[0].messages).game, polls[1..]);
    }
  }

  // ---------- whose high score it is ----------

  /** The high score is the old one, or higher and that of a player looked at. */
  ghost predicate HighFrom(cfg: Config, vs: Verdicts, start: Clash, done: seq<Int32>, now: int, high: HighScore)
    requires Covers(vs, start, done)
  {
    || high == start.high
    || (high.score > start.high.score && exists id :: id in done && HighOf(cfg, vs, start, now, id, high))
  }

  predicate HighOf(cfg: Config, vs: Verdicts, start: Clash, now: int, id: Int32, high: HighScore)
    requires id in vs && id in start.players.m
  {
    high.name == start.players.m[id].name
    && high.score == Sentence(cfg, vs[id], start.players.m[id], now).score
  }

  lemma HighFromMore(cfg: Config, bodies: Players, vs: Verdicts, start: Clash, d: seq<Int32>, x: Clash, id: Int32,
      now: int)
    requires vs == VerdictsOf(cfg, bodies, start) && id in start.players.m && id !in d
    requires Resolved(cfg, vs, start, d, now, x) && HighFrom(cfg, vs, start, d, now, x.high)
    ensures id in x.players.m && Resolved(cfg, vs, start, d + [id], now, CollideOne(cfg, bodies, x, id, now))
    ensures HighFrom(cfg, vs, start, d + [id], now, CollideOne(cfg, bodies, x, id, now).high)
  {
    OneResolved(cfg, bodies, vs, start, d, x, id, now);
    VerdictHolds(cfg, bodies, vs, start, d, x, id, now);
    HighStep(cfg, vs, start, d, x, id, now);
  }

  lemma HighStep(cfg: Config, vs: Verdicts, start: Clash, d: seq<Int32>, x: Clash, id: Int32, now: int)
    requires Covers(vs, start, d) && id in vs && id in x.players.m && x.players.m[id] == start.players.m[id]
    requires IsPeak(cfg, vs, start, d, now, x.high.score) && HighFrom(cfg, vs, start, d, now, x.high)
    ensures HighFrom(cfg, vs, start, d + [id], now, Apply(cfg, x, id, vs[id], now).high)
  {
    var high := Apply(cfg, x, id, vs[id], now).high;
    if high == x.high {
      if x.high != start.high {
        var other :| other in d && HighOf(cfg, vs, start, now, other, x.high);
        assert other in d + [id];
      }
    } else {
      assert HighOf(cfg, vs, start, now, id, high) && id in d + [id];
    }
  }

  /** A player of this name and score was looked at in a check that began with these players. */
  ghost predicate ScoredIn(cfg: Config, h: Game, now: int, high: HighScore) {
    var c := CollideAll(cfg, h.players, StartClash(h), h.players.keys, now);
    exists id :: id in c.players.m && c.players.m[id].name == high.name && c.players.m[id].score == high.score
  }

  /** After a check the high score is the old one, name and all, or it is higher and has the name and score of a
      player in the check. */
  lemma CheckNamesHigh(cfg: Config, h: Game, now: int)
    ensures var high := CheckCollisions(cfg, h, now).high;
      high == h.high || (high.score > h.high.score && ScoredIn(cfg, h, now, high))
  {
    var start, order := StartClash(h), h.players.keys;
    var vs := VerdictsOf(cfg, h.players, start);
    var holds := (d: seq<Int32>, x: Clash) =>
      Resolved(cfg, vs, start, d, now, x) && HighFrom(cfg, vs, start, d, now, x.high);
    NothingResolved(cfg, vs, start, now);
    forall d: seq<Int32>, x: Clash, id | holds(d, x) && id in start.players.m && id !in d
      ensures id in x.players.m && holds(d + [id], CollideOne(cfg, h.players, x, id, now))
    {
      HighFromMore(cfg, h.players, vs, start, d, x, id, now);
    }
    CheckKeeps(cfg, h.players, holds, [], start, order, now);
    assert [] + order == order;
    var c := CollideAll(cfg, h.players, start, order, now);
    BoostsKept(cfg, AfterClash(h, c), c.doomed);
    if c.high != h.high {
      var id :| id in order && HighOf(cfg, vs, start, now, id, c.high);
      assert c.players.m[id] == Sentence(cfg, vs[id], h.players.m[id], now);
      SentenceName(cfg, vs[id], h.players.m[id], now);
    }
  }

  lemma SentenceName(cfg: Config, v: Verdict, p: Player, now: int)
    ensures Sentence(cfg, v, p, now).name == p.name
  {
  }

  lemma AdvanceNamesHigh(cfg: Config, a: Game, now: int, h: Game, high: HighScore)
    requires h == UpdateSnakes(cfg, a, now) && high == Advance(cfg, a, now).high
    ensures high == a.high || (high.score > a.high.score && ScoredIn(cfg, h, now, high))
  {
    CheckNamesHigh(cfg, h, now);
    assert high == if AnyDue(a, now) then CheckCollisions(cfg, h, now).high else a.high;
  }

  /** The same of a tick. */
  lemma TickNamesHigh(cfg: Config, g: Game, now: int, messages: seq<Message>, high: HighScore)
    requires high == Tick(cfg, g, now, messages).game.high
    ensures high == g.high || (high.score > g.high.score && ScoredIn(cfg, Moving(cfg, g, now, messages), now, high))
  {
    var a := ApplyAll(cfg, ReplaceFoodIn(cfg, g), now, messages).game;
    MessagesKeepHighScore(cfg, ReplaceFoodIn(cfg, g), now, messages);
    AdvanceNamesHigh(cfg, a, now, Moving(cfg, g, now, messages), high);
  }

  /** Somebody of this name had this score at a check of the run. */
  ghost predicate Scored(cfg: Config, g: Game, polls: seq<Poll>, high: HighScore)
    decreases |polls|
  {
    polls != [] &&
    var now, messages := polls[0].at, polls[0].messages;
    || ScoredIn(cfg, Moving(cfg, g, now, messages), now, high)
    || Scored(cfg, Tick(cfg, g, now, messages).game, polls[1..], high)
  }

  /** The high score after a run is the one from before, or higher and somebody's at some check. */
  lemma {:induction false} RunNamesHigh(cfg: Config, g: Game, polls: seq<Poll>)
    ensures var high := Run(cfg, g, polls).0.high;
      high == g.high || (high.score > g.high.score && Scored(cfg, g, polls, high))
    decreases |polls|
  {
    if polls != [] {
      TickNamesHigh(cfg, g, polls[0].at, polls[0].messages, Tick(cfg, g, polls[0].at, polls[0].messages).game.high);
      RunNamesHigh(cfg, Tick(cfg, g, polls[0].at, polls[0].messages).game, polls[1..]);
    }
  }

  // ---------- the broadcasts in a log ----------

  /** These items, each once. */
  ghost predicate ShowsItems(list: seq<Food>, m: map<Pos, Food>) {
    && |list| == |m.Keys|
    && (forall c :: c in m ==> m[c] in list)
    && (forall f :: f in list ==> Pos(f.x, f.y) in m && m[Pos(f.x, f.y)] == f)
  }

  /** The snake as it is: identifier, score, colour, name and direction, and its segments from the head on. */
  predicate ShowsPlayer(s: PlayerState, id: Int32, p: Player) {
    && s.clientId == id && s.score == p.score && s.color == p.color && s.username == p.name
    && s.direction == p.direction && |s.segments| == |p.chain|
    && forall i :: 0 <= i < |p.chain| ==> s.segments[i] == Segment(p.chain[i].pos.x, p.chain[i].pos.y)
  }

  ghost predicate ShowsPlayers(list: seq<PlayerState>, t: Players) {
    |list| == |t.keys| && forall i :: 0 <= i < |list| ==> ShowsPlayer(list[i], t.keys[i], t.m[t.keys[i]])
  }

  /** A GAME_STATE to all clients that shows this game. */
  ghost predicate Shows(m: Message, g: Game, at: int) {
    && m.GameState? && m.hdr.messageType == 5 && m.hdr.clientId == -1 && m.hdr.transactTime == at
    && m.highScore == g.high.score && m.highScoreUsername == g.high.name
    && ShowsItems(m.food, g.food.m) && ShowsItems(m.speedBoosts, g.boosts.m) && ShowsPlayers(m.players, g.players)
  }

  lemma {:induction false} ListShows(m: map<Pos, Food>, keys: seq<Pos>)
    requires forall c :: c in keys ==> c in m
    ensures |ItemList(m, keys)| == |keys|
    ensures forall f :: f in ItemList(m, keys) <==> exists c :: c in keys && m[c] == f
  {
    if keys != [] {
      assert keys[0] in keys;
      forall c | c in keys[1..] ensures c in m { assert c in keys; }
      ListShows(m, keys[1..]);
      assert forall c :: c in keys <==> c == keys[0] || c in keys[1..];
    }
  }

  lemma ItemsShown(t: Items)
    requires forall c :: c in t.m ==> t.m[c].x == c.x && t.m[c].y == c.y
    ensures ShowsItems(ItemList(t.m, t.keys), t.m)
  {
    var list := ItemList(t.m, t.keys);
    ListShows(t.m, t.keys);
    KeyCount(t);
    forall c | c in t.m ensures t.m[c] in list { assert c in t.keys; }
    forall f | f in list ensures Pos(f.x, f.y) in t.m && t.m[Pos(f.x, f.y)] == f {
      var c :| c in t.keys && t.m[c] == f;
      assert c == Pos(f.x, f.y);
    }
  }

  lemma {:induction false} SegmentsShown(cells: seq<Pos>, i: nat)
    requires i < |cells|
    ensures |SegmentsOf(cells)| == |cells| && SegmentsOf(cells)[i] == Segment(cells[i].x, cells[i].y)
  {
    if i > 0 { SegmentsShown(cells[1..], i - 1); } else if |cells| > 1 { SegmentsShown(cells[1..], 0); }
  }

  lemma PlayerShown(id: Int32, p: Player)
    ensures ShowsPlayer(PlayerStateOf(id, p), id, p)
  {
    var cells := Positions(p.chain);
    SegmentsShown(cells, 0);
    forall i | 0 <= i < |p.chain|
      ensures PlayerStateOf(id, p).segments[i] == Segment(p.chain[i].pos.x, p.chain[i].pos.y)
    {
      SegmentsShown(cells, i);
    }
  }

  lemma PlayersShown(t: Players)
    ensures ShowsPlayers(PlayerStates(t.m, t.keys), t)
  {
    if t.keys != [] { PlayerStatesAt(t.m, t.keys, 0); }
    forall i | 0 <= i < |t.keys| ensures ShowsPlayer(PlayerStates(t.m, t.keys)[i], t.keys[i], t.m[t.keys[i]]) {
      PlayerStatesAt(t.m, t.keys, i);
      PlayerShown(t.keys[i], t.m[t.keys[i]]);
    }
  }

  lemma BroadcastShowsGame(g: Game, at: int)
    requires LooksRight(g)
    ensures Shows(Engine.BuildGameState(g, at), g, at)
  {
    ItemsShown(g.food);
    ItemsShown(g.boosts);
    PlayersShown(g.players);
  }

  lemma OnlyTheLast(a: seq<Message>, told: seq<Message>, i: nat)
    requires NoGameStates(a) && |told| <= 1 && i < |a + told| && (a + told)[i].GameState?
    ensures i == |a| && |told| == 1 && (a + told)[i] == told[0]
  {
    forall j | 0 <= j < |a| ensures !(a + told)[j].GameState? { assert (a + told)[j] == a[j] && a[j] in a; }
  }

  lemma TickEnds(cfg: Config, g: Game, now: int, messages: seq<Message>)
    ensures var t := Tick(cfg, g, now, messages);
      t.records == ApplyAll(cfg, ReplaceFoodIn(cfg, g), now, messages).records
        + if t.changed then [Engine.BuildGameState(t.game, now)] else []
  {
  }

  /** The last record of a tick with news, and no other record, is its broadcast. */
  lemma TickShows(cfg: Config, g: Game, now: int, messages: seq<Message>, t: Outcome, i: nat)
    requires LooksRight(g) && NoGameStates(messages) && t == Tick(cfg, g, now, messages)
    requires i < |t.records| && t.records[i].GameState?
    ensures t.changed && i == |t.records| - 1 && Shows(t.records[i], t.game, now)
  {
    var f := ReplaceFoodIn(cfg, g);
    RecordsHaveNoGameState(cfg, f, now, messages);
    TickLooksRight(cfg, g, now, messages);
    BroadcastShowsGame(t.game, now);
    TickEnds(cfg, g, now, messages);
    OnlyTheLast(ApplyAll(cfg, f, now, messages).records,
                if t.changed then [Engine.BuildGameState(t.game, now)] else [], i);
  }

  /** Record i of the run is the last one of these first polls. */
  ghost predicate LastOf(cfg: Config, seed: nat, first: seq<Poll>, i: nat) {
    i == |Run(cfg, NewGame(seed), first).1| - 1
  }

  /** What a broadcast tells of the game after its tick, and of the high score up to its own tick. */
  ghost predicate TellsAll(cfg: Config, seed: nat, polls: seq<Poll>, m: Message) {
    var start, run := NewGame(seed), Run(cfg, NewGame(seed), polls);
    && polls != [] && Shows(m, run.0, polls[|polls| - 1].at) && LooksRight(run.0)
    && m.highScore == BestSeen(cfg, start, polls, 0)
    && var high := HighScore(m.highScoreUsername, m.highScore);
       high == HighScore([0, 0, 0, 0, 0, 0, 0, 0, 0, 0, 0, 0, 0, 0, 0, 0], 0) || Scored(cfg, start, polls, high)
  }

  lemma ShownTellsAll(cfg: Config, seed: nat, polls: seq<Poll>, m: Message)
    requires polls != [] && Shows(m, Run(cfg, NewGame(seed), polls).0, polls[|polls| - 1].at)
    ensures TellsAll(cfg, seed, polls, m)
  {
    RunLooksRight(cfg, NewGame(seed), polls);
    HighScoreIsBestSeen(cfg, NewGame(seed), polls);
    RunNamesHigh(cfg, NewGame(seed), polls);
  }

  /** Of a run with one more poll: a GAME_STATE logged in the last tick. */
  lemma LastTells(
    cfg: Config, seed: nat, polls: seq<Poll>, front: seq<Poll>, last: Poll, i: nat, before: (Game, seq<Message>),
    t: Outcome)
    requires polls == front + [last] && before == Run(cfg, NewGame(seed), front)
    requires t == Tick(cfg, before.0, last.at, last.messages) && NoGameStates(last.messages)
    requires Run(cfg, NewGame(seed), polls) == (t.game, before.1 + t.records)
    requires |before.1| <= i < |before.1 + t.records| && (before.1 + t.records)[i].GameState?
    ensures LastOf(cfg, seed, polls, i) && TellsAll(cfg, seed, polls, (before.1 + t.records)[i])
  {
    var m, j := (before.1 + t.records)[i], i - |before.1|;
    assert t.records[j] == m && polls[|polls| - 1] == last;
    RunLooksRight(cfg, NewGame(seed), front);
    TickShows(cfg, before.0, last.at, last.messages, t, j);
    ShownTellsAll(cfg, seed, polls, m);
  }

  /** Every GAME_STATE that a run logs is the last record of a tick and tells all about the game after it: some
      first polls of the run end with that tick. */
  lemma {:induction false} RunTells(cfg: Config, seed: nat, polls: seq<Poll>, i: nat, log: seq<Message>)
    returns (first: seq<Poll>)
    requires forall p :: p in polls ==> NoGameStates(p.messages)
    requires log == Run(cfg, NewGame(seed), polls).1 && i < |log| && log[i].GameState?
    ensures first <= polls && LastOf(cfg, seed, first, i) && TellsAll(cfg, seed, first, log[i])
    decreases |polls|
  {
    var n := |polls| - 1;
    var front, last := polls[..n], polls[n];
    assert polls == front + [last] && last in polls;
    RunNextPoll(cfg, NewGame(seed), front, last);
    var before := Run(cfg, NewGame(seed), front);
    if i < |before.1| {
      first := RunTells(cfg, seed, front, i, before.1);
    } else {
      first := polls;
      LastTells(cfg, seed, polls, front, last, i, before, Tick(cfg, before.0, last.at, last.messages));
    }
  }

  lemma NumbersTellNothing(cfg: Config, seed: nat, first: seq<Poll>, m: Message, n: int)
    requires TellsAll(cfg, seed, first, m)
    ensures TellsAll(cfg, seed, first, WithSequence(m, n))
  {
    var g, at := Run(cfg, NewGame(seed), first).0, first[|first| - 1].at;
    assert Shows(m, g, at);
    assert Shows(WithSequence(m, n), g, at);
  }

  lemma NumberedRecord(run: seq<Message>, log: seq<Message>, i: nat)
    requires log == Number(run, 1) && i < |log|
    ensures i < |run| && log[i] == WithSequence(run[i], 1 + i)
    ensures (run[i].GameState? <==> log[i].GameState?) && log[i].hdr.sequence == 1 + i
  {
    NumberAt(run, 1, i);
  }

  /** The same of the log with its numbers: every GAME_STATE in the log of a run in which clients sent none. */
  lemma LogTells(cfg: Config, seed: nat, polls: seq<Poll>, i: nat) returns (first: seq<Poll>)
    requires forall p :: p in polls ==> NoGameStates(p.messages)
    requires i < |LogOf(cfg, seed, polls)| && LogOf(cfg, seed, polls)[i].GameState?
    ensures first <= polls && LastOf(cfg, seed, first, i)
    ensures TellsAll(cfg, seed, first, LogOf(cfg, seed, polls)[i])
    ensures LogOf(cfg, seed, polls)[i].hdr.sequence == 1 + i
  {
    var run := Run(cfg, NewGame(seed), polls).1;
    NumberedRecord(run, LogOf(cfg, seed, polls), i);
    first := RunTells(cfg, seed, polls, i, run);
    NumbersTellNothing(cfg, seed, first, run[i], 1 + i);
  }

  /** Every tick with news does log one: it is the last record of the log so far. */
  lemma NewsIsBroadcast(cfg: Config, seed: nat, front: seq<Poll>, last: Poll, log: seq<Message>)
    requires log == Run(cfg, NewGame(seed), front + [last]).1
    requires Tick(cfg, Run(cfg, NewGame(seed), front).0, last.at, last.messages).changed
    ensures log != [] && TellsAll(cfg, seed, front + [last], log[|log| - 1])
  {
    var g, polls := Run(cfg, NewGame(seed), front).0, front + [last];
    var t := Tick(cfg, g, last.at, last.messages);
    RunNextPoll(cfg, NewGame(seed), front, last);
    TickLogs(cfg, g, last.at, last.messages);
    RunLooksRight(cfg, NewGame(seed), polls);
    BroadcastShowsGame(t.game, last.at);
    assert log[|log| - 1] == t.records[|t.records| - 1];
    ShownTellsAll(cfg, seed, polls, log[|log| - 1]);
  }
}
