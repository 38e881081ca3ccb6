/**
 The engine as the object it is: methods that update fields in place, loop over the maps, and write
 the log. Each is tied to the function of the module Engine that specifies it.
 */
module SnakeServer {
  import opened Arithmetic
  import opened Sequences
  import opened Results
  import opened LittleEndian
  import opened Tables
  import opened Chains
  import opened Protocol
  import opened Serialiser
  import opened Batching
  import opened MessageLog
  import opened Engine
  import opened Collisions
  import opened Survivors
  import opened Invariants
  import opened Replay

  // ---------- facts about the specification that loops need ----------

  lemma {:induction false} BodyCountSnoc(m: map<Int32, Player>, ids: seq<Int32>, id: Int32, c: Pos)
    requires id in m && forall x :: x in ids ==> x in m
    ensures BodyCount(m, ids + [id], c) == BodyCount(m, ids, c) + Occurrences(Body(m[id].chain), c)
  {
    if ids == [] {
      assert [] + [id] == [id] && [id][1..] == [];
    } else {
      forall x | x in ids[1..] ensures x in m { assert x in ids; }
      assert (ids + [id])[1..] == ids[1..] + [id];
      BodyCountSnoc(m, ids[1..], id, c);
    }
  }

  lemma {:induction false} BodyCountFrame(m: map<Int32, Player>, n: map<Int32, Player>, ids: seq<Int32>, c: Pos)
    requires forall x :: x in ids ==> x in m && x in n && m[x] == n[x]
    ensures BodyCount(m, ids, c) == BodyCount(n, ids, c)
  {
    if ids != [] {
      assert ids[0] in ids;
      forall x | x in ids[1..] ensures x in m && x in n && m[x] == n[x] { assert x in ids; }
      BodyCountFrame(m, n, ids[1..], c);
    }
  }

  /** A player that is not among ids does not matter to their bodies. */
  lemma BodyCountPut(t: Players, ids: seq<Int32>, id: Int32, p: Player)
    requires id !in ids && forall x :: x in ids ==> x in t.m
    ensures forall c :: BodyCount(t.m, ids, c) == BodyCount(Put(t, id, p).m, ids, c)
  {
    forall c ensures BodyCount(t.m, ids, c) == BodyCount(Put(t, id, p).m, ids, c) {
      BodyCountFrame(t.m, Put(t, id, p).m, ids, c);
    }
  }

  lemma {:induction false} OccurrencesSnoc(cells: seq<Pos>, p: Pos, c: Pos)
    ensures Occurrences(cells + [p], c) == Occurrences(cells, c) + if p == c then 1 else 0
  {
    if cells == [] {
      assert [] + [p] == [p];
    } else {
      assert (cells + [p])[1..] == cells[1..] + [p];
      OccurrencesSnoc(cells[1..], p, c);
    }
  }

  /** Between turns of the loop over players: the first i have been stepped. */
  ghost predicate Stepped(cfg: Config, before: Players, t: Players, i: nat, now: int) {
    && i <= |before.keys| && t.keys == before.keys && t.m.Keys == before.m.Keys
    && (forall j :: 0 <= j < i ==> t.m[t.keys[j]] == StepPlayer(cfg, before.m[t.keys[j]], now))
    && (forall j :: i <= j < |t.keys| ==> t.m[t.keys[j]] == before.m[t.keys[j]])
  }

  /** Every snake's body is in the arena after its step, even if its head is not. */
  ghost predicate StepsInside(cfg: Config, before: Players, now: int) {
    forall id :: StepInside(cfg, before, id, now)
  }

  ghost predicate StepInside(cfg: Config, before: Players, id: Int32, now: int) {
    id in before.m ==> BodyInside(cfg, StepPlayer(cfg, before.m[id], now).chain)
  }

  lemma GoodStepsInside(cfg: Config, g: Game, now: int)
    requires Paced(cfg) && GoodGame(cfg, g)
    ensures StepsInside(cfg, g.players, now)
  {
    forall id ensures StepInside(cfg, g.players, id, now) {
      if id in g.players.m { StepIsRoaming(cfg, g.players.m[id], now); }
    }
  }

  lemma TurnStepsInside(cfg: Config, g: Game, now: int, messages: seq<Message>)
    requires Paced(cfg) && GoodGame(cfg, g)
    ensures StepsInside(cfg, ApplyAll(cfg, ReplaceFoodIn(cfg, g), now, messages).game.players, now)
  {
    ReplaceFoodInside(cfg, g.food, g.gen);
    ApplyAllGood(cfg, ReplaceFoodIn(cfg, g), now, messages);
    GoodStepsInside(cfg, ApplyAll(cfg, ReplaceFoodIn(cfg, g), now, messages).game, now);
  }

  lemma SteppedNext(cfg: Config, before: Players, t: Players, i: nat, now: int)
    requires i < |before.keys| && Stepped(cfg, before, t, i, now)
    ensures Stepped(cfg, before, Put(t, t.keys[i], StepPlayer(cfg, t.m[t.keys[i]], now)), i + 1, now)
  {
  }

  /** All have been stepped. */
  lemma SteppedAll(cfg: Config, g: Game, t: Players, now: int)
    requires Stepped(cfg, g.players, t, |g.players.keys|, now)
    ensures t == Engine.UpdateSnakes(cfg, g, now).players
  {
    var after := Engine.UpdateSnakes(cfg, g, now).players;
    forall id | id in t.m ensures t.m[id] == after.m[id] {
      var j :| 0 <= j < |t.keys| && t.keys[j] == id;
    }
    assert t.m == after.m;
  }

  /** One of the first i players is due. */
  ghost predicate DueAmong(t: Players, i: nat, now: int)
    requires i <= |t.keys|
  {
    exists j :: 0 <= j < i && Due(t.m[t.keys[j]], now)
  }

  lemma DueAmongNext(t: Players, i: nat, now: int)
    requires i < |t.keys|
    ensures DueAmong(t, i + 1, now) <==> DueAmong(t, i, now) || Due(t.m[t.keys[i]], now)
  {
  }

  /** Some snake was due exactly when one was found in the loop. */
  lemma DueByIndex(g: Game, now: int)
    ensures AnyDue(g, now) <==> DueAmong(g.players, |g.players.keys|, now)
  {
    if AnyDue(g, now) {
      var id :| id in g.players.m && Due(g.players.m[id], now);
      var j :| 0 <= j < |g.players.keys| && g.players.keys[j] == id;
    }
  }

  /** The heads in a cell among the players from the i-th on. */
  function HeadsFrom(t: Players, i: nat, c: Pos): seq<Int32>
    requires i <= |t.keys|
  {
    assert forall id :: id in t.keys[i..] ==> id in t.keys;
    HeadsIn(t.m, t.keys[i..], c)
  }

  lemma HeadsFromNext(t: Players, i: nat, c: Pos, output: seq<Int32>)
    requires i < |t.keys|
    ensures t.keys[i] in t.m
    ensures output + HeadsFrom(t, i, c)
      == (if Head(t.m[t.keys[i]]) == c then output + [t.keys[i]] else output) + HeadsFrom(t, i + 1, c)
  {
    assert t.keys[i] in t.keys && t.keys[i..][1..] == t.keys[i + 1..];
    var later := HeadsFrom(t, i + 1, c);
    assert output + ([t.keys[i]] + later) == (output + [t.keys[i]]) + later;
    assert [] + later == later;
  }

  /** What is still to check from the i-th player on. */
  function CollideFrom(cfg: Config, bodies: Players, c: Clash, i: nat, now: int): Clash
    requires i <= |c.players.keys|
  {
    assert forall id :: id in c.players.keys[i..] ==> id in c.players.keys;
    CollideAll(cfg, bodies, c, c.players.keys[i..], now)
  }

  lemma CollideFromNext(cfg: Config, bodies: Players, c: Clash, i: nat, now: int)
    requires i < |c.players.keys|
    ensures c.players.keys[i] in c.players.m
    ensures CollideFrom(cfg, bodies, c, i, now)
      == CollideFrom(cfg, bodies, CollideOne(cfg, bodies, c, c.players.keys[i], now), i + 1, now)
  {
    var keys := c.players.keys;
    assert keys[i] in keys && keys[i..][1..] == keys[i + 1..];
  }

  lemma AfterRecord(cfg: Config, g: Game, now: int, m: Message, log: seq<Message>)
    ensures (log + Number([Stamp(m, now)], |log|)) + Number(Answers(m, now), |log| + 1)
      == log + Number(ApplyOne(cfg, g, now, m).records, |log|)
  {
    RecordsOf(cfg, g, now, m);
    NumberInTwo(log, Stamp(m, now), Answers(m, now));
  }

  lemma NumberInTwo(log: seq<Message>, m: Message, more: seq<Message>)
    ensures (log + Number([m], |log|)) + Number(more, |log| + 1) == log + Number([m] + more, |log|)
  {
    NumberConcat([m], more, |log|);
    Associate(log, Number([m], |log|), Number(more, |log| + 1));
  }

  lemma OneRecordMore(log: seq<Message>, r: Message)
    ensures LogBytes(log + [r]) == LogBytes(log) + LogRecord(Encode(r))
  {
    LogBytesConcat(log, [r]);
    assert LogBytes([r]) == LogRecord(Encode(r)) + [];
  }

  lemma NumberOne(m: Message, from: int)
    ensures Number([m], from) == [WithSequence(m, from)]
  {
  }

  /** Enough food will be there after at most n more turns. */
  ghost predicate EndsIn(cfg: Config, food: Items, gen: nat, n: nat, end: (Items, nat)) {
    Refilled(cfg, food, gen, n) && Refill(cfg, food, gen, n) == end
  }

  lemma EndsNext(cfg: Config, food: Items, gen: nat, n: nat, end: (Items, nat))
    requires EndsIn(cfg, food, gen, n, end) && |food.keys| < MIN_FOOD_IN_ARENA
    ensures n > 0
    ensures EndsIn(cfg, PlaceFood(cfg, food, gen).0, PlaceFood(cfg, food, gen).1, n - 1, end)
  {
  }

  lemma EndsStart(cfg: Config, food: Items, gen: nat) returns (n: nat)
    requires Refillable(cfg, food, gen)
    ensures EndsIn(cfg, food, gen, n, Engine.ReplaceFood(cfg, food, gen))
  {
    n :| Refilled(cfg, food, gen, n);
    ReplaceFoodIs(cfg, food, gen, n);
  }

  lemma EndsHere(cfg: Config, food: Items, gen: nat, n: nat, end: (Items, nat))
    requires EndsIn(cfg, food, gen, n, end) && |food.keys| >= MIN_FOOD_IN_ARENA
    ensures end == (food, gen)
  {
  }

  /** Who is marked already does not matter to the next decision. */
  lemma DoomedIgnored(cfg: Config, bodies: Players, c: Clash, doomed: seq<Int32>, id: Int32)
    requires id in c.players.m
    ensures Decide(cfg, bodies, c, id) == Decide(cfg, bodies, c.(doomed := doomed), id)
  {
  }

  /** Different players of the table. */
  ghost predicate AllThere(t: Players, ids: seq<Int32>) {
    && (forall id :: id in ids ==> id in t.m)
    && (forall i, j :: 0 <= i < j < |ids| ==> ids[i] != ids[j])
  }

  lemma ThereNext(t: Players, ids: seq<Int32>, i: nat)
    requires i < |ids| && AllThere(t, ids[i..])
    ensures Has(t, ids[i]) && AllThere(Erase(t, ids[i]), ids[i + 1..])
    ensures ids[i..][0] == ids[i] && ids[i..][1..] == ids[i + 1..]
  {
    var rest := ids[i..];
    assert rest[0] in rest;
    forall id | id in ids[i + 1..] ensures id in Erase(t, ids[i]).m {
      var j :| 0 <= j < |ids[i + 1..]| && ids[i + 1..][j] == id;
      assert rest[j + 1] == id && rest[j + 1] in rest;
    }
  }

  /** One turn of the loop over messages. */
  lemma ApplyNext(cfg: Config, done: Outcome, now: int, messages: seq<Message>, i: nat)
    requires i < |messages|
    ensures var a := ApplyOne(cfg, done.game, now, messages[i]);
      Then(done, ApplyAll(cfg, done.game, now, messages[i..]))
      == Then(Then(done, a), ApplyAll(cfg, a.game, now, messages[i + 1..]))
  {
    var a := ApplyOne(cfg, done.game, now, messages[i]);
    assert messages[i..][1..] == messages[i + 1..];
    ThenAssociates(done, a, ApplyAll(cfg, a.game, now, messages[i + 1..]));
  }

  lemma LogNext(start: seq<Message>, done: seq<Message>, more: seq<Message>)
    ensures start + Number(done + more, |start|)
      == (start + Number(done, |start|)) + Number(more, |start + Number(done, |start|)|)
  {
    NumberConcat(done, more, |start|);
  }

  lemma ApplyEnds(cfg: Config, done: Outcome, now: int)
    ensures Then(done, ApplyAll(cfg, done.game, now, [])) == done
  {
    assert done.records + [] == done.records;
  }

  lemma NothingFirst(a: Outcome, g: Game)
    ensures Then(Outcome(g, [], false), a) == a
  {
    assert [] + a.records == a.records;
  }

  class SnakeServer {
    const cfg: Config
    const seed: nat
    const msgLogWriter: MessageLogWriter
    const occupiedCellsBodies: array<int>   // one counter for each cell of the arena

    var currentSequence: int
    var currentTick: int
    var gen: nat
    var serverHighScore: HighScore
    var clientIdToPlayerMap: Players
    var foodMap: Items
    var speedBoostMap: Items

    ghost var log: seq<Message>             // every record written, in order

    ghost predicate Valid()
      reads this, msgLogWriter
    {
      && Paced(cfg)
      && occupiedCellsBodies.Length == cfg.width * cfg.height
      && msgLogWriter.out == LogBytes(log)
      && currentSequence == |log|
    }

    /** The game that the fields hold. */
    ghost function State(): Game
      reads this
    {
      Game(clientIdToPlayerMap, foodMap, speedBoostMap, gen, serverHighScore)
    }

    /** The grid shows the bodies of these players. */
    ghost predicate GridShows(t: Players)
      reads occupiedCellsBodies
    {
      && occupiedCellsBodies.Length == cfg.width * cfg.height
      && forall c :: InArena(cfg, c) && 0 <= Index(cfg, c) < occupiedCellsBodies.Length ==>
           occupiedCellsBodies[Index(cfg, c)] == Shown(t, c)
    }

    constructor (cfg: Config, seed: nat, now: int)
      requires Paced(cfg)
      ensures Valid() && fresh(msgLogWriter) && fresh(occupiedCellsBodies)
      ensures this.cfg == cfg && this.seed == seed && State() == NewGame(seed) && log == [] && currentTick == now
    {
      this.cfg, this.seed := cfg, seed;
      currentSequence, currentTick, gen := 0, now, seed;
      serverHighScore := HighScore(NO_NAME, 0);
      clientIdToPlayerMap, foodMap, speedBoostMap := Empty(), Empty(), Empty();
      msgLogWriter := new MessageLogWriter();
      GridSize(cfg);
      occupiedCellsBodies := new int[cfg.width * cfg.height];
      log := [];
    }

    static lemma GridSize(cfg: Config)
      ensures cfg.width * cfg.height >= 0
    {
    }

    // ---------- records ----------

    method StampMessage(m: Message) returns (r: Message)
      modifies this`currentSequence
      ensures r == WithSequence(Stamp(m, currentTick), old(currentSequence))
      ensures currentSequence == old(currentSequence) + 1
    {
      r := m.(hdr := m.hdr.(sequence := currentSequence, transactTime := currentTick));
      currentSequence := currentSequence + 1;
    }

    /** Stamp a message, serialise it and log it. */
    method Record(m: Message)
      requires Valid()
      modifies this`currentSequence, this`log, msgLogWriter
      ensures Valid() && log == old(log) + Number([Stamp(m, currentTick)], old(currentSequence))
    {
      var r := StampMessage(m);
      var msgBytes := Serialise(r);
      msgLogWriter.Log(msgBytes);
      OneRecordMore(log, r);
      NumberOne(Stamp(m, currentTick), |log|);
      log := log + [r];
    }

    // ---------- food ----------

    method PlaceFoodRandomly()
      modifies this`foodMap, this`gen
      ensures (foodMap, gen) == PlaceFood(cfg, old(foodMap), old(gen))
    {
      var (x, g1) := Draw(cfg, gen, 1, cfg.width - 1);
      var (y, g2) := Draw(cfg, g1, 1, cfg.height - 1);
      gen := g2;
      foodMap := PlaceFoodAt(foodMap, Pos(x, y), WHITE);
    }

    method ReplaceFood()
      requires Refillable(cfg, foodMap, gen)
      modifies this`foodMap, this`gen
      ensures State() == ReplaceFoodIn(cfg, old(State()))
    {
      ghost var n := EndsStart(cfg, foodMap, gen);
      ghost var end := Engine.ReplaceFood(cfg, foodMap, gen);
      while |foodMap.keys| < MIN_FOOD_IN_ARENA
        invariant EndsIn(cfg, foodMap, gen, n, end)
        decreases n
      {
        EndsNext(cfg, foodMap, gen, n, end);
        PlaceFoodRandomly();
        n := n - 1;
      }
      EndsHere(cfg, foodMap, gen, n, end);
    }

    method PlaceSpeedBoost()
      modifies this`speedBoostMap, this`gen
      ensures State() == Engine.PlaceSpeedBoost(cfg, old(State()))
    {
      if speedBoostMap.keys == [] {
        var (v, g1) := Draw(cfg, gen, 1, SPEED_BOOST_PROBABILITY);
        gen := g1;
        if v == 1 {
          var (x, g2) := Draw(cfg, gen, 1, cfg.width - 1);
          var (y, g3) := Draw(cfg, g2, 1, cfg.height - 1);
          gen := g3;
          speedBoostMap := Put(speedBoostMap, Pos(x, y), Food(WHITE, '*', x, y));
        }
      }
    }

    // ---------- messages ----------

    method CreateNewPlayer(id: Int32, name: Bytes)
      modifies this`clientIdToPlayerMap, this`gen
      ensures State() == Engine.CreateNewPlayer(cfg, old(State()), currentTick, id, name)
    {
      var (cell, g) := SpawnCell(cfg, gen);
      gen := g;
      if !Has(clientIdToPlayerMap, id) {
        clientIdToPlayerMap := Put(clientIdToPlayerMap, id, SpawnPlayer(cfg, id, name, cell, currentTick));
      }
    }

    method HandleClientJoin(m: Message)
      requires Valid() && m.ClientJoin?
      modifies this`clientIdToPlayerMap, this`gen, this`currentSequence, this`log, msgLogWriter
      ensures Valid()
      ensures State() == Engine.CreateNewPlayer(cfg, old(State()), currentTick, m.hdr.clientId, m.username)
      ensures log == old(log) + Number([Welcome(m.hdr.clientId, currentTick)], old(currentSequence))
    {
      CreateNewPlayer(m.hdr.clientId, m.username);
      Record(Welcome(m.hdr.clientId, currentTick));
    }

    method HandleClientDisconnect(id: Int32)
      modifies this`clientIdToPlayerMap
      ensures clientIdToPlayerMap ==
        if Has(old(clientIdToPlayerMap), id) then Erase(old(clientIdToPlayerMap), id) else old(clientIdToPlayerMap)
    {
      if Has(clientIdToPlayerMap, id) {
        clientIdToPlayerMap := Erase(clientIdToPlayerMap, id);
      }
    }

    method HandleClientInput(id: Int32, input: char)
      modifies this`clientIdToPlayerMap
      ensures clientIdToPlayerMap ==
        if Has(old(clientIdToPlayerMap), id)
        then Put(old(clientIdToPlayerMap), id, Turn(old(clientIdToPlayerMap).m[id], input))
        else old(clientIdToPlayerMap)
    {
      if !Has(clientIdToPlayerMap, id) {
        return;
      }
      var player := clientIdToPlayerMap.m[id];
      if input == '^' {
        if player.direction != 'v' {
          player := player.(nextDirection := '^');
        }
      } else if input == 'v' {
        if player.direction != '^' {
          player := player.(nextDirection := 'v');
        }
      } else if input == '<' {
        if player.direction != '>' {
          player := player.(nextDirection := '<');
        }
      } else if input == '>' {
        if player.direction != '<' {
          player := player.(nextDirection := '>');
        }
      }
      clientIdToPlayerMap := Put(clientIdToPlayerMap, id, player);
    }

    /** One turn of the dispatch loop. */
    method Dispatch(m: Message) returns (stateChanged: bool)
      requires Valid()
      modifies this`clientIdToPlayerMap, this`gen, this`currentSequence, this`log, msgLogWriter
      ensures Valid()
      ensures var a := ApplyOne(cfg, old(State()), currentTick, m);
        && State() == a.game && stateChanged == a.changed
        && log == old(log) + Number(a.records, old(currentSequence))
    {
      Record(m);
      stateChanged := Handle(m);
      AfterRecord(cfg, old(State()), currentTick, m, old(log));
    }

    /** The switch over message types. */
    method Handle(m: Message) returns (stateChanged: bool)
      requires Valid()
      modifies this`clientIdToPlayerMap, this`gen, this`currentSequence, this`log, msgLogWriter
      ensures Valid()
      ensures var a := ApplyOne(cfg, old(State()), currentTick, m);
        State() == a.game && stateChanged == a.changed
      ensures log == old(log) + Number(Answers(m, currentTick), |old(log)|)
    {
      stateChanged := false;
      match m {
        case ClientJoin(_, _) =>
          HandleClientJoin(m);
          stateChanged := true;
        case ClientInput(_, input) =>
          HandleClientInput(m.hdr.clientId, input);
        case ClientDisconnect(_) =>
          HandleClientDisconnect(m.hdr.clientId);
          stateChanged := true;
        case _ =>
      }
    }

    /** Between turns of the dispatch loop: done has been carried out, and with the messages from i on
        it makes all. */
    ghost predicate Dispatched(done: Outcome, all: Outcome, messages: seq<Message>, i: nat, start: seq<Message>)
      requires i <= |messages|
      reads this
    {
      && State() == done.game
      && Then(done, ApplyAll(cfg, done.game, currentTick, messages[i..])) == all
      && log == start + Number(done.records, |start|)
    }

    method DispatchNext(
      messages: seq<Message>, i: nat, ghost done: Outcome, ghost all: Outcome, ghost start: seq<Message>)
      returns (changed: bool, ghost next: Outcome)
      requires Valid() && i < |messages|
      requires Dispatched(done, all, messages, i, start)
      modifies this`clientIdToPlayerMap, this`gen, this`currentSequence, this`log, msgLogWriter
      ensures Valid() && Dispatched(next, all, messages, i + 1, start)
      ensures next.changed == (done.changed || changed)
    {
      ghost var a := ApplyOne(cfg, State(), currentTick, messages[i]);
      ApplyNext(cfg, done, currentTick, messages, i);
      LogNext(start, done.records, a.records);
      changed := Dispatch(messages[i]);
      next := Then(done, a);
    }

    method HandleMessages(messages: seq<Message>) returns (stateChanged: bool)
      requires Valid()
      modifies this`clientIdToPlayerMap, this`gen, this`currentSequence, this`log, msgLogWriter
      ensures Valid()
      ensures var a := ApplyAll(cfg, old(State()), currentTick, messages);
        && State() == a.game && stateChanged == a.changed
        && log == old(log) + Number(a.records, old(currentSequence))
    {
      stateChanged := false;
      ghost var all := ApplyAll(cfg, State(), currentTick, messages);
      ghost var done := Outcome(State(), [], false);
      NothingFirst(all, State());
      assert messages[0..] == messages;
      for i := 0 to |messages|
        invariant Valid() && stateChanged == done.changed
        invariant Dispatched(done, all, messages, i, old(log))
      {
        var changed;
        changed, done := DispatchNext(messages, i, done, all, old(log));
        stateChanged := stateChanged || changed;
      }
      ApplyEnds(cfg, done, currentTick);
    }

    // ---------- movement ----------

    method MoveSnake(id: Int32)
      requires Has(clientIdToPlayerMap, id)
      modifies this`clientIdToPlayerMap
      ensures clientIdToPlayerMap ==
        Put(old(clientIdToPlayerMap), id, Engine.MoveSnake(old(clientIdToPlayerMap).m[id], currentTick))
    {
      var player := clientIdToPlayerMap.m[id];
      player := player.(direction := player.nextDirection);
      var head := Head(player);
      match player.direction {
        case '^' => player := player.(chain := Chains.MoveTo(player.chain, Pos(head.x, head.y - 1)));
        case 'v' => player := player.(chain := Chains.MoveTo(player.chain, Pos(head.x, head.y + 1)));
        case '<' => player := player.(chain := Chains.MoveTo(player.chain, Pos(head.x - 1, head.y)));
        case _ =>
          assert player.direction == '>';
          player := player.(chain := Chains.MoveTo(player.chain, Pos(head.x + 1, head.y)));
      }
      player := player.(nextMoveTime := currentTick + player.frequencyMs * NANOS_PER_MS);
      clientIdToPlayerMap := Put(clientIdToPlayerMap, id, player);
    }

    /** The grid holds, modulo the width of a counter, the bodies of the snakes ids. */
    ghost predicate GridHolds(m: map<Int32, Player>, ids: seq<Int32>)
      reads occupiedCellsBodies
    {
      && occupiedCellsBodies.Length == cfg.width * cfg.height
      && (forall id :: id in ids ==> id in m)
      && forall c :: InArena(cfg, c) && 0 <= Index(cfg, c) < occupiedCellsBodies.Length ==>
           occupiedCellsBodies[Index(cfg, c)] == BodyCount(m, ids, c) % GRID_CELL_VALUES
    }

    /** Between turns of the loop over body segments. */
    ghost predicate GridCounted(m: map<Int32, Player>, ids: seq<Int32>, cells: seq<Pos>)
      requires forall id :: id in ids ==> id in m
      reads occupiedCellsBodies
    {
      && occupiedCellsBodies.Length == cfg.width * cfg.height
      && forall c :: InArena(cfg, c) && 0 <= Index(cfg, c) < occupiedCellsBodies.Length ==>
           occupiedCellsBodies[Index(cfg, c)] == (BodyCount(m, ids, c) + Occurrences(cells, c)) % GRID_CELL_VALUES
    }

    method CountSegment(p: Pos, ghost m: map<Int32, Player>, ghost ids: seq<Int32>, ghost cells: seq<Pos>)
      requires forall id :: id in ids ==> id in m
      requires GridCounted(m, ids, cells) && InArena(cfg, p)
      modifies occupiedCellsBodies
      ensures GridCounted(m, ids, cells + [p])
    {
      IndexInRange(cfg, p);
      var i := Index(cfg, p);
      ghost var before := (BodyCount(m, ids, p) + Occurrences(cells, p));
      ModPlus(before, 1, GRID_CELL_VALUES);
      occupiedCellsBodies[i] := (occupiedCellsBodies[i] + 1) % GRID_CELL_VALUES;
      forall c | InArena(cfg, c) && 0 <= Index(cfg, c) < occupiedCellsBodies.Length
        ensures occupiedCellsBodies[Index(cfg, c)]
          == (BodyCount(m, ids, c) + Occurrences(cells + [p], c)) % GRID_CELL_VALUES
      {
        OccurrencesSnoc(cells, p, c);
        if Index(cfg, c) == i { IndexInjective(cfg, c, p); }
      }
    }

    method UpdateOccupiedCells(id: Int32, ghost ids: seq<Int32>)
      requires Has(clientIdToPlayerMap, id)
      requires GridHolds(clientIdToPlayerMap.m, ids)
      requires BodyInside(cfg, clientIdToPlayerMap.m[id].chain)
      modifies occupiedCellsBodies
      ensures GridHolds(clientIdToPlayerMap.m, ids + [id])
    {
      var segments := Positions(clientIdToPlayerMap.m[id].chain);
      ghost var m, body := clientIdToPlayerMap.m, Body(clientIdToPlayerMap.m[id].chain);
      assert body == segments[1..];
      for k := 1 to |segments|
        invariant GridCounted(m, ids, body[..k - 1])
      {
        assert segments[k] == body[k - 1] == clientIdToPlayerMap.m[id].chain[k].pos;
        assert body[..k] == body[..k - 1] + [body[k - 1]];
        CountSegment(segments[k], m, ids, body[..k - 1]);
      }
      assert body[..|segments| - 1] == body;
      forall c { BodyCountSnoc(m, ids, id, c); }
    }

    method ClearGrid()
      requires occupiedCellsBodies.Length == cfg.width * cfg.height
      modifies occupiedCellsBodies
      ensures GridHolds(clientIdToPlayerMap.m, [])
    {
      for k := 0 to occupiedCellsBodies.Length
        invariant forall j :: 0 <= j < k ==> occupiedCellsBodies[j] == 0
      {
        occupiedCellsBodies[k] := 0;
      }
    }

    lemma GridFrame(m: map<Int32, Player>, n: map<Int32, Player>, ids: seq<Int32>)
      requires GridHolds(m, ids)
      requires forall id :: id in ids ==> id in n
      requires forall c :: BodyCount(m, ids, c) == BodyCount(n, ids, c)
      ensures GridHolds(n, ids)
    {
    }

    /** One turn of the loop over players: expire a boost, move if it is time, count the body. */
    method StepOne(i: nat, ghost before: Players) returns (moved: bool)
      requires i < |before.keys| && Stepping(before, i)
      requires StepsInside(cfg, before, currentTick)
      modifies this`clientIdToPlayerMap, occupiedCellsBodies
      ensures Stepping(before, i + 1) && moved == Due(before.m[before.keys[i]], currentTick)
    {
      var clientId := clientIdToPlayerMap.keys[i];
      ghost var ids, was := before.keys[..i], clientIdToPlayerMap;
      assert StepInside(cfg, before, clientId, currentTick);
      moved := StepInPlace(clientId);
      SteppedNext(cfg, before, was, i, currentTick);
      BodyCountPut(was, ids, clientId, clientIdToPlayerMap.m[clientId]);
      GridFrame(was.m, clientIdToPlayerMap.m, ids);
      UpdateOccupiedCells(clientId, ids);
      assert before.keys[..i + 1] == ids + [before.keys[i]];
    }

    /** Take back a boost that ran out, then move if it is time. */
    method StepInPlace(clientId: Int32) returns (moved: bool)
      requires Has(clientIdToPlayerMap, clientId)
      modifies this`clientIdToPlayerMap
      ensures clientIdToPlayerMap ==
        Put(old(clientIdToPlayerMap), clientId, StepPlayer(cfg, old(clientIdToPlayerMap).m[clientId], currentTick))
      ensures moved == Due(old(clientIdToPlayerMap).m[clientId], currentTick)
    {
      moved := false;
      ghost var m := clientIdToPlayerMap.m;
      var player := clientIdToPlayerMap.m[clientId];
      if player.boosted && player.boostExpireTime <= currentTick {
        player := player.(boosted := false, frequencyMs := cfg.movementFrequencyMs);
        clientIdToPlayerMap := Put(clientIdToPlayerMap, clientId, player);
      }
      if currentTick >= player.nextMoveTime {
        MoveSnake(clientId);
        moved := true;
      }
      assert clientIdToPlayerMap.m == m[clientId := StepPlayer(cfg, m[clientId], currentTick)];
    }

    method StepAll() returns (snakeUpdates: bool)
      requires StepsInside(cfg, clientIdToPlayerMap, currentTick)
      requires GridHolds(clientIdToPlayerMap.m, [])
      modifies this`clientIdToPlayerMap, occupiedCellsBodies
      ensures var before := old(clientIdToPlayerMap);
        && Stepped(cfg, before, clientIdToPlayerMap, |before.keys|, currentTick)
        && GridHolds(clientIdToPlayerMap.m, clientIdToPlayerMap.keys)
        && (snakeUpdates <==> DueAmong(before, |before.keys|, currentTick))
    {
      snakeUpdates := false;
      ghost var before, now := clientIdToPlayerMap, currentTick;
      assert before.keys[..0] == [];
      for i := 0 to |clientIdToPlayerMap.keys|
        invariant Stepping(before, i)
        invariant StepsInside(cfg, before, now)
        invariant currentTick == now
        invariant snakeUpdates <==> DueAmong(before, i, now)
      {
        var moved := StepOne(i, before);
        DueAmongNext(before, i, now);
        snakeUpdates := snakeUpdates || moved;
      }
      assert before.keys[..|before.keys|] == before.keys;
    }

    /** Between turns of the loop over players: the first i have been stepped, and the grid shows their bodies. */
    ghost predicate Stepping(before: Players, i: nat)
      reads this, occupiedCellsBodies
    {
      && Stepped(cfg, before, clientIdToPlayerMap, i, currentTick)
      && GridHolds(clientIdToPlayerMap.m, before.keys[..i])
    }

    method UpdateSnakes() returns (snakeUpdates: bool)
      requires StepsInside(cfg, clientIdToPlayerMap, currentTick)
      requires occupiedCellsBodies.Length == cfg.width * cfg.height
      modifies this`clientIdToPlayerMap, occupiedCellsBodies
      ensures State() == Engine.UpdateSnakes(cfg, old(State()), currentTick)
      ensures snakeUpdates == AnyDue(old(State()), currentTick)
      ensures GridShows(clientIdToPlayerMap)
    {
      ClearGrid();
      snakeUpdates := StepAll();
      SteppedAll(cfg, old(State()), clientIdToPlayerMap, currentTick);
      DueByIndex(old(State()), currentTick);
    }

    // ---------- collisions ----------

    /** The players whose heads are in a cell, found by going through all of them. */
    method GetPlayerHeadsInCell(head: Pos) returns (output: seq<Int32>)
      ensures output == HeadsIn(clientIdToPlayerMap.m, clientIdToPlayerMap.keys, head)
    {
      output := [];
      ghost var t := clientIdToPlayerMap;
      assert t.keys[0..] == t.keys;
      for i := 0 to |clientIdToPlayerMap.keys|
        invariant output + HeadsFrom(t, i, head) == HeadsIn(t.m, t.keys, head)
      {
        var clientId := clientIdToPlayerMap.keys[i];
        HeadsFromNext(t, i, head, output);
        if Head(clientIdToPlayerMap.m[clientId]) == head {
          output := output + [clientId];
        }
      }
      assert output + [] == output;
    }

    method FeedPlayer(cell: Pos, id: Int32)
      requires Has(clientIdToPlayerMap, id)
      modifies this`clientIdToPlayerMap, this`foodMap
      ensures clientIdToPlayerMap == Put(old(clientIdToPlayerMap), id, Feed(old(clientIdToPlayerMap).m[id]))
      ensures foodMap == Erase(old(foodMap), cell)
    {
      var player := clientIdToPlayerMap.m[id];
      player := player.(chain := Grow(player.chain));
      player := player.(score := player.score + 1);
      clientIdToPlayerMap := Put(clientIdToPlayerMap, id, player);
      foodMap := Erase(foodMap, cell);
    }

    method BoostPlayer(cell: Pos, id: Int32)
      requires Has(clientIdToPlayerMap, id)
      modifies this`clientIdToPlayerMap, this`speedBoostMap
      ensures clientIdToPlayerMap ==
        Put(old(clientIdToPlayerMap), id, Boost(cfg, old(clientIdToPlayerMap).m[id], currentTick))
      ensures speedBoostMap == Erase(old(speedBoostMap), cell)
    {
      var player := clientIdToPlayerMap.m[id];
      player := player.(boosted := true);
      player := player.(frequencyMs := cfg.boostedMovementFrequencyMs);
      player := player.(boostExpireTime := currentTick + cfg.boostDurationMs * NANOS_PER_MS);
      clientIdToPlayerMap := Put(clientIdToPlayerMap, id, player);
      speedBoostMap := Erase(speedBoostMap, cell);
    }

    /** The state of a collision check as the fields hold it. */
    ghost function ClashState(doomed: seq<Int32>): Clash
      reads this
    {
      Clash(clientIdToPlayerMap, foodMap, speedBoostMap, serverHighScore, doomed)
    }

    /** Which branch the check of a player takes. The grid shows the bodies of the players bodies. */
    method JudgePlayer(clientId: Int32, ghost bodies: Players) returns (v: Verdict)
      requires Has(clientIdToPlayerMap, clientId) && GridShows(bodies)
      ensures v == Decide(cfg, bodies, ClashState([]), clientId)
    {
      var playerHead := Head(clientIdToPlayerMap.m[clientId]);
      var playerHeadCells := GetPlayerHeadsInCell(playerHead);
      if playerHead.y <= 0 {
        return Dies;
      } else if playerHead.y >= cfg.height + 1 {
        return Dies;
      } else if playerHead.x <= 0 {
        return Dies;
      } else if playerHead.x >= cfg.width + 1 {
        return Dies;
      }
      IndexInRange(cfg, playerHead);
      if occupiedCellsBodies[Index(cfg, playerHead)] > 0 {
        return Dies;
      } else if |playerHeadCells| > 1 {
        var firstPlayerInCell := Earliest(clientIdToPlayerMap.m, playerHeadCells);
        return if clientId != firstPlayerInCell then Dies else Stays;
      } else if Has(foodMap, playerHead) {
        return Eats;
      } else if Has(speedBoostMap, playerHead) {
        return Speeds;
      }
      return Stays;
    }

    /** The check of one player. */
    method CollidePlayer(clientId: Int32, clientIdsToDestroy: seq<Int32>, ghost bodies: Players)
      returns (doomed: seq<Int32>)
      requires Has(clientIdToPlayerMap, clientId) && GridShows(bodies)
      modifies this`clientIdToPlayerMap, this`foodMap, this`speedBoostMap, this`serverHighScore
      ensures ClashState(doomed) ==
        CollideOne(cfg, bodies, old(ClashState(clientIdsToDestroy)), clientId, currentTick)
    {
      doomed := clientIdsToDestroy;
      var v := JudgePlayer(clientId, bodies);
      DoomedIgnored(cfg, bodies, ClashState([]), doomed, clientId);
      doomed := CarryOut(clientId, v, doomed);
    }

    /** Take the branch, then track the high score. */
    method CarryOut(clientId: Int32, v: Verdict, clientIdsToDestroy: seq<Int32>) returns (doomed: seq<Int32>)
      requires Has(clientIdToPlayerMap, clientId)
      modifies this`clientIdToPlayerMap, this`foodMap, this`speedBoostMap, this`serverHighScore
      ensures ClashState(doomed) ==
        Apply(cfg, old(ClashState(clientIdsToDestroy)), clientId, v, currentTick)
    {
      doomed := clientIdsToDestroy;
      var playerHead := Head(clientIdToPlayerMap.m[clientId]);
      match v {
        case Dies => doomed := doomed + [clientId];
        case Eats => FeedPlayer(playerHead, clientId);
        case Speeds => BoostPlayer(playerHead, clientId);
        case Stays =>
      }
      var player := clientIdToPlayerMap.m[clientId];
      if player.score > serverHighScore.score {
        serverHighScore := HighScore(player.name, player.score);
      }
    }

    /** Scatter food over the body of a dead snake. */
    method ScatterFood(segments: seq<Pos>, color: int)
      requires segments != []
      modifies this`foodMap, this`gen
      ensures (foodMap, gen) == Scatter(cfg, old(foodMap), old(gen), segments[1..], color)
    {
      for k := 1 to |segments|
        invariant Scatter(cfg, foodMap, gen, segments[k..], color)
          == Scatter(cfg, old(foodMap), old(gen), segments[1..], color)
      {
        assert segments[k..][1..] == segments[k + 1..];
        var (v, g) := Draw(cfg, gen, 1, FOOD_SPAWN_FROM_BODY_SEGMENT_PROBABILITY);
        gen := g;
        if v == 1 {
          foodMap := PlaceFoodAt(foodMap, segments[k], color);
        }
      }
    }

    method DestroyOne(id: Int32)
      requires Has(clientIdToPlayerMap, id)
      modifies this`clientIdToPlayerMap, this`foodMap, this`gen
      ensures State() == DestroyPlayer(cfg, old(State()), id)
    {
      var player := clientIdToPlayerMap.m[id];
      ScatterFood(Positions(player.chain), player.color);
      clientIdToPlayerMap := Erase(clientIdToPlayerMap, id);
    }

    method DestroyPlayers(ids: seq<Int32>)
      requires AllThere(clientIdToPlayerMap, ids)
      modifies this`clientIdToPlayerMap, this`foodMap, this`gen
      ensures State() == Engine.DestroyPlayers(cfg, old(State()), ids)
    {
      assert ids[0..] == ids;
      for i := 0 to |ids|
        invariant AllThere(clientIdToPlayerMap, ids[i..])
        invariant Engine.DestroyPlayers(cfg, State(), ids[i..]) == Engine.DestroyPlayers(cfg, old(State()), ids)
      {
        ThereNext(clientIdToPlayerMap, ids, i);
        DestroyOne(ids[i]);
      }
    }

    /** Between turns of the loop over players: checking the players from the i-th on makes all. */
    ghost predicate Colliding(bodies: Players, doomed: seq<Int32>, i: nat, all: Clash)
      reads this, occupiedCellsBodies
    {
      && GridShows(bodies) && clientIdToPlayerMap.keys == bodies.keys && i <= |bodies.keys|
      && CollideFrom(cfg, bodies, ClashState(doomed), i, currentTick) == all
    }

    method CollideNext(i: nat, clientIdsToDestroy: seq<Int32>, ghost bodies: Players, ghost all: Clash)
      returns (doomed: seq<Int32>)
      requires i < |clientIdToPlayerMap.keys| && Colliding(bodies, clientIdsToDestroy, i, all)
      modifies this`clientIdToPlayerMap, this`foodMap, this`speedBoostMap, this`serverHighScore
      ensures Colliding(bodies, doomed, i + 1, all)
    {
      CollideFromNext(cfg, bodies, ClashState(clientIdsToDestroy), i, currentTick);
      doomed := CollidePlayer(clientIdToPlayerMap.keys[i], clientIdsToDestroy, bodies);
    }

    /** The loop over all players. */
    method CollidePlayers() returns (clientIdsToDestroy: seq<Int32>)
      requires GridShows(clientIdToPlayerMap)
      modifies this`clientIdToPlayerMap, this`foodMap, this`speedBoostMap, this`serverHighScore
      ensures ClashState(clientIdsToDestroy) ==
        CollideFrom(cfg, old(clientIdToPlayerMap), old(ClashState([])), 0, currentTick)
    {
      clientIdsToDestroy := [];
      ghost var bodies := clientIdToPlayerMap;
      ghost var all := CollideFrom(cfg, bodies, ClashState([]), 0, currentTick);
      for i := 0 to |clientIdToPlayerMap.keys|
        invariant Colliding(bodies, clientIdsToDestroy, i, all)
      {
        clientIdsToDestroy := CollideNext(i, clientIdsToDestroy, bodies, all);
      }
    }

    method CheckCollisions()
      requires GridShows(clientIdToPlayerMap)
      modifies this`clientIdToPlayerMap, this`foodMap, this`speedBoostMap, this`serverHighScore, this`gen
      ensures State() == Engine.CheckCollisions(cfg, old(State()), currentTick)
    {
      ghost var g := State();
      CheckFrom(cfg, g, currentTick);
      var clientIdsToDestroy := CollidePlayers();
      DestroyMarked(clientIdsToDestroy, g, ClashState(clientIdsToDestroy));
    }

    /** The end of a check that began with the game g and led to the state c. */
    method DestroyMarked(clientIdsToDestroy: seq<Int32>, ghost g: Game, ghost c: Clash)
      requires ClashState(clientIdsToDestroy) == c && gen == g.gen && AllThere(c.players, c.doomed)
      modifies this`clientIdToPlayerMap, this`foodMap, this`gen
      ensures State() == Engine.DestroyPlayers(cfg, AfterClash(g, c), c.doomed)
    {
      assert State() == AfterClash(g, c);
      if clientIdsToDestroy != [] {
        DestroyPlayers(clientIdsToDestroy);
      }
    }

    // ---------- the broadcast ----------

    method BuildItems(t: Items) returns (items: seq<Food>)
      ensures items == ItemsFrom(t, 0)
    {
      items := [];
      for i := 0 to |t.keys|
        invariant items + ItemsFrom(t, i) == ItemsFrom(t, 0)
      {
        ItemsFromNext(t, i, items);
        items := items + [t.m[t.keys[i]]];
      }
      assert items + [] == items;
    }

    method BuildPlayers() returns (players: seq<PlayerState>)
      ensures players == StatesFrom(clientIdToPlayerMap, 0)
    {
      players := [];
      ghost var t := clientIdToPlayerMap;
      for i := 0 to |clientIdToPlayerMap.keys|
        invariant players + StatesFrom(t, i) == StatesFrom(t, 0)
      {
        StatesFromNext(t, i, players);
        var clientId := clientIdToPlayerMap.keys[i];
        players := players + [PlayerStateOf(clientId, clientIdToPlayerMap.m[clientId])];
      }
      assert players + [] == players;
    }

    method BuildGameState() returns (m: Message)
      ensures m == Engine.BuildGameState(State(), currentTick)
    {
      var food := BuildItems(foodMap);
      var boosts := BuildItems(speedBoostMap);
      var players := BuildPlayers();
      assert foodMap.keys[0..] == foodMap.keys && speedBoostMap.keys[0..] == speedBoostMap.keys;
      assert clientIdToPlayerMap.keys[0..] == clientIdToPlayerMap.keys;
      m := GameState(Header(GAME_STATE, -1, 0, currentTick), serverHighScore.score, serverHighScore.name,
                     food, boosts, players);
    }

    method BroadcastGameState()
      requires Valid()
      modifies this`currentSequence, this`log, msgLogWriter
      ensures Valid()
      ensures log == old(log) + Number([Engine.BuildGameState(State(), currentTick)], old(currentSequence))
    {
      var m := BuildGameState();
      Record(m);
    }

    method RecordServerConfig()
      requires Valid()
      modifies this`currentSequence, this`log, msgLogWriter
      ensures Valid() && log == old(log) + Number([ConfigRecord(cfg, seed, currentTick)], old(currentSequence))
    {
      Record(ConfigRecord(cfg, seed, currentTick));
    }

    // ---------- ticks and runs ----------

    /** The movement part of a tick. */
    method Advance() returns (snakeUpdates: bool)
      requires StepsInside(cfg, clientIdToPlayerMap, currentTick)
      requires occupiedCellsBodies.Length == cfg.width * cfg.height
      modifies this`clientIdToPlayerMap, this`foodMap, this`speedBoostMap, this`serverHighScore, this`gen,
               occupiedCellsBodies
      ensures State() == Engine.Advance(cfg, old(State()), currentTick)
      ensures snakeUpdates == AnyDue(old(State()), currentTick)
    {
      snakeUpdates := UpdateSnakes();
      if snakeUpdates {
        ResolveMoves();
      }
    }

    /** What follows when a snake has moved. */
    method ResolveMoves()
      requires GridShows(clientIdToPlayerMap)
      modifies this`clientIdToPlayerMap, this`foodMap, this`speedBoostMap, this`serverHighScore, this`gen
      ensures State() == Engine.PlaceSpeedBoost(cfg, Engine.CheckCollisions(cfg, old(State()), currentTick))
    {
      CheckCollisions();
      PlaceSpeedBoost();
    }

    /** The rest of a tick, after its messages. */
    method FinishTick(changed: bool)
      requires Valid() && StepsInside(cfg, clientIdToPlayerMap, currentTick)
      modifies this`clientIdToPlayerMap, this`foodMap, this`speedBoostMap, this`serverHighScore, this`gen,
               this`currentSequence, this`log, msgLogWriter, occupiedCellsBodies
      ensures Valid() && State() == Engine.Advance(cfg, old(State()), currentTick)
      ensures log == old(log) + Number(
        if changed || AnyDue(old(State()), currentTick) then [Engine.BuildGameState(State(), currentTick)] else [],
        old(currentSequence))
    {
      var stateChanged := changed;
      ghost var due := AnyDue(State(), currentTick);
      var snakeUpdates := Advance();
      if snakeUpdates {
        stateChanged := true;
      }
      assert stateChanged == (changed || due);
      ghost var next := State();
      BroadcastIf(stateChanged);
      assert State() == next;
    }

    method BroadcastIf(stateChanged: bool)
      requires Valid()
      modifies this`currentSequence, this`log, msgLogWriter
      ensures Valid()
      ensures log == old(log) + Number(
        if stateChanged then [Engine.BuildGameState(State(), currentTick)] else [], old(currentSequence))
    {
      if stateChanged {
        BroadcastGameState();
      }
    }

    /** One turn of the engine's loop. */
    method Tick(now: int, messages: seq<Message>)
      requires Valid() && GoodGame(cfg, State()) && Refillable(cfg, foodMap, gen)
      modifies this, msgLogWriter, occupiedCellsBodies
      ensures Valid() && GoodGame(cfg, State()) && currentTick == now
      ensures var t := Engine.Tick(cfg, old(State()), now, messages);
        && State() == t.game
        && log == old(log) + Number(t.records, old(currentSequence))
    {
      TickIsGood(cfg, State(), now, messages);
      TurnStepsInside(cfg, State(), now, messages);
      TakeTurn(now, messages);
    }

    method TakeTurn(now: int, messages: seq<Message>)
      requires Valid() && Refillable(cfg, foodMap, gen)
      requires StepsInside(cfg, ApplyAll(cfg, ReplaceFoodIn(cfg, State()), now, messages).game.players, now)
      modifies this, msgLogWriter, occupiedCellsBodies
      ensures Valid() && currentTick == now
      ensures var t := Engine.Tick(cfg, old(State()), now, messages);
        && State() == t.game
        && log == old(log) + Number(t.records, old(currentSequence))
    {
      currentTick := now;
      ReplaceFood();
      ghost var a := ApplyAll(cfg, State(), now, messages);
      var stateChanged := HandleMessages(messages);
      ghost var h := Engine.Advance(cfg, a.game, now);
      LogNext(old(log), a.records,
              if a.changed || AnyDue(a.game, now) then [Engine.BuildGameState(h, now)] else []);
      FinishTick(stateChanged);
    }

    /** Between turns of a run: done has been logged, and with the polls from i on it makes all. */
    ghost predicate Running(polls: seq<Poll>, i: nat, done: seq<Message>, all: (Game, seq<Message>),
        start: seq<Message>)
      requires i <= |polls|
      reads this
    {
      && all == (Run(cfg, State(), polls[i..]).0, done + Run(cfg, State(), polls[i..]).1)
      && log == start + Number(done, |start|)
    }

    method RunNext(polls: seq<Poll>, i: nat, ghost done: seq<Message>, ghost all: (Game, seq<Message>),
                   ghost start: seq<Message>) returns (ghost next: seq<Message>)
      requires Valid() && GoodGame(cfg, State()) && Fair(cfg)
      requires i < |polls| && Running(polls, i, done, all, start)
      modifies this, msgLogWriter, occupiedCellsBodies
      ensures Valid() && GoodGame(cfg, State()) && Running(polls, i + 1, next, all, start)
    {
      ghost var t := Engine.Tick(cfg, State(), polls[i].at, polls[i].messages);
      RunCons(cfg, State(), polls[i..]);
      assert polls[i..][1..] == polls[i + 1..];
      Associate(done, t.records, Run(cfg, t.game, polls[i + 1..]).1);
      LogNext(start, done, t.records);
      assert Refillable(cfg, foodMap, gen);
      Tick(polls[i].at, polls[i].messages);
      next := done + t.records;
    }

    /** The engine fed with the polls of a live run. */
    method RunPolls(polls: seq<Poll>)
      requires Valid() && GoodGame(cfg, State()) && Fair(cfg)
      modifies this, msgLogWriter, occupiedCellsBodies
      ensures Valid() && GoodGame(cfg, State())
      ensures var r := Run(cfg, old(State()), polls);
        State() == r.0 && log == old(log) + Number(r.1, old(currentSequence))
    {
      ghost var all := Run(cfg, State(), polls);
      ghost var done: seq<Message> := [];
      assert polls[0..] == polls;
      assert [] + all.1 == all.1;
      for i := 0 to |polls|
        invariant Valid() && GoodGame(cfg, State())
        invariant Running(polls, i, done, all, old(log))
      {
        done := RunNext(polls, i, done, all, old(log));
      }
      assert done + [] == done;
    }

    // ---------- replay ----------

    /** What the engine takes from one batch of its log: the time of the last record, and the records
        that are not its own output. */
    method PollBatch(batch: Batch) returns (at: int, messages: seq<Message>)
      ensures Poll(at, messages) == PollOf(batch)
      ensures at == TimeOf(batch[|batch| - 1]) && messages == KeptOnly(batch)
    {
      at, messages := TimeOf(batch[0]), [];
      for i := 0 to |batch|
        invariant messages == KeptOnly(batch[..i])
        invariant i > 0 ==> at == TimeOf(batch[i - 1])
      {
        var m := batch[i];
        KeptOnlyNext(batch, i);
        at := TimeOf(m);
        if !m.ServerWelcome? && !m.GameState? {
          messages := messages + [m];
        }
      }
      assert batch[..|batch|] == batch;
    }

    /** The batches replayed so far, from the game was and the log start. */
    ghost predicate Replayed(before: seq<Batch>, was: Game, start: seq<Message>)
      reads this
    {
      var run := Run(cfg, was, PollsOf(before));
      State() == run.0 && log == start + Number(run.1, |start|)
    }

    method ReplayBatch(batch: Batch, ghost before: seq<Batch>, ghost was: Game, ghost start: seq<Message>)
      requires Valid() && GoodGame(cfg, State()) && Fair(cfg)
      requires Replayed(before, was, start)
      modifies this, msgLogWriter, occupiedCellsBodies
      ensures Valid() && GoodGame(cfg, State()) && Replayed(before + [batch], was, start)
    {
      var at, messages := PollBatch(batch);
      assert Refillable(cfg, foodMap, gen);
      PollsOfNext(before, batch);
      RunNextPoll(cfg, was, PollsOf(before), Poll(at, messages));
      LogNext(start, Run(cfg, was, PollsOf(before)).1, Engine.Tick(cfg, State(), at, messages).records);
      Tick(at, messages);
    }

    /** One turn of the replaying loop: whether there was another batch. */
    method ReplayNext(reader: MessageLogReader, ghost before: seq<Batch>, ghost was: Game, ghost start: seq<Message>)
      returns (r: Result<bool>, ghost after: seq<Batch>)
      requires Valid() && GoodGame(cfg, State()) && Fair(cfg)
      requires Replayed(before, was, start)
      modifies this, msgLogWriter, occupiedCellsBodies, reader
      ensures Valid() && GoodGame(cfg, State()) && Replayed(after, was, start)
      ensures match r
        case Err(e) => old(reader.Calls()) == Err(e)
        case Ok(false) => old(reader.Calls()) == Ok([]) && after == before
        case Ok(true) =>
          && reader.Remaining() < old(reader.Remaining()) && |after| == |before| + 1
          && After(before, old(reader.Calls())) == After(after, reader.Calls())
    {
      after := before;
      var next := reader.NextBatch();
      if next.Err? {
        return Err(next.error), before;
      }
      var batch := next.value;
      if batch == [] {
        return Ok(false), before;
      }
      AfterNext(before, batch, reader.Calls());
      ReplayBatch(batch, before, was, start);
      return Ok(true), before + [batch];
    }

    /** Replay a log, batch after batch, until the reader has no more or fails. */
    method RunReplay(reader: MessageLogReader) returns (r: Result<nat>)
      requires Valid() && GoodGame(cfg, State()) && Fair(cfg)
      modifies this, msgLogWriter, occupiedCellsBodies, reader
      ensures Valid() && GoodGame(cfg, State())
      ensures match old(reader.Calls())
        case Err(e) => r == Err(e)
        case Ok(batches) => r == Ok(|batches|) && Replayed(batches, old(State()), old(log))
    {
      var n, more := 0, true;
      ghost var calls, before: seq<Batch> := reader.Calls(), [];
      assert Number([], |log|) == [];
      NothingBefore(calls);
      while more
        invariant Valid() && GoodGame(cfg, State())
        invariant Replayed(before, old(State()), old(log)) && n == |before|
        invariant more ==> calls == After(before, reader.Calls())
        invariant !more ==> calls == Ok(before)
        decreases more, reader.Remaining()
      {
        var next;
        next, before := ReplayNext(reader, before, old(State()), old(log));
        if next.Err? {
          return Err(next.error);
        }
        if next.value {
          n := n + 1;
        } else {
          more := false;
          assert before + [] == before;
        }
      }
      return Ok(n);
    }
  }

  /** Batches that came first, then the outcome of the calls to come. */
  ghost function After(before: seq<Batch>, calls: Result<seq<Batch>>): Result<seq<Batch>> {
    match calls
    case Ok(batches) => Ok(before + batches)
    case Err(e) => Err(e)
  }

  lemma NothingBefore(calls: Result<seq<Batch>>)
    ensures After([], calls) == calls
  {
    if calls.Ok? { assert [] + calls.value == calls.value; }
  }

  lemma AfterNext(before: seq<Batch>, batch: Batch, calls: Result<seq<Batch>>)
    ensures After(before + [batch], calls) == After(before, After([batch], calls))
  {
    if calls.Ok? {
      assert (before + [batch]) + calls.value == before + ([batch] + calls.value);
    }
  }

  lemma KeptOnlyNext(messages: seq<Message>, i: nat)
    requires i < |messages|
    ensures KeptOnly(messages[..i + 1])
      == if Kept(messages[i]) then KeptOnly(messages[..i]) + [messages[i]] else KeptOnly(messages[..i])
  {
    assert messages[..i + 1] == messages[..i] + [messages[i]];
    KeptOnlyConcat(messages[..i], [messages[i]]);
    assert [messages[i]][1..] == [];
    assert KeptOnly(messages[..i]) + [] == KeptOnly(messages[..i]);
  }

  lemma {:induction false} PollsOfNext(batches: seq<Batch>, batch: Batch)
    ensures PollsOf(batches + [batch]) == PollsOf(batches) + [PollOf(batch)]
  {
    if batches == [] {
      assert [] + [batch] == [batch] && [batch][1..] == [];
    } else {
      assert (batches + [batch])[1..] == batches[1..] + [batch];
      PollsOfNext(batches[1..], batch);
    }
  }

  function PollOf(batch: Batch): Poll {
    Poll(TimeOf(batch[|batch| - 1]), KeptOnly(batch))
  }

  function PollsOf(batches: seq<Batch>): seq<Poll> {
    if batches == [] then [] else [PollOf(batches[0])] + PollsOf(batches[1..])
  }

  lemma {:induction false} PollsOfOneTime(batches: seq<Batch>)
    requires forall b :: b in batches ==> OneTime(b)
    ensures PollsOf(batches) == ReplayBatches(batches)
  {
    if batches != [] {
      var b := batches[0];
      assert b in batches && b[|b| - 1] in b;
      PollsOfOneTime(batches[1..]);
    }
  }

  /** The items from the i-th on. */
  function ItemsFrom(t: Items, i: nat): seq<Food>
    requires i <= |t.keys|
  {
    assert forall c :: c in t.keys[i..] ==> c in t.keys;
    ItemList(t.m, t.keys[i..])
  }

  lemma ItemsFromNext(t: Items, i: nat, done: seq<Food>)
    requires i < |t.keys|
    ensures t.keys[i] in t.m
    ensures done + ItemsFrom(t, i) == done + [t.m[t.keys[i]]] + ItemsFrom(t, i + 1)
  {
    assert t.keys[i] in t.keys && t.keys[i..][1..] == t.keys[i + 1..];
  }

  /** The states of the players from the i-th on. */
  function StatesFrom(t: Players, i: nat): seq<PlayerState>
    requires i <= |t.keys|
  {
    assert forall id :: id in t.keys[i..] ==> id in t.keys;
    PlayerStates(t.m, t.keys[i..])
  }

  lemma StatesFromNext(t: Players, i: nat, done: seq<PlayerState>)
    requires i < |t.keys|
    ensures t.keys[i] in t.m
    ensures done + StatesFrom(t, i) == done + [PlayerStateOf(t.keys[i], t.m[t.keys[i]])] + StatesFrom(t, i + 1)
  {
    assert t.keys[i] in t.keys && t.keys[i..][1..] == t.keys[i + 1..];
  }

  /** A check of all players from the first on, and the destruction of those it marks. */
  lemma CheckFrom(cfg: Config, g: Game, now: int)
    ensures var c := CollideFrom(cfg, g.players, StartClash(g), 0, now);
      && Engine.CheckCollisions(cfg, g, now) == Engine.DestroyPlayers(cfg, AfterClash(g, c), c.doomed)
      && AllThere(c.players, c.doomed)
  {
    assert g.players.keys[0..] == g.players.keys;
    DoomedAreThere(cfg, g, now);
  }

  /** Players marked for destruction are there, each marked once. */
  lemma DoomedAreThere(cfg: Config, g: Game, now: int)
    ensures var c := CollideAll(cfg, g.players, StartClash(g), g.players.keys, now); AllThere(c.players, c.doomed)
  {
    var start := StartClash(g);
    var vs := VerdictsOf(cfg, g.players, start);
    assert OrderOf(g.players.keys, start.players);
    CheckIsVerdicts(cfg, g.players, start, g.players.keys, now);
    DoomedMembers(vs, g.players.keys);
    var c := CollideAll(cfg, g.players, start, g.players.keys, now);
    assert c.doomed == DoomedOf(vs, g.players.keys);
  }
}