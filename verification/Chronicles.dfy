/**
 What an onlooker writes down about each snake during a run: the cells its head was seen in, and when it
 was seen to move and to grow. The onlooker looks at the players only, after every message, after the
 movement and after the collision check. The theorems are about what was written down.
 */
module Chronicles {
  import opened LittleEndian
  import opened Tables
  import opened Chains
  import opened Lives
  import opened Protocol
  import opened Engine
  import opened Survivors
  import opened Invariants

  datatype Story = Story(cells: seq<Pos>, life: Life)

  type Stories = map<Int32, Story>

  /** A head in another cell is a move, a longer chain is a growth. */
  function Continued(p: Player, q: Player, s: Story, now: int): Story {
    var moved := Head(q) != Head(p);
    Story(if moved then s.cells + [Head(q)] else s.cells,
          s.life + (if moved then [Moved(q.direction, now)] else []) + if |q.chain| > |p.chain| then [Grew] else [])
  }

  /** Players who are new get a new story, players who are gone lose theirs. */
  function Watch(before: Players, after: Players, s: Stories, now: int): Stories {
    map id | id in after.m ::
      if id in before.m && id in s then Continued(before.m[id], after.m[id], s[id], now)
      else Story([Head(after.m[id])], [])
  }

  function WatchMessages(cfg: Config, g: Game, s: Stories, now: int, messages: seq<Message>): Stories
    decreases |messages|
  {
    if messages == [] then s
    else
      var next := ApplyOne(cfg, g, now, messages[0]).game;
      WatchMessages(cfg, next, Watch(g.players, next.players, s, now), now, messages[1..])
  }

  /** The stories after the movement of a tick. Players about to die in its collision check still have theirs. */
  ghost function WatchMovement(cfg: Config, g: Game, s: Stories, now: int, messages: seq<Message>): Stories {
    var f := ReplaceFoodIn(cfg, g);
    var a := ApplyAll(cfg, f, now, messages).game;
    Watch(a.players, Moving(cfg, g, now, messages).players, WatchMessages(cfg, f, s, now, messages), now)
  }

  ghost function WatchTick(cfg: Config, g: Game, s: Stories, now: int, messages: seq<Message>): Stories {
    Watch(Moving(cfg, g, now, messages).players, Tick(cfg, g, now, messages).game.players,
          WatchMovement(cfg, g, s, now, messages), now)
  }

  ghost function WatchRun(cfg: Config, g: Game, s: Stories, polls: seq<Poll>): Stories
    decreases |polls|
  {
    if polls == [] then s
    else
      var now, messages := polls[0].at, polls[0].messages;
      WatchRun(cfg, Tick(cfg, g, now, messages).game, WatchTick(cfg, g, s, now, messages), polls[1..])
  }

  /** The stories of a run from the start. */
  ghost function Chronicle(cfg: Config, seed: nat, polls: seq<Poll>): Stories {
    WatchRun(cfg, NewGame(seed), map[], polls)
  }

  // ---------- the stories are true ----------

  /** The player is what its story made of it, and the cells are its head's history. */
  ghost predicate Tells(cfg: Config, p: Player, s: Story) {
    && s.cells != [] && s.cells == History(s.cells[0], s.life)
    && Lived(cfg, p, s.cells[0], s.life)
  }

  ghost predicate Chronicled(cfg: Config, t: Players, s: Stories) {
    s.Keys == t.m.Keys && forall id :: id in t.m ==> Tells(cfg, t.m[id], s[id])
  }

  lemma NothingHappened(p: Player, q: Player, s: Story, now: int)
    requires Head(q) == Head(p) && |q.chain| <= |p.chain|
    ensures Continued(p, q, s, now) == s
  {
  }

  lemma JoinTells(cfg: Config, id: Int32, name: Bytes, at: Pos, now: int)
    ensures Tells(cfg, SpawnPlayer(cfg, id, name, at, now), Story([at], []))
  {
  }

  lemma MoveTells(cfg: Config, p: Player, q: Player, s: Story, now: int)
    requires Tells(cfg, p, s) && Lived(cfg, q, s.cells[0], s.life + [Moved(q.direction, now)])
    requires Head(q) == Step(Head(p), q.direction) && |q.chain| == |p.chain|
    ensures Tells(cfg, q, Continued(p, q, s, now))
  {
    HeadIsLatest(s.cells[0], s.life);
    MovedLife(s.life, q.direction, now);
    assert Continued(p, q, s, now).life == s.life + [Moved(q.direction, now)];
  }

  /** A move or no move. */
  lemma StepTells(cfg: Config, p: Player, s: Story, now: int)
    requires Paced(cfg) && Tells(cfg, p, s)
    ensures Tells(cfg, StepPlayer(cfg, p, now), Continued(p, StepPlayer(cfg, p, now), s, now))
  {
    StepLives(cfg, p, now, s.cells[0], s.life);
    if Due(p, now) {
      MoveTells(cfg, p, StepPlayer(cfg, p, now), s, now);
    } else {
      NothingHappened(p, StepPlayer(cfg, p, now), s, now);
    }
  }

  /** A growth or nothing. */
  lemma SentenceTells(cfg: Config, v: Verdict, p: Player, s: Story, now: int)
    requires Tells(cfg, p, s)
    ensures Tells(cfg, Sentence(cfg, v, p, now), Continued(p, Sentence(cfg, v, p, now), s, now))
  {
    var q := Sentence(cfg, v, p, now);
    SentenceLives(cfg, v, p, now, s.cells[0], s.life);
    if v == Eats {
      GrowAt(p.chain);
      GrownLife(s.life);
      assert Continued(p, q, s, now).life == s.life + [Grew];
    } else {
      NothingHappened(p, q, s, now);
    }
  }

  /** What has to be shown of one player between two looks. */
  ghost predicate TellsOne(cfg: Config, t: Players, u: Players, s: Stories, now: int, id: Int32)
    requires id in u.m && s.Keys == t.m.Keys
  {
    Tells(cfg, u.m[id], if id in t.m then Continued(t.m[id], u.m[id], s[id], now) else Story([Head(u.m[id])], []))
  }

  lemma WatchTells(cfg: Config, t: Players, u: Players, s: Stories, now: int)
    requires s.Keys == t.m.Keys
    requires forall id :: id in u.m ==> TellsOne(cfg, t, u, s, now, id)
    ensures Chronicled(cfg, u, Watch(t, u, s, now))
  {
    forall id | id in u.m ensures Tells(cfg, u.m[id], Watch(t, u, s, now)[id]) {
      assert TellsOne(cfg, t, u, s, now, id);
    }
  }

  /** Nothing to tell: the same players, or some of them. */
  lemma FewerTell(cfg: Config, t: Players, u: Players, s: Stories, now: int)
    requires Chronicled(cfg, t, s)
    requires forall id :: id in u.m ==> id in t.m && u.m[id] == t.m[id]
    ensures Chronicled(cfg, u, Watch(t, u, s, now))
  {
    forall id | id in u.m ensures TellsOne(cfg, t, u, s, now, id) {
      NothingHappened(t.m[id], u.m[id], s[id], now);
    }
    WatchTells(cfg, t, u, s, now);
  }

  /** One player is new or changed. */
  lemma PutTells(cfg: Config, t: Players, id: Int32, p: Player, s: Stories, now: int)
    requires Chronicled(cfg, t, s) && TellsOne(cfg, t, Put(t, id, p), s, now, id)
    ensures Chronicled(cfg, Put(t, id, p), Watch(t, Put(t, id, p), s, now))
  {
    var u := Put(t, id, p);
    forall x | x in u.m ensures TellsOne(cfg, t, u, s, now, x) {
      if x != id {
        NothingHappened(t.m[x], u.m[x], s[x], now);
      }
    }
    WatchTells(cfg, t, u, s, now);
  }

  lemma InputTells(cfg: Config, t: Players, id: Int32, input: char, s: Stories, now: int)
    requires Chronicled(cfg, t, s) && id in t.m
    ensures var u := Put(t, id, Turn(t.m[id], input)); Chronicled(cfg, u, Watch(t, u, s, now))
  {
    var p := t.m[id];
    assert Tells(cfg, p, s[id]);
    TurnLives(cfg, p, input, s[id].cells[0], s[id].life);
    NothingHappened(p, Turn(p, input), s[id], now);
    PutTells(cfg, t, id, Turn(p, input), s, now);
  }

  lemma NewcomerTells(cfg: Config, t: Players, id: Int32, name: Bytes, at: Pos, s: Stories, now: int)
    requires Chronicled(cfg, t, s)
    ensures var u := AddPlayer(t, id, SpawnPlayer(cfg, id, name, at, now)); Chronicled(cfg, u, Watch(t, u, s, now))
  {
    if Has(t, id) {
      FewerTell(cfg, t, t, s, now);
    } else {
      JoinTells(cfg, id, name, at, now);
      PutTells(cfg, t, id, SpawnPlayer(cfg, id, name, at, now), s, now);
    }
  }

  lemma MessageTells(cfg: Config, g: Game, s: Stories, now: int, m: Message)
    requires Chronicled(cfg, g.players, s)
    ensures var next := ApplyOne(cfg, g, now, m).game;
      Chronicled(cfg, next.players, Watch(g.players, next.players, s, now))
  {
    var id := m.hdr.clientId;
    if m.ClientJoin? {
      NewcomerTells(cfg, g.players, id, m.username, SpawnCell(cfg, g.gen).0, s, now);
    } else if m.ClientInput? && Has(g.players, id) {
      InputTells(cfg, g.players, id, m.input, s, now);
    } else {
      FewerTell(cfg, g.players, ApplyOne(cfg, g, now, m).game.players, s, now);
    }
  }

  lemma {:induction false} MessagesTell(cfg: Config, g: Game, s: Stories, now: int, messages: seq<Message>)
    requires Chronicled(cfg, g.players, s)
    ensures Chronicled(cfg, ApplyAll(cfg, g, now, messages).game.players, WatchMessages(cfg, g, s, now, messages))
    decreases |messages|
  {
    if messages != [] {
      var next := ApplyOne(cfg, g, now, messages[0]).game;
      MessageTells(cfg, g, s, now, messages[0]);
      MessagesTell(cfg, next, Watch(g.players, next.players, s, now), now, messages[1..]);
    }
  }

  lemma MovementTells(cfg: Config, a: Game, s: Stories, now: int)
    requires Paced(cfg) && Chronicled(cfg, a.players, s)
    ensures var h := UpdateSnakes(cfg, a, now); Chronicled(cfg, h.players, Watch(a.players, h.players, s, now))
  {
    var h := UpdateSnakes(cfg, a, now);
    forall id | id in h.players.m ensures TellsOne(cfg, a.players, h.players, s, now, id) {
      StepTells(cfg, a.players.m[id], s[id], now);
    }
    WatchTells(cfg, a.players, h.players, s, now);
  }

  lemma CheckTells(cfg: Config, h: Game, s: Stories, now: int)
    requires Chronicled(cfg, h.players, s)
    ensures var c := CheckCollisions(cfg, h, now); Chronicled(cfg, c.players, Watch(h.players, c.players, s, now))
  {
    var c := CheckCollisions(cfg, h, now);
    forall id | id in c.players.m ensures TellsOne(cfg, h.players, c.players, s, now, id) {
      SurvivesExactlyWhen(cfg, h, now, id);
      SentenceTells(cfg, Decide(cfg, h.players, StartClash(h), id), h.players.m[id], s[id], now);
    }
    WatchTells(cfg, h.players, c.players, s, now);
  }

  lemma MovementIsTold(cfg: Config, g: Game, s: Stories, now: int, messages: seq<Message>)
    requires Paced(cfg) && Chronicled(cfg, g.players, s)
    ensures Chronicled(cfg, Moving(cfg, g, now, messages).players, WatchMovement(cfg, g, s, now, messages))
  {
    var f := ReplaceFoodIn(cfg, g);
    MessagesTell(cfg, f, s, now, messages);
    MovementTells(cfg, ApplyAll(cfg, f, now, messages).game, WatchMessages(cfg, f, s, now, messages), now);
  }

  /** Placing a boost is nothing to the players. */
  lemma PlayersAfter(cfg: Config, a: Game, now: int)
    ensures var h := UpdateSnakes(cfg, a, now);
      Advance(cfg, a, now).players == (if AnyDue(a, now) then CheckCollisions(cfg, h, now) else h).players
  {
  }

  /** The rest of a tick, after its movement. */
  lemma RestTells(cfg: Config, h: Game, due: bool, s: Stories, now: int)
    requires Chronicled(cfg, h.players, s)
    ensures var u := (if due then CheckCollisions(cfg, h, now) else h).players;
      Chronicled(cfg, u, Watch(h.players, u, s, now))
  {
    if due {
      CheckTells(cfg, h, s, now);
    } else {
      FewerTell(cfg, h.players, h.players, s, now);
    }
  }

  lemma TickIsTold(cfg: Config, g: Game, s: Stories, now: int, messages: seq<Message>)
    requires Paced(cfg) && Chronicled(cfg, g.players, s)
    ensures Chronicled(cfg, Tick(cfg, g, now, messages).game.players, WatchTick(cfg, g, s, now, messages))
  {
    MovementIsTold(cfg, g, s, now, messages);
    var a := ApplyAll(cfg, ReplaceFoodIn(cfg, g), now, messages).game;
    PlayersAfter(cfg, a, now);
    RestTells(cfg, Moving(cfg, g, now, messages), AnyDue(a, now), WatchMovement(cfg, g, s, now, messages), now);
  }

  lemma {:induction false} RunIsTold(cfg: Config, g: Game, s: Stories, polls: seq<Poll>)
    requires Paced(cfg) && Chronicled(cfg, g.players, s)
    ensures Chronicled(cfg, Run(cfg, g, polls).0.players, WatchRun(cfg, g, s, polls))
    decreases |polls|
  {
    if polls != [] {
      var now, messages := polls[0].at, polls[0].messages;
      TickIsTold(cfg, g, s, now, messages);
      RunIsTold(cfg, Tick(cfg, g, now, messages).game, WatchTick(cfg, g, s, now, messages), polls[1..]);
    }
  }

  // ---------- what every run has in common ----------

  /** Consecutive segments are in the same cell or in neighbouring ones. */
  predicate Touching(c: Chain) {
    forall i :: 1 <= i < |c| ==> Distance(c[i - 1].pos, c[i].pos) <= 1
  }

  lemma LivesTouch(spawn: Pos, life: Life)
    ensures Touching(ChainOf(spawn, life))
  {
    SegmentsTouch(spawn, life);
    var c := ChainOf(spawn, life);
    forall i | 1 <= i < |c| ensures Distance(c[i - 1].pos, c[i].pos) <= 1 {
      var k := i - 1;
      assert c[k + 1].pos == c[k].prev && Distance(c[k].pos, c[k].prev) <= 1;
    }
  }

  /**
   After every run, every snake's body follows its head: its segments are cells that its head was seen
   in, at moments that start with the latest and fall by 0 or 1 from segment to segment. Its score is its
   length, and its next direction is never backwards.
   */
  lemma ReachableSnakes(cfg: Config, seed: nat, polls: seq<Poll>, id: Int32)
    requires Paced(cfg) && id in Run(cfg, NewGame(seed), polls).0.players.m
    ensures id in Chronicle(cfg, seed, polls)
    ensures var p, s := Run(cfg, NewGame(seed), polls).0.players.m[id], Chronicle(cfg, seed, polls)[id];
      && Follows(p.chain, s.cells, Moments(s.life))
      && Touching(p.chain)
      && p.score == |p.chain|
      && p.nextDirection != Opposite(p.direction)
  {
    RunIsTold(cfg, NewGame(seed), map[], polls);
    var p, s := Run(cfg, NewGame(seed), polls).0.players.m[id], Chronicle(cfg, seed, polls)[id];
    assert Tells(cfg, p, s);
    BodyFollowsHead(s.cells[0], s.life);
    LivesTouch(s.cells[0], s.life);
  }

  /** How often a snake was seen to move in the span [a, b], and that its moves were at least gap apart. */
  ghost predicate PacedMoves(s: Story, a: int, d: nat, gap: int)
    requires gap > 0
  {
    Spaced(MoveTimes(s.life), gap) && CountWithin(MoveTimes(s.life), a, a + d) <= d / gap + 1
  }

  /** During every run no snake was seen to move more than d / gap + 1 times in any span of length d,
      gap being the boosted interval. */
  lemma ReachableMovementRate(cfg: Config, seed: nat, polls: seq<Poll>, id: Int32, a: int, d: nat)
    requires Paced(cfg) && Gap(cfg) > 0 && id in Run(cfg, NewGame(seed), polls).0.players.m
    ensures id in Chronicle(cfg, seed, polls) && PacedMoves(Chronicle(cfg, seed, polls)[id], a, d, Gap(cfg))
  {
    RunIsTold(cfg, NewGame(seed), map[], polls);
    var p, s := Run(cfg, NewGame(seed), polls).0.players.m[id], Chronicle(cfg, seed, polls)[id];
    assert Tells(cfg, p, s);
    MovementRate(MoveTimes(s.life), a, d, Gap(cfg));
  }

  /** The same with one more tick's moves, those into death included. */
  lemma LastMovesRate(
    cfg: Config, seed: nat, polls: seq<Poll>, now: int, messages: seq<Message>, id: Int32, a: int, d: nat)
    requires Paced(cfg) && Gap(cfg) > 0
    requires id in Moving(cfg, Run(cfg, NewGame(seed), polls).0, now, messages).players.m
    ensures var s := WatchMovement(cfg, Run(cfg, NewGame(seed), polls).0, Chronicle(cfg, seed, polls), now, messages);
      id in s && PacedMoves(s[id], a, d, Gap(cfg))
  {
    var g := Run(cfg, NewGame(seed), polls).0;
    RunIsTold(cfg, NewGame(seed), map[], polls);
    MovementIsTold(cfg, g, Chronicle(cfg, seed, polls), now, messages);
    var s := WatchMovement(cfg, g, Chronicle(cfg, seed, polls), now, messages);
    assert Tells(cfg, Moving(cfg, g, now, messages).players.m[id], s[id]);
    MovementRate(MoveTimes(s[id].life), a, d, Gap(cfg));
  }
}
