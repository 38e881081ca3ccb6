/**
 Which way snakes go. An onlooker writes down the keys that each client has sent since its snake was last
 seen to move, or joined. The theorem is that every move follows what is written down.
 */
module Keys {
  import opened LittleEndian
  import opened Chains
  import opened Protocol
  import opened Engine
  import opened Survivors
  import opened Invariants
  import opened Clients
  import Chronicles

  type Presses = map<Int32, seq<char>>

  /** One message: a key more for its sender if it is a key, and nothing yet of players who are new. */
  function Noted(before: Players, after: Players, k: Presses, m: Message): Presses {
    map id | id in after.m ::
      (if id in before.m && id in k then k[id] else [])
      + if m.ClientInput? && m.hdr.clientId == id then [m.input] else []
  }

  function NotedAll(cfg: Config, g: Game, k: Presses, now: int, messages: seq<Message>): Presses
    decreases |messages|
  {
    if messages == [] then k
    else
      var next := ApplyOne(cfg, g, now, messages[0]).game;
      NotedAll(cfg, next, Noted(g.players, next.players, k, messages[0]), now, messages[1..])
  }

  /** A head in another cell has moved: what was written down is done with. */
  function Done(before: Players, after: Players, k: Presses): Presses {
    map id | id in after.m ::
      if id in before.m && id in k && Head(after.m[id]) == Head(before.m[id]) then k[id] else []
  }

  /** The keys written down when a tick's movement begins. */
  ghost function KeysAtMovement(cfg: Config, g: Game, k: Presses, now: int, messages: seq<Message>): Presses {
    NotedAll(cfg, ReplaceFoodIn(cfg, g), k, now, messages)
  }

  ghost function KeysAfterTick(cfg: Config, g: Game, k: Presses, now: int, messages: seq<Message>): Presses {
    var a := ApplyAll(cfg, ReplaceFoodIn(cfg, g), now, messages).game;
    var moved := Done(a.players, Moving(cfg, g, now, messages).players, KeysAtMovement(cfg, g, k, now, messages));
    Done(Moving(cfg, g, now, messages).players, Tick(cfg, g, now, messages).game.players, moved)
  }

  ghost function KeysAfterRun(cfg: Config, g: Game, k: Presses, polls: seq<Poll>): Presses
    decreases |polls|
  {
    if polls == [] then k
    else
      var now, messages := polls[0].at, polls[0].messages;
      KeysAfterRun(cfg, Tick(cfg, g, now, messages).game, KeysAfterTick(cfg, g, k, now, messages), polls[1..])
  }

  // ---------- the next direction is what the keys make it ----------

  ghost predicate Follows(p: Player, keys: seq<char>) {
    p.nextDirection == Steered(p.direction, p.direction, keys)
  }

  ghost predicate AllFollow(t: Players, k: Presses) {
    k.Keys == t.m.Keys && forall id :: id in t.m ==> Follows(t.m[id], k[id])
  }

  lemma KeyFollows(p: Player, q: Player, keys: seq<char>, key: char)
    requires Follows(p, keys) && q == if Taken(key, p.direction) then p.(nextDirection := key) else p
    ensures Follows(q, keys + [key])
  {
    SteeredMore(p.direction, p.direction, keys, key);
  }

  lemma MessageFollows(cfg: Config, g: Game, k: Presses, now: int, m: Message, id: Int32)
    requires AllFollow(g.players, k) && id in ApplyOne(cfg, g, now, m).game.players.m
    ensures var next := ApplyOne(cfg, g, now, m).game;
      Follows(next.players.m[id], Noted(g.players, next.players, k, m)[id])
  {
    var next := ApplyOne(cfg, g, now, m).game;
    if m.ClientInput? {
      InputChanges(cfg, g, now, m);
      if m.hdr.clientId == id {
        KeyFollows(g.players.m[id], next.players.m[id], k[id], m.input);
      } else {
        assert k[id] + [] == k[id];
      }
    } else if id in g.players.m {
      assert next.players.m[id] == g.players.m[id] && k[id] + [] == k[id];
    } else {
      assert next.players.m[id].direction == '^' && next.players.m[id].nextDirection == '^';
      assert [] + [] == Noted(g.players, next.players, k, m)[id];
    }
  }

  lemma {:induction false} MessagesFollow(cfg: Config, g: Game, k: Presses, now: int, messages: seq<Message>)
    requires AllFollow(g.players, k)
    ensures AllFollow(ApplyAll(cfg, g, now, messages).game.players, NotedAll(cfg, g, k, now, messages))
    decreases |messages|
  {
    if messages != [] {
      var next := ApplyOne(cfg, g, now, messages[0]).game;
      var noted := Noted(g.players, next.players, k, messages[0]);
      forall id | id in next.players.m ensures Follows(next.players.m[id], noted[id]) {
        MessageFollows(cfg, g, k, now, messages[0], id);
      }
      MessagesFollow(cfg, next, noted, now, messages[1..]);
    }
  }

  /** The cell in front of a cell. */
  predicate InFront(p: Pos, d: char, q: Pos) {
    && (d == '^' ==> q == Pos(p.x, p.y - 1)) && (d == 'v' ==> q == Pos(p.x, p.y + 1))
    && (d == '<' ==> q == Pos(p.x - 1, p.y)) && (d == '>' ==> q == Pos(p.x + 1, p.y))
    && IsKey(d)
  }

  /** Between two looks at a snake: it moved one cell the way its keys say, or it did not move. */
  predicate MovedByKeys(p: Player, q: Player, keys: seq<char>, due: bool) {
    if due then q.direction == Steered(p.direction, p.direction, keys) && InFront(Head(p), q.direction, Head(q))
    else q.direction == p.direction && Head(q) == Head(p)
  }

  lemma StepFollows(cfg: Config, p: Player, keys: seq<char>, now: int)
    requires Follows(p, keys)
    ensures var q := StepPlayer(cfg, p, now);
      MovedByKeys(p, q, keys, now >= p.nextMoveTime) && Follows(q, if Head(q) == Head(p) then keys else [])
  {
    if Due(p, now) { MoveToAt(p.chain, Step(Head(p), p.nextDirection)); }
  }

  lemma MovementFollows(cfg: Config, a: Game, k: Presses, now: int)
    requires AllFollow(a.players, k)
    ensures var h := UpdateSnakes(cfg, a, now); AllFollow(h.players, Done(a.players, h.players, k))
  {
    forall id | id in a.players.m
      ensures var u := UpdateSnakes(cfg, a, now).players; Follows(u.m[id], Done(a.players, u, k)[id])
    {
      StepFollows(cfg, a.players.m[id], k[id], now);
    }
  }

  lemma SentenceFollows(cfg: Config, v: Verdict, p: Player, keys: seq<char>, now: int)
    requires Follows(p, keys)
    ensures Follows(Sentence(cfg, v, p, now), keys)
  {
  }

  /** A check moves nobody and steers nobody. */
  lemma SurvivorFollows(cfg: Config, h: Game, k: Presses, now: int, id: Int32)
    requires AllFollow(h.players, k) && id in CheckCollisions(cfg, h, now).players.m
    ensures id in h.players.m && Follows(CheckCollisions(cfg, h, now).players.m[id], k[id])
    ensures Head(CheckCollisions(cfg, h, now).players.m[id]) == Head(h.players.m[id])
  {
    Survivor(cfg, h, now, id);
    SurvivesExactlyWhen(cfg, h, now, id);
    SentenceFollows(cfg, Decide(cfg, h.players, StartClash(h), id), h.players.m[id], k[id], now);
  }

  /** The same players in the same cells, or some of them. */
  lemma FewerFollow(t: Players, u: Players, k: Presses)
    requires k.Keys == t.m.Keys
    requires forall id :: id in u.m ==> id in t.m && Follows(u.m[id], k[id]) && Head(u.m[id]) == Head(t.m[id])
    ensures AllFollow(u, Done(t, u, k))
  {
  }

  lemma CheckFollows(cfg: Config, h: Game, k: Presses, now: int, u: Players)
    requires AllFollow(h.players, k) && u == CheckCollisions(cfg, h, now).players
    ensures AllFollow(u, Done(h.players, u, k))
  {
    forall id | id in u.m
      ensures id in h.players.m && Follows(u.m[id], k[id]) && Head(u.m[id]) == Head(h.players.m[id])
    {
      SurvivorFollows(cfg, h, k, now, id);
    }
    FewerFollow(h.players, u, k);
  }

  lemma RestFollows(cfg: Config, h: Game, due: bool, k: Presses, now: int)
    requires AllFollow(h.players, k)
    ensures var u := (if due then CheckCollisions(cfg, h, now) else h).players; AllFollow(u, Done(h.players, u, k))
  {
    if due {
      CheckFollows(cfg, h, k, now, CheckCollisions(cfg, h, now).players);
    } else {
      FewerFollow(h.players, h.players, k);
    }
  }

  lemma TickFollows(cfg: Config, g: Game, k: Presses, now: int, messages: seq<Message>)
    requires AllFollow(g.players, k)
    ensures AllFollow(Tick(cfg, g, now, messages).game.players, KeysAfterTick(cfg, g, k, now, messages))
  {
    var f := ReplaceFoodIn(cfg, g);
    var a, keys := ApplyAll(cfg, f, now, messages).game, KeysAtMovement(cfg, g, k, now, messages);
    var h := Moving(cfg, g, now, messages);
    MessagesFollow(cfg, f, k, now, messages);
    MovementFollows(cfg, a, keys, now);
    Chronicles.PlayersAfter(cfg, a, now);
    RestFollows(cfg, h, AnyDue(a, now), Done(a.players, h.players, keys), now);
  }

  lemma {:induction false} RunFollows(cfg: Config, g: Game, k: Presses, polls: seq<Poll>)
    requires AllFollow(g.players, k)
    ensures AllFollow(Run(cfg, g, polls).0.players, KeysAfterRun(cfg, g, k, polls))
    decreases |polls|
  {
    if polls != [] {
      var now, messages := polls[0].at, polls[0].messages;
      TickFollows(cfg, g, k, now, messages);
      RunFollows(cfg, Tick(cfg, g, now, messages).game, KeysAfterTick(cfg, g, k, now, messages), polls[1..]);
    }
  }

  /**
   After any run, in the next tick, whatever its messages: a snake that is due moves one cell, in the direction
   of the last key sent since it was last seen to move that is a direction and does not point backwards, or in
   its old direction if there was no such key. Keys of this tick count. A snake that is not due stays.
   */
  lemma MovesFollowKeys(cfg: Config, seed: nat, polls: seq<Poll>, now: int, messages: seq<Message>, id: Int32)
    requires id in Moving(cfg, Run(cfg, NewGame(seed), polls).0, now, messages).players.m
    ensures var g := Run(cfg, NewGame(seed), polls).0;
      var keys := KeysAtMovement(cfg, g, KeysAfterRun(cfg, NewGame(seed), map[], polls), now, messages);
      var a, h := ApplyAll(cfg, ReplaceFoodIn(cfg, g), now, messages).game, Moving(cfg, g, now, messages);
      && id in a.players.m && id in keys
      && MovedByKeys(a.players.m[id], h.players.m[id], keys[id], now >= a.players.m[id].nextMoveTime)
  {
    var g, k := Run(cfg, NewGame(seed), polls).0, KeysAfterRun(cfg, NewGame(seed), map[], polls);
    RunFollows(cfg, NewGame(seed), map[], polls);
    MessagesFollow(cfg, ReplaceFoodIn(cfg, g), k, now, messages);
    var a := ApplyAll(cfg, ReplaceFoodIn(cfg, g), now, messages).game;
    StepFollows(cfg, a.players.m[id], KeysAtMovement(cfg, g, k, now, messages)[id], now);
  }
}
