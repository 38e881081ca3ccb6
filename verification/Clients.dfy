/** What the messages of clients do to a game: who plays, with which snake, and which way it will turn. */
module Clients {
  import opened LittleEndian
  import opened Protocol
  import opened Chains
  import opened Engine
  import opened Survivors
  import opened Replay

  // ---------- keys ----------

  /** A key points the way its sign does. */
  predicate IsKey(key: char) {
    key == '^' || key == 'v' || key == '<' || key == '>'
  }

  predicate Backwards(key: char, direction: char) {
    || (key == '^' && direction == 'v') || (key == 'v' && direction == '^')
    || (key == '<' && direction == '>') || (key == '>' && direction == '<')
  }

  predicate Taken(key: char, direction: char) {
    IsKey(key) && !Backwards(key, direction)
  }

  /** The next direction after some keys: the last of them that is taken, or the one from before. */
  function Steered(direction: char, before: Direction, keys: seq<char>): Direction
    decreases |keys|
  {
    if keys == [] then before
    else Steered(direction, if Taken(keys[0], direction) then keys[0] else before, keys[1..])
  }

  lemma {:induction false} SteeredIs(direction: char, before: Direction, keys: seq<char>)
    ensures var d := Steered(direction, before, keys);
      || (d == before && forall i :: 0 <= i < |keys| ==> !Taken(keys[i], direction))
      || exists i :: 0 <= i < |keys| && d == keys[i] && Taken(keys[i], direction)
                     && forall j :: i < j < |keys| ==> !Taken(keys[j], direction)
    decreases |keys|
  {
    if keys != [] {
      var next: Direction := if Taken(keys[0], direction) then keys[0] else before;
      SteeredIs(direction, next, keys[1..]);
      var d := Steered(direction, before, keys);
      if d == next && forall i :: 0 <= i < |keys[1..]| ==> !Taken(keys[1..][i], direction) {
        forall j | 1 <= j < |keys| ensures !Taken(keys[j], direction) { assert keys[j] == keys[1..][j - 1]; }
        if Taken(keys[0], direction) { assert d == keys[0]; }
      } else {
        var i :| 0 <= i < |keys[1..]| && d == keys[1..][i] && Taken(keys[1..][i], direction)
                 && forall j :: i < j < |keys[1..]| ==> !Taken(keys[1..][j], direction);
        forall j | i + 1 < j < |keys| ensures !Taken(keys[j], direction) { assert keys[j] == keys[1..][j - 1]; }
        assert d == keys[i + 1];
      }
    }
  }

  lemma {:induction false} SteeredMore(direction: char, before: Direction, keys: seq<char>, key: char)
    ensures Steered(direction, before, keys + [key])
      == if Taken(key, direction) then key else Steered(direction, before, keys)
    decreases |keys|
  {
    if keys == [] {
      assert [] + [key] == [key] && [key][1..] == [];
    } else {
      assert (keys + [key])[1..] == keys[1..] + [key];
      SteeredMore(direction, if Taken(keys[0], direction) then keys[0] else before, keys[1..], key);
    }
  }

  /** One key: exactly if it is taken the player's next direction becomes it; nothing else changes in the game. */
  lemma InputChanges(cfg: Config, g: Game, now: int, m: Message)
    requires m.ClientInput?
    ensures var h, id := ApplyOne(cfg, g, now, m).game, m.hdr.clientId;
      if id in g.players.m && Taken(m.input, g.players.m[id].direction) then
        h == g.(players := h.players) && h.players.keys == g.players.keys
        && h.players.m == g.players.m[id := g.players.m[id].(nextDirection := m.input)]
      else h == g
  {
    var h, id := ApplyOne(cfg, g, now, m).game, m.hdr.clientId;
    if id in g.players.m && !Taken(m.input, g.players.m[id].direction) {
      assert h.players.m == g.players.m;
    }
  }

  /** The keys that a client sent. */
  function KeysFrom(messages: seq<Message>, id: Int32): seq<char> {
    if messages == [] then []
    else (if messages[0].ClientInput? && messages[0].hdr.clientId == id then [messages[0].input] else [])
         + KeysFrom(messages[1..], id)
  }

  // ---------- joining and leaving ----------

  predicate Enters(m: Message, id: Int32) {
    m.ClientJoin? && m.hdr.clientId == id
  }

  predicate Leaves(m: Message, id: Int32) {
    m.ClientDisconnect? && m.hdr.clientId == id
  }

  predicate NoLeave(messages: seq<Message>, id: Int32) {
    forall i :: 0 <= i < |messages| ==> !Leaves(messages[i], id)
  }

  /** The i-th message is a join of id, and no later one is its disconnect. */
  predicate EntersAt(messages: seq<Message>, id: Int32, i: int) {
    && 0 <= i < |messages| && Enters(messages[i], id)
    && forall j :: i < j < |messages| ==> !Leaves(messages[j], id)
  }

  /** A player after these messages: one that joined and did not leave since, or was there and did not leave. */
  ghost predicate Present(before: bool, messages: seq<Message>, id: Int32) {
    (before && NoLeave(messages, id)) || exists i :: EntersAt(messages, id, i)
  }

  lemma PresentCons(before: bool, messages: seq<Message>, id: Int32)
    requires messages != []
    ensures Present(before, messages, id) <==>
      Present(Enters(messages[0], id) || (before && !Leaves(messages[0], id)), messages[1..], id)
  {
    var later := messages[1..];
    forall i ensures i >= 1 ==> (EntersAt(messages, id, i) <==> EntersAt(later, id, i - 1)) {
      if i >= 1 { EntersLater(messages, id, i); }
    }
    NoLeaveLater(messages, id);
    if i :| EntersAt(messages, id, i) && i >= 1 { assert EntersAt(later, id, i - 1); }
    if i :| EntersAt(later, id, i) { assert EntersAt(messages, id, i + 1); }
    assert EntersAt(messages, id, 0) <==> Enters(messages[0], id) && NoLeave(later, id);
  }

  lemma NoLeaveLater(messages: seq<Message>, id: Int32)
    requires messages != []
    ensures NoLeave(messages, id) <==> !Leaves(messages[0], id) && NoLeave(messages[1..], id)
    ensures (forall j :: 0 < j < |messages| ==> !Leaves(messages[j], id)) <==> NoLeave(messages[1..], id)
  {
    var later := messages[1..];
    assert forall j :: 0 <= j < |later| ==> later[j] == messages[j + 1];
    if NoLeave(later, id) {
      forall j | 0 < j < |messages| ensures !Leaves(messages[j], id) { assert messages[j] == later[j - 1]; }
    }
  }

  lemma EntersLater(messages: seq<Message>, id: Int32, i: int)
    requires messages != [] && i >= 1
    ensures EntersAt(messages, id, i) <==> EntersAt(messages[1..], id, i - 1)
  {
    var later := messages[1..];
    if EntersAt(messages, id, i) {
      forall j | i - 1 < j < |later| ensures !Leaves(later[j], id) { assert later[j] == messages[j + 1]; }
    }
    if EntersAt(later, id, i - 1) {
      forall j | i < j < |messages| ensures !Leaves(messages[j], id) { assert messages[j] == later[j - 1]; }
    }
  }

  /** Who is in the game after some messages. */
  lemma {:induction false} WhoIsThere(cfg: Config, g: Game, now: int, messages: seq<Message>, id: Int32)
    ensures id in ApplyAll(cfg, g, now, messages).game.players.m <==> Present(id in g.players.m, messages, id)
    decreases |messages|
  {
    if messages != [] {
      PresentCons(id in g.players.m, messages, id);
      OneComesOrGoes(cfg, g, now, messages[0], id);
      WhoIsThere(cfg, ApplyOne(cfg, g, now, messages[0]).game, now, messages[1..], id);
    }
  }

  lemma OneComesOrGoes(cfg: Config, g: Game, now: int, m: Message, id: Int32)
    ensures id in ApplyOne(cfg, g, now, m).game.players.m <==> Enters(m, id) || (id in g.players.m && !Leaves(m, id))
  {
  }

  // ---------- what becomes of a player ----------

  lemma OneKeeps(cfg: Config, g: Game, now: int, m: Message, id: Int32)
    requires id in g.players.m && !Leaves(m, id)
    ensures var p, h := g.players.m[id], ApplyOne(cfg, g, now, m).game;
      && id in h.players.m
      && h.players.m[id] == p.(nextDirection := Steered(p.direction, p.nextDirection, KeysFrom([m], id)))
  {
    assert [m][1..] == [];
    if m.ClientInput? {
      InputChanges(cfg, g, now, m);
      assert KeysFrom([m], id) == if m.hdr.clientId == id then [m.input] else [];
      assert [m.input][1..] == [];
    }
  }

  lemma {:induction false} SteeredConcat(direction: char, before: Direction, a: seq<char>, b: seq<char>)
    ensures Steered(direction, before, a + b) == Steered(direction, Steered(direction, before, a), b)
    decreases |a|
  {
    if a == [] {
      assert a + b == b;
    } else {
      assert (a + b)[1..] == a[1..] + b;
      SteeredConcat(direction, if Taken(a[0], direction) then a[0] else before, a[1..], b);
    }
  }

  lemma SteeredCons(direction: char, before: Direction, messages: seq<Message>, id: Int32)
    requires messages != []
    ensures Steered(direction, Steered(direction, before, KeysFrom([messages[0]], id)), KeysFrom(messages[1..], id))
      == Steered(direction, before, KeysFrom(messages, id))
  {
    assert [messages[0]][1..] == [];
    assert KeysFrom(messages, id) == KeysFrom([messages[0]], id) + KeysFrom(messages[1..], id);
    SteeredConcat(direction, before, KeysFrom([messages[0]], id), KeysFrom(messages[1..], id));
  }

  /** A player that does not leave keeps its snake, score and timing; only its next direction is steered, by its
      own keys. A second join changes nothing. */
  lemma {:induction false} KeepsItsSnake(cfg: Config, g: Game, now: int, messages: seq<Message>, id: Int32)
    requires id in g.players.m && NoLeave(messages, id)
    ensures var p, h := g.players.m[id], ApplyAll(cfg, g, now, messages).game;
      id in h.players.m
      && h.players.m[id] == p.(nextDirection := Steered(p.direction, p.nextDirection, KeysFrom(messages, id)))
    decreases |messages|
  {
    if messages != [] {
      var p, next := g.players.m[id], ApplyOne(cfg, g, now, messages[0]).game;
      NoLeaveLater(messages, id);
      OneKeeps(cfg, g, now, messages[0], id);
      KeepsItsSnake(cfg, next, now, messages[1..], id);
      SteeredCons(p.direction, p.nextDirection, messages, id);
    }
  }

  /** The remainder as C++ has it. */
  predicate IsRemainder(a: int, n: int, r: int) {
    -n < r < n && (a - r) % n == 0 && (a >= 0 ==> r >= 0) && (a <= 0 ==> r <= 0)
  }

  /** A new player: one segment in a cell drawn at least six from every border, facing up, and a whole move's
      time before its first move. */
  predicate IsNew(cfg: Config, p: Player, id: Int32, name: Bytes, gen: nat, now: int) {
    var (x, g) := cfg.draw(gen, 6, cfg.width - 6);
    var (y, _) := cfg.draw(g, 6, cfg.height - 6);
    && p.chain == [Node(Pos(x, y), Pos(x, y))] && p.direction == '^' && p.name == name && p.score == 1
    && IsRemainder(id, 5, p.color - 2) && p.frequencyMs == cfg.movementFrequencyMs
    && p.nextMoveTime == now + cfg.movementFrequencyMs * 1000000 && !p.boosted
  }

  /** The player that a join makes: with the joiner's name, at the place that the source then gives, facing up
      and steered since by its keys. */
  lemma Newcomer(cfg: Config, g: Game, now: int, messages: seq<Message>, id: Int32, i: nat)
    requires EntersAt(messages, id, i) && id !in ApplyAll(cfg, g, now, messages[..i]).game.players.m
    ensures var before, h := ApplyAll(cfg, g, now, messages[..i]).game, ApplyAll(cfg, g, now, messages).game;
      && id in h.players.m
      && IsNew(cfg, h.players.m[id], id, messages[i].username, before.gen, now)
      && h.players.m[id].nextDirection == Steered('^', '^', KeysFrom(messages[i + 1..], id))
  {
    var before, later := ApplyAll(cfg, g, now, messages[..i]).game, messages[i + 1..];
    GameSplit(cfg, g, now, messages, i, messages[..i], later);
    JoinMakes(cfg, before, now, messages[i]);
    NoLeaveAfter(messages, id, i, later);
    KeepsItsSnake(cfg, ApplyOne(cfg, before, now, messages[i]).game, now, later, id);
  }

  lemma NoLeaveAfter(messages: seq<Message>, id: Int32, i: nat, later: seq<Message>)
    requires EntersAt(messages, id, i) && later == messages[i + 1..]
    ensures NoLeave(later, id)
  {
    forall j | 0 <= j < |later| ensures !Leaves(later[j], id) { assert later[j] == messages[i + 1 + j]; }
  }

  /** The game after some messages, in three parts. */
  lemma GameSplit(
    cfg: Config, g: Game, now: int, messages: seq<Message>, i: nat, earlier: seq<Message>, later: seq<Message>)
    requires i < |messages| && earlier == messages[..i] && later == messages[i + 1..]
    ensures var before := ApplyAll(cfg, g, now, earlier).game;
      ApplyAll(cfg, g, now, messages).game
        == ApplyAll(cfg, ApplyOne(cfg, before, now, messages[i]).game, now, later).game
  {
    var rest := [messages[i]] + later;
    assert messages == earlier + rest && rest[1..] == later;
    ApplyAllConcat(cfg, g, now, earlier, rest);
  }

  lemma JoinMakes(cfg: Config, g: Game, now: int, m: Message)
    requires m.ClientJoin? && m.hdr.clientId !in g.players.m
    ensures var h, id := ApplyOne(cfg, g, now, m).game, m.hdr.clientId;
      id in h.players.m && IsNew(cfg, h.players.m[id], id, m.username, g.gen, now)
      && h.players.m[id].nextDirection == '^'
  {
    RemainderIs(m.hdr.clientId, 5);
  }

  lemma RemainderIs(a: int, n: nat)
    requires n > 0
    ensures IsRemainder(a, n, Remainder(a, n))
  {
    if a < 0 {
      var q := -a / n;
      assert -a == q * n + -a % n;
      assert a - Remainder(a, n) == (-q) * n + 0;
      Arithmetic.DivMod(-q, n, 0);
    } else {
      var q := a / n;
      assert a == q * n + a % n;
      assert a - Remainder(a, n) == q * n + 0;
      Arithmetic.DivMod(q, n, 0);
    }
  }

  // ---------- what else a tick's messages do ----------

  /** The source after n new snakes have been given a place. */
  function AfterPlaces(cfg: Config, gen: nat, n: nat): nat
    decreases n
  {
    if n == 0 then gen
    else AfterPlaces(cfg, cfg.draw(cfg.draw(gen, 6, cfg.width - 6).1, 6, cfg.height - 6).1, n - 1)
  }

  function JoinsAmong(messages: seq<Message>): nat {
    if messages == [] then 0 else (if messages[0].ClientJoin? then 1 else 0) + JoinsAmong(messages[1..])
  }

  /** Messages change nothing but the players, and draw two numbers for every join, a second one of the same
      client included. */
  lemma {:induction false} MessagesTouchPlayers(cfg: Config, g: Game, now: int, messages: seq<Message>)
    ensures var h := ApplyAll(cfg, g, now, messages).game;
      h == g.(players := h.players, gen := AfterPlaces(cfg, g.gen, JoinsAmong(messages)))
    decreases |messages|
  {
    if messages != [] {
      MessagesTouchPlayers(cfg, ApplyOne(cfg, g, now, messages[0]).game, now, messages[1..]);
    }
  }

  /** A tick has news for the clients exactly if somebody joins or leaves in it, whoever it is, or a snake is due. */
  lemma NewsExactlyWhen(cfg: Config, g: Game, now: int, messages: seq<Message>)
    ensures var a := ApplyAll(cfg, ReplaceFoodIn(cfg, g), now, messages).game;
      Tick(cfg, g, now, messages).changed <==>
        || (exists i :: 0 <= i < |messages| && (messages[i].ClientJoin? || messages[i].ClientDisconnect?))
        || (exists id :: id in a.players.m && now >= a.players.m[id].nextMoveTime)
  {
    MessageNews(cfg, ReplaceFoodIn(cfg, g), now, messages);
    DueSomewhere(ApplyAll(cfg, ReplaceFoodIn(cfg, g), now, messages).game, now);
  }

  lemma DueSomewhere(a: Game, now: int)
    ensures AnyDue(a, now) <==> exists id :: id in a.players.m && now >= a.players.m[id].nextMoveTime
  {
    if AnyDue(a, now) {
      var id :| id in a.players.m && Due(a.players.m[id], now);
    }
    if id :| id in a.players.m && now >= a.players.m[id].nextMoveTime {
      assert Due(a.players.m[id], now);
    }
  }

  lemma {:induction false} MessageNews(cfg: Config, g: Game, now: int, messages: seq<Message>)
    ensures ApplyAll(cfg, g, now, messages).changed <==>
      exists i :: 0 <= i < |messages| && (messages[i].ClientJoin? || messages[i].ClientDisconnect?)
    decreases |messages|
  {
    if messages != [] {
      var later := messages[1..];
      MessageNews(cfg, ApplyOne(cfg, g, now, messages[0]).game, now, later);
      assert ApplyOne(cfg, g, now, messages[0]).changed <==> messages[0].ClientJoin? || messages[0].ClientDisconnect?;
      if i :| 0 <= i < |later| && (later[i].ClientJoin? || later[i].ClientDisconnect?) {
        assert messages[i + 1] == later[i];
      }
      if i :| 0 <= i < |messages| && (messages[i].ClientJoin? || messages[i].ClientDisconnect?) {
        if i > 0 { assert later[i - 1] == messages[i]; }
      }
    }
  }

  /** The record of the i-th message is behind the records of those before it, at the tick's time, and a join's
      is followed by the welcome to that client. */
  lemma {:induction false} MessageRecords(cfg: Config, g: Game, now: int, messages: seq<Message>, i: nat)
    requires i < |messages|
    ensures var records, k := ApplyAll(cfg, g, now, messages).records, i + JoinsAmong(messages[..i]);
      && |records| == |messages| + JoinsAmong(messages) && k < |records|
      && records[k] == messages[i].(hdr := messages[i].hdr.(sequence := 0, transactTime := now))
      && (messages[i].ClientJoin? ==>
            k + 1 < |records| && records[k + 1] == ServerWelcome(Header(3, messages[i].hdr.clientId, 0, now)))
    decreases i
  {
    RecordsAre(cfg, g, now, messages);
    PlaceIs(messages, i, messages[..i]);
    RecordAt(messages, now, i, Place(messages, i));
  }

  /** The records of some messages, apart from the game. */
  function RecordsFor(messages: seq<Message>, now: int): (r: seq<Message>)
    ensures |r| == |messages| + JoinsAmong(messages)
  {
    if messages == [] then []
    else
      var m := messages[0];
      [m.(hdr := m.hdr.(sequence := 0, transactTime := now))]
      + (if m.ClientJoin? then [ServerWelcome(Header(3, m.hdr.clientId, 0, now))] else [])
      + RecordsFor(messages[1..], now)
  }

  lemma {:induction false} RecordsAre(cfg: Config, g: Game, now: int, messages: seq<Message>)
    ensures ApplyAll(cfg, g, now, messages).records == RecordsFor(messages, now)
    decreases |messages|
  {
    if messages != [] {
      RecordsOf(cfg, g, now, messages[0]);
      RecordsAre(cfg, ApplyOne(cfg, g, now, messages[0]).game, now, messages[1..]);
    }
  }

  /** Where the record of the i-th message is. */
  function Place(messages: seq<Message>, i: nat): nat
    requires i <= |messages|
    decreases i
  {
    if i == 0 then 0 else (if messages[0].ClientJoin? then 2 else 1) + Place(messages[1..], i - 1)
  }

  lemma {:induction false} PlaceIs(messages: seq<Message>, i: nat, earlier: seq<Message>)
    requires i <= |messages| && earlier == messages[..i]
    ensures Place(messages, i) == i + JoinsAmong(earlier)
    decreases i
  {
    if i > 0 {
      var later := messages[1..];
      PlaceIs(later, i - 1, later[..i - 1]);
      assert earlier[0] == messages[0] && earlier[1..] == later[..i - 1];
    }
  }

  lemma Behind<T>(a: seq<T>, b: seq<T>, k: nat)
    requires k < |b|
    ensures |a| + k < |a + b| && (a + b)[|a| + k] == b[k]
  {
  }

  lemma {:induction false} RecordAt(messages: seq<Message>, now: int, i: nat, k: nat)
    requires i < |messages| && k == Place(messages, i)
    ensures var records := RecordsFor(messages, now);
      && k < |records| && records[k] == messages[i].(hdr := messages[i].hdr.(sequence := 0, transactTime := now))
      && (messages[i].ClientJoin? ==>
            k + 1 < |records| && records[k + 1] == ServerWelcome(Header(3, messages[i].hdr.clientId, 0, now)))
    decreases i
  {
    if i > 0 {
      var m, rest := messages[0], RecordsFor(messages[1..], now);
      var front := [m.(hdr := m.hdr.(sequence := 0, transactTime := now))]
        + if m.ClientJoin? then [ServerWelcome(Header(3, m.hdr.clientId, 0, now))] else [];
      var j := Place(messages[1..], i - 1);
      RecordAt(messages[1..], now, i - 1, j);
      Behind(front, rest, j);
      if messages[i].ClientJoin? { Behind(front, rest, j + 1); }
    }
  }
}
