/**
 Deterministic replay. The log keeps only ticks that produced a record. Feeding its batches to a fresh
 engine runs a different sequence of ticks: silent ticks are gone, and logged ticks of equal time are
 one tick. The theorem at the end says exactly when the log still comes out the same.
 */
module Replay {
  import opened Sequences
  import opened LittleEndian
  import opened Tables
  import opened Protocol
  import opened Batching
  import opened Chains
  import opened Engine

  // ---------- what the replaying engine is fed ----------

  /** Records of these two types are the server's own output and are not fed back. */
  predicate Kept(m: Message) {
    !m.ServerWelcome? && !m.GameState?
  }

  function KeptOnly(messages: seq<Message>): seq<Message> {
    if messages == [] then []
    else (if Kept(messages[0]) then [messages[0]] else []) + KeptOnly(messages[1..])
  }

  function ReplayBatches(batches: seq<Batch>): seq<Poll> {
    if batches == [] then []
    else [Poll(BatchTime(batches[0]), KeptOnly(batches[0]))] + ReplayBatches(batches[1..])
  }

  /** The polls of a replaying engine whose log reader holds these records. */
  function ReplayPolls(log: seq<Message>): seq<Poll> {
    ReplayBatches(GroupByTime(log))
  }

  /** The same polls with nothing in them that a replay would not be fed. */
  function Strip(polls: seq<Poll>): seq<Poll> {
    if polls == [] then [] else [Poll(polls[0].at, KeptOnly(polls[0].messages))] + Strip(polls[1..])
  }

  function Dropped(messages: seq<Message>): nat {
    if messages == [] then 0 else (if Kept(messages[0]) then 0 else 1) + Dropped(messages[1..])
  }

  /** How many inbound messages a replay would not be fed. */
  function Injected(polls: seq<Poll>): nat {
    if polls == [] then 0 else Dropped(polls[0].messages) + Injected(polls[1..])
  }

  predicate Ordered(polls: seq<Poll>) {
    forall i :: 1 <= i < |polls| ==> polls[i - 1].at <= polls[i].at
  }

  /** After a tick that told the clients, nothing more is logged with that tick's time. */
  ghost predicate Separated(cfg: Config, g: Game, polls: seq<Poll>)
    decreases |polls|
  {
    polls == [] ||
    var t := Tick(cfg, g, polls[0].at, polls[0].messages);
    && (t.changed ==> forall r :: r in Run(cfg, t.game, polls[1..]).1 ==> TimeOf(r) != polls[0].at)
    && Separated(cfg, t.game, polls[1..])
  }

  // ---------- a silent tick is absorbed by the next tick ----------

  /** What a silent tick does: pending food is placed and boosts that ran out are taken back. */
  ghost function Silent(cfg: Config, g: Game, now: int): Game {
    ExpireAll(cfg, ReplaceFoodIn(cfg, g), now)
  }

  function ExpirePlayers(cfg: Config, t: Players, now: int): (r: Players)
    ensures r.keys == t.keys && r.m.Keys == t.m.Keys
    ensures forall id :: id in t.m ==> r.m[id] == Expire(cfg, t.m[id], now)
  {
    WithValues(t, map id | id in t.m :: Expire(cfg, t.m[id], now))
  }

  function ExpireAll(cfg: Config, g: Game, now: int): Game {
    g.(players := ExpirePlayers(cfg, g.players, now))
  }

  lemma ExpirePut(cfg: Config, t: Players, id: Int32, p: Player, now: int)
    ensures ExpirePlayers(cfg, Put(t, id, p), now) == Put(ExpirePlayers(cfg, t, now), id, Expire(cfg, p, now))
  {
    var l, r := ExpirePlayers(cfg, Put(t, id, p), now), Put(ExpirePlayers(cfg, t, now), id, Expire(cfg, p, now));
    assert l.m.Keys == r.m.Keys;
    forall k | k in l.m ensures l.m[k] == r.m[k] {}
  }

  lemma ExpireErase(cfg: Config, t: Players, id: Int32, now: int)
    ensures ExpirePlayers(cfg, Erase(t, id), now) == Erase(ExpirePlayers(cfg, t, now), id)
  {
    assert ExpirePlayers(cfg, Erase(t, id), now).m == Erase(ExpirePlayers(cfg, t, now), id).m;
  }

  lemma SilentTick(cfg: Config, g: Game, now: int)
    requires !Tick(cfg, g, now, []).changed
    ensures Tick(cfg, g, now, []) == Outcome(Silent(cfg, g, now), [], false)
  {
    QuietAdvance(cfg, ReplaceFoodIn(cfg, g), now);
  }

  lemma QuietAdvance(cfg: Config, g: Game, now: int)
    requires !AnyDue(g, now)
    ensures Advance(cfg, g, now) == ExpireAll(cfg, g, now)
  {
    forall id | id in g.players.m
      ensures StepPlayer(cfg, g.players.m[id], now) == Expire(cfg, g.players.m[id], now)
    {
      assert !Due(g.players.m[id], now);
    }
    assert UpdateSnakes(cfg, g, now).players.m == ExpireAll(cfg, g, now).players.m;
  }

  lemma StepExpired(cfg: Config, p: Player, early: int, now: int)
    requires early <= now
    ensures StepPlayer(cfg, Expire(cfg, p, early), now) == StepPlayer(cfg, p, now)
    ensures Due(Expire(cfg, p, early), now) == Due(p, now)
  {
  }

  lemma DueExpired(cfg: Config, g: Game, early: int, now: int)
    requires early <= now
    ensures AnyDue(ExpireAll(cfg, g, early), now) <==> AnyDue(g, now)
  {
    var h := ExpireAll(cfg, g, early);
    forall id | id in g.players.m ensures Due(h.players.m[id], now) == Due(g.players.m[id], now) {
      StepExpired(cfg, g.players.m[id], early, now);
    }
  }

  lemma UpdateExpired(cfg: Config, g: Game, early: int, now: int)
    requires early <= now
    ensures UpdateSnakes(cfg, ExpireAll(cfg, g, early), now) == UpdateSnakes(cfg, g, now)
  {
    var h := ExpireAll(cfg, g, early);
    var a, b := UpdateSnakes(cfg, h, now).players.m, UpdateSnakes(cfg, g, now).players.m;
    assert a.Keys == b.Keys;
    forall id | id in a ensures a[id] == b[id] {
      StepExpired(cfg, g.players.m[id], early, now);
    }
    assert a == b;
  }

  lemma AdvanceAbsorbs(cfg: Config, g: Game, early: int, now: int)
    requires early <= now
    ensures Advance(cfg, ExpireAll(cfg, g, early), now) == Advance(cfg, g, now)
  {
    UpdateExpired(cfg, g, early, now);
    DueExpired(cfg, g, early, now);
  }

  lemma TurnExpired(cfg: Config, p: Player, early: int, input: char)
    ensures Turn(Expire(cfg, p, early), input) == Expire(cfg, Turn(p, input), early)
  {
  }

  lemma SpawnUnexpired(cfg: Config, id: Int32, name: Bytes, at: Pos, early: int, now: int)
    ensures var p := SpawnPlayer(cfg, id, name, at, now); Expire(cfg, p, early) == p
  {
  }

  lemma AddExpired(cfg: Config, t: Players, id: Int32, p: Player, early: int)
    requires Expire(cfg, p, early) == p
    ensures AddPlayer(ExpirePlayers(cfg, t, early), id, p) == ExpirePlayers(cfg, AddPlayer(t, id, p), early)
  {
    ExpirePut(cfg, t, id, p, early);
  }

  lemma JoinExpired(cfg: Config, g: Game, early: int, now: int, id: Int32, name: Bytes)
    ensures CreateNewPlayer(cfg, ExpireAll(cfg, g, early), now, id, name)
            == ExpireAll(cfg, CreateNewPlayer(cfg, g, now, id, name), early)
  {
    var (cell, _) := SpawnCell(cfg, g.gen);
    SpawnUnexpired(cfg, id, name, cell, early, now);
    AddExpired(cfg, g.players, id, SpawnPlayer(cfg, id, name, cell, now), early);
  }

  lemma InputExpired(cfg: Config, g: Game, early: int, id: Int32, input: char)
    requires Has(g.players, id)
    ensures Put(ExpirePlayers(cfg, g.players, early), id, Turn(ExpirePlayers(cfg, g.players, early).m[id], input))
            == ExpirePlayers(cfg, Put(g.players, id, Turn(g.players.m[id], input)), early)
  {
    TurnExpired(cfg, g.players.m[id], early, input);
    ExpirePut(cfg, g.players, id, Turn(g.players.m[id], input), early);
  }

  /** Expiring boosts before a message or after it is the same. */
  lemma ApplyOneExpired(cfg: Config, g: Game, early: int, now: int, m: Message)
    ensures var a := ApplyOne(cfg, g, now, m);
      ApplyOne(cfg, ExpireAll(cfg, g, early), now, m) == a.(game := ExpireAll(cfg, a.game, early))
  {
    var id := m.hdr.clientId;
    if m.ClientJoin? {
      JoinExpired(cfg, g, early, now, id, m.username);
    } else if m.ClientInput? && Has(g.players, id) {
      InputExpired(cfg, g, early, id, m.input);
    } else if m.ClientDisconnect? {
      ExpireErase(cfg, g.players, id, early);
    }
  }

  lemma {:induction false} ApplyAllExpired(cfg: Config, g: Game, early: int, now: int, messages: seq<Message>)
    ensures var a := ApplyAll(cfg, g, now, messages);
      ApplyAll(cfg, ExpireAll(cfg, g, early), now, messages) == a.(game := ExpireAll(cfg, a.game, early))
    decreases |messages|
  {
    if messages != [] {
      ApplyOneExpired(cfg, g, early, now, messages[0]);
      ApplyAllExpired(cfg, ApplyOne(cfg, g, now, messages[0]).game, early, now, messages[1..]);
    }
  }

  lemma ReplaceFoodSettled(cfg: Config, g: Game, early: int)
    requires Fair(cfg)
    ensures ReplaceFoodIn(cfg, Silent(cfg, g, early)) == Silent(cfg, g, early)
  {
    ReplaceFoodFills(cfg, g.food, g.gen);
    var h := Silent(cfg, g, early);
    EnoughFood(cfg, h.food, h.gen);
  }

  lemma FinishAbsorbs(cfg: Config, a: Outcome, early: int, now: int)
    requires early <= now
    ensures Finish(cfg, a.(game := ExpireAll(cfg, a.game, early)), now) == Finish(cfg, a, now)
  {
    AdvanceAbsorbs(cfg, a.game, early, now);
    DueExpired(cfg, a.game, early, now);
  }

  lemma FinishAfter(cfg: Config, done: seq<Message>, a: Outcome, now: int)
    ensures Finish(cfg, a.(records := done + a.records), now)
            == Finish(cfg, a, now).(records := done + Finish(cfg, a, now).records)
  {
    var told := Finish(cfg, a, now).records[|a.records|..];
    assert done + (a.records + told) == (done + a.records) + told;
  }

  /** Silent ticks can be dropped: a later tick does the same with and without one before it, down to
      the state of the random source. */
  lemma SilentAbsorbed(cfg: Config, g: Game, early: int, now: int, messages: seq<Message>)
    requires Fair(cfg) && early <= now
    ensures Tick(cfg, Silent(cfg, g, early), now, messages) == Tick(cfg, g, now, messages)
  {
    var f := ReplaceFoodIn(cfg, g);
    ReplaceFoodSettled(cfg, g, early);
    ApplyAllExpired(cfg, f, early, now, messages);
    FinishAbsorbs(cfg, ApplyAll(cfg, f, now, messages), early, now);
  }

  // ---------- two ticks of one time ----------

  lemma ThenAssociates(a: Outcome, b: Outcome, c: Outcome)
    ensures Then(a, Then(b, c)) == Then(Then(a, b), c)
  {
    assert a.records + (b.records + c.records) == (a.records + b.records) + c.records;
  }

  lemma {:induction false} ApplyAllConcat(cfg: Config, g: Game, now: int, a: seq<Message>, b: seq<Message>)
    ensures var x := ApplyAll(cfg, g, now, a);
      ApplyAll(cfg, g, now, a + b) == Then(x, ApplyAll(cfg, x.game, now, b))
    decreases |a|
  {
    if a == [] {
      assert a + b == b;
      assert [] + ApplyAll(cfg, g, now, b).records == ApplyAll(cfg, g, now, b).records;
    } else {
      var f := ApplyOne(cfg, g, now, a[0]);
      var x := ApplyAll(cfg, f.game, now, a[1..]);
      ApplyAllConcat(cfg, f.game, now, a[1..], b);
      assert (a + b)[1..] == a[1..] + b;
      ThenAssociates(f, x, ApplyAll(cfg, x.game, now, b));
    }
  }

  /** Messages that change nothing at once leave the food alone. */
  lemma {:induction false} UnchangedFood(cfg: Config, g: Game, now: int, messages: seq<Message>)
    requires !ApplyAll(cfg, g, now, messages).changed
    ensures ApplyAll(cfg, g, now, messages).game.food == g.food
    decreases |messages|
  {
    if messages != [] {
      UnchangedFood(cfg, ApplyOne(cfg, g, now, messages[0]).game, now, messages[1..]);
    }
  }

  /** What a tick amounts to when it told nobody anything. */
  lemma UntoldTick(cfg: Config, g: Game, now: int, messages: seq<Message>)
    requires Fair(cfg)
    requires !Tick(cfg, g, now, messages).changed
    ensures var x := ApplyAll(cfg, ReplaceFoodIn(cfg, g), now, messages);
      && !x.changed && !AnyDue(x.game, now)
      && Tick(cfg, g, now, messages) == Outcome(ExpireAll(cfg, x.game, now), x.records, false)
      && ReplaceFoodIn(cfg, ExpireAll(cfg, x.game, now)) == ExpireAll(cfg, x.game, now)
  {
    var f := ReplaceFoodIn(cfg, g);
    var x := ApplyAll(cfg, f, now, messages);
    QuietAdvance(cfg, x.game, now);
    UnchangedFood(cfg, f, now, messages);
    ReplaceFoodFills(cfg, g.food, g.gen);
    EnoughFood(cfg, x.game.food, x.game.gen);
    assert x.records + [] == x.records;
  }

  /** A tick that told nobody anything, and a second tick of the same time, are one tick. */
  lemma TicksMerge(cfg: Config, g: Game, now: int, a: seq<Message>, b: seq<Message>)
    requires Fair(cfg)
    requires !Tick(cfg, g, now, a).changed
    ensures var s := Tick(cfg, g, now, a);
      var t := Tick(cfg, s.game, now, b);
      Tick(cfg, g, now, a + b) == Outcome(t.game, s.records + t.records, t.changed)
  {
    UntoldTick(cfg, g, now, a);
    var x := ApplyAll(cfg, ReplaceFoodIn(cfg, g), now, a);
    ApplyAllConcat(cfg, ReplaceFoodIn(cfg, g), now, a, b);
    ApplyAllExpired(cfg, x.game, now, now, b);
    var y := ApplyAll(cfg, x.game, now, b);
    FinishAbsorbs(cfg, y, now, now);
    FinishAfter(cfg, x.records, y, now);
  }

  // ---------- what a replay is fed of one tick ----------

  function StampAll(messages: seq<Message>, now: int): seq<Message> {
    if messages == [] then [] else [Stamp(messages[0], now)] + StampAll(messages[1..], now)
  }

  lemma {:induction false} KeptOnlyConcat(a: seq<Message>, b: seq<Message>)
    ensures KeptOnly(a + b) == KeptOnly(a) + KeptOnly(b)
  {
    if a == [] {
      assert a + b == b;
    } else {
      assert (a + b)[1..] == a[1..] + b && (a + b)[0] == a[0];
      KeptOnlyConcat(a[1..], b);
      var first := if Kept(a[0]) then [a[0]] else [];
      var more, rest := KeptOnly(a[1..]), KeptOnly(b);
      assert KeptOnly(a + b) == first + (more + rest) && KeptOnly(a) == first + more;
      assert first + (more + rest) == (first + more) + rest;
    }
  }

  lemma KeptOnlyHead(messages: seq<Message>)
    requires messages != []
    ensures Kept(messages[0]) ==>
      && KeptOnly(messages) == [messages[0]] + KeptOnly(messages[1..])
      && KeptOnly(messages)[1..] == KeptOnly(messages[1..])
    ensures !Kept(messages[0]) ==> KeptOnly(messages) == KeptOnly(messages[1..])
  {
  }

  lemma StampIgnored(cfg: Config, g: Game, now: int, m: Message, at: int)
    ensures ApplyOne(cfg, g, now, Stamp(m, at)) == ApplyOne(cfg, g, now, m)
    ensures Kept(Stamp(m, at)) == Kept(m)
  {
  }

  /** The engine does not look at the sequence number or the transact time a message comes with. */
  lemma {:induction false} StampsIgnored(cfg: Config, g: Game, now: int, messages: seq<Message>, at: int)
    ensures ApplyAll(cfg, g, now, StampAll(messages, at)) == ApplyAll(cfg, g, now, messages)
    decreases |messages|
  {
    if messages != [] {
      StampIgnored(cfg, g, now, messages[0], at);
      StampsIgnored(cfg, ApplyOne(cfg, g, now, messages[0]).game, now, messages[1..], at);
      assert StampAll(messages, at)[1..] == StampAll(messages[1..], at);
    }
  }

  lemma OneKept(cfg: Config, g: Game, now: int, m: Message)
    ensures var a := ApplyOne(cfg, g, now, m);
      && KeptOnly(a.records) == (if Kept(m) then [Stamp(m, now)] else [])
      && (!Kept(m) ==> a.game == g && !a.changed && |a.records| == 1)
  {
    var a := ApplyOne(cfg, g, now, m);
    assert a.records[0] == Stamp(m, now);
    assert KeptOnly([]) == [];
    if m.ClientJoin? {
      assert a.records[1..] == [Welcome(m.hdr.clientId, now)];
      assert KeptOnly([Welcome(m.hdr.clientId, now)]) == [];
    } else {
      assert a.records[1..] == [];
    }
  }

  /** Of the records of some messages, a replay is fed exactly those messages that are kept. */
  lemma {:induction false} RecordsKept(cfg: Config, g: Game, now: int, messages: seq<Message>)
    ensures KeptOnly(ApplyAll(cfg, g, now, messages).records) == StampAll(KeptOnly(messages), now)
    decreases |messages|
  {
    if messages != [] {
      var a := ApplyOne(cfg, g, now, messages[0]);
      OneKept(cfg, g, now, messages[0]);
      RecordsKept(cfg, a.game, now, messages[1..]);
      KeptOnlyConcat(a.records, ApplyAll(cfg, a.game, now, messages[1..]).records);
      KeptOnlyHead(messages);
    }
  }

  /** Messages that are not kept change nothing but the log, by one record each. */
  lemma {:induction false} KeptSuffice(cfg: Config, g: Game, now: int, messages: seq<Message>)
    ensures var a, b := ApplyAll(cfg, g, now, messages), ApplyAll(cfg, g, now, KeptOnly(messages));
      a.game == b.game && a.changed == b.changed && |a.records| == |b.records| + Dropped(messages)
    decreases |messages|
  {
    if messages != [] {
      var a := ApplyOne(cfg, g, now, messages[0]);
      OneKept(cfg, g, now, messages[0]);
      KeptSuffice(cfg, a.game, now, messages[1..]);
      KeptOnlyHead(messages);
    }
  }

  lemma TickKept(cfg: Config, g: Game, now: int, messages: seq<Message>)
    ensures var t, u := Tick(cfg, g, now, messages), Tick(cfg, g, now, KeptOnly(messages));
      && t.game == u.game && t.changed == u.changed && |t.records| == |u.records| + Dropped(messages)
      && Tick(cfg, g, now, KeptOnly(t.records)) == u
  {
    var f := ReplaceFoodIn(cfg, g);
    var a := ApplyAll(cfg, f, now, messages);
    KeptSuffice(cfg, f, now, messages);
    RecordsKept(cfg, f, now, messages);
    StampsIgnored(cfg, f, now, KeptOnly(messages), now);
    var t := Tick(cfg, g, now, messages);
    var told := t.records[|a.records|..];
    KeptOnlyConcat(a.records, told);
    if told != [] {
      assert told == [BuildGameState(t.game, now)] && told[1..] == [];
    }
    assert KeptOnly(told) == [];
    assert KeptOnly(t.records) == StampAll(KeptOnly(messages), now);
  }

  // ---------- times ----------

  predicate AllAt(records: seq<Message>, now: int) {
    forall m :: m in records ==> TimeOf(m) == now
  }

  lemma {:induction false} RecordTimes(cfg: Config, g: Game, now: int, messages: seq<Message>)
    ensures AllAt(ApplyAll(cfg, g, now, messages).records, now)
    decreases |messages|
  {
    if messages != [] {
      var a := ApplyOne(cfg, g, now, messages[0]);
      assert AllAt(a.records, now);
      RecordTimes(cfg, a.game, now, messages[1..]);
    }
  }

  lemma TickTimes(cfg: Config, g: Game, now: int, messages: seq<Message>)
    ensures AllAt(Tick(cfg, g, now, messages).records, now)
  {
    RecordTimes(cfg, ReplaceFoodIn(cfg, g), now, messages);
  }

  predicate AllFrom(records: seq<Message>, t: int) {
    forall m :: m in records ==> TimeOf(m) >= t
  }

  lemma TimesConcat(a: seq<Message>, b: seq<Message>, t: int)
    requires AllAt(a, t) && NondecreasingTimes(b) && AllFrom(b, t)
    ensures NondecreasingTimes(a + b) && AllFrom(a + b, t)
  {
    var all, n := a + b, |a|;
    forall i | 1 <= i < |all| ensures TimeOf(all[i - 1]) <= TimeOf(all[i]) {
      if i < n {
        assert all[i - 1] in a && all[i] in a;
      } else if i == n {
        assert all[i - 1] in a && all[i] in b;
      } else {
        assert all[i - 1] == b[i - n - 1] && all[i] == b[i - n];
      }
    }
  }

  lemma RunCons(cfg: Config, g: Game, polls: seq<Poll>)
    requires polls != []
    ensures var t := Tick(cfg, g, polls[0].at, polls[0].messages);
      Run(cfg, g, polls) == (Run(cfg, t.game, polls[1..]).0, t.records + Run(cfg, t.game, polls[1..]).1)
  {
  }

  /** Transact times never decrease, and never fall below the first tick's. */
  lemma {:induction false} RunTimes(cfg: Config, g: Game, polls: seq<Poll>)
    requires Ordered(polls)
    ensures NondecreasingTimes(Run(cfg, g, polls).1)
    ensures polls != [] ==> AllFrom(Run(cfg, g, polls).1, polls[0].at)
    decreases |polls|
  {
    if polls != [] {
      var t := Tick(cfg, g, polls[0].at, polls[0].messages);
      TickTimes(cfg, g, polls[0].at, polls[0].messages);
      RunTimes(cfg, t.game, polls[1..]);
      RunCons(cfg, g, polls);
      TimesConcat(t.records, Run(cfg, t.game, polls[1..]).1, polls[0].at);
    }
  }

  // ---------- the replay of a run ----------

  /** The game after the last tick that logged anything. */
  ghost function Settled(cfg: Config, g: Game, polls: seq<Poll>): Game
    decreases |polls|
  {
    if Run(cfg, g, polls).1 == [] then g
    else
      var t := Tick(cfg, g, polls[0].at, polls[0].messages);
      if Run(cfg, t.game, polls[1..]).1 == [] then t.game else Settled(cfg, t.game, polls[1..])
  }

  /** Putting one tick's records in front of a log puts one poll in front of the replay's polls, or
      joins the first poll if that has the same time. */
  lemma ReplayPrepend(records: Batch, log: seq<Message>, now: int)
    requires AllAt(records, now)
    ensures log != [] ==> ReplayPolls(log) != [] && ReplayPolls(log)[0].at == TimeOf(log[0])
    ensures var later := ReplayPolls(log);
      ReplayPolls(records + log) ==
        if log != [] && TimeOf(log[0]) == now then [Poll(now, KeptOnly(records) + later[0].messages)] + later[1..]
        else [Poll(now, KeptOnly(records))] + later
  {
    assert records[0] in records;
    GroupPrepend(records, log);
    var groups := GroupByTime(log);
    if log != [] && TimeOf(log[0]) == now {
      KeptOnlyConcat(records, groups[0]);
      var b: Batch := records + groups[0];
      assert ([b] + groups[1..])[1..] == groups[1..];
    } else {
      assert ([records] + groups)[1..] == groups;
    }
  }

  lemma SilentRun(cfg: Config, g: Game, early: int, polls: seq<Poll>)
    requires Fair(cfg)
    requires polls != [] ==> early <= polls[0].at
    ensures Run(cfg, Silent(cfg, g, early), polls).1 == Run(cfg, g, polls).1
    ensures polls != [] ==> Run(cfg, Silent(cfg, g, early), polls).0 == Run(cfg, g, polls).0
  {
    if polls != [] {
      SilentAbsorbed(cfg, g, early, polls[0].at, polls[0].messages);
    }
  }

  /** A tick with no messages and no snake that is due. */
  ghost predicate Quiet(g: Game, p: Poll) {
    p.messages == [] && !AnyDue(g, p.at)
  }

  /** The polls of a run without those of its quiet ticks. */
  ghost function Loud(cfg: Config, g: Game, polls: seq<Poll>): seq<Poll>
    decreases |polls|
  {
    if polls == [] then []
    else
      var later := Loud(cfg, Tick(cfg, g, polls[0].at, polls[0].messages).game, polls[1..]);
      if Quiet(g, polls[0]) then later else [polls[0]] + later
  }

  lemma {:induction false} LoudStartsLater(cfg: Config, g: Game, polls: seq<Poll>)
    requires Ordered(polls)
    ensures Loud(cfg, g, polls) != [] ==> Loud(cfg, g, polls)[0].at >= polls[0].at
    decreases |polls|
  {
    if polls != [] {
      LoudStartsLater(cfg, Tick(cfg, g, polls[0].at, polls[0].messages).game, polls[1..]);
    }
  }

  lemma QuietTick(cfg: Config, g: Game, p: Poll)
    requires Quiet(g, p)
    ensures Tick(cfg, g, p.at, p.messages) == Outcome(Silent(cfg, g, p.at), [], false)
  {
    QuietAdvance(cfg, ReplaceFoodIn(cfg, g), p.at);
  }

  lemma NothingInFront(a: seq<Message>)
    ensures a == [] + a
  {
  }

  lemma QuietHead(cfg: Config, g: Game, p: Poll, later: seq<Poll>)
    requires Fair(cfg) && (later != [] ==> p.at <= later[0].at) && Quiet(g, p)
    ensures var t := Tick(cfg, g, p.at, p.messages);
      Run(cfg, g, later).1 == t.records + Run(cfg, t.game, later).1
  {
    QuietTick(cfg, g, p);
    SilentRun(cfg, g, p.at, later);
    NothingInFront(Run(cfg, Silent(cfg, g, p.at), later).1);
  }

  /** The records of a first tick in front of the others, whether it is quiet or not. */
  lemma LoudHead(cfg: Config, g: Game, p: Poll, later: seq<Poll>)
    requires Fair(cfg) && (later != [] ==> p.at <= later[0].at)
    ensures var t := Tick(cfg, g, p.at, p.messages);
      Run(cfg, g, if Quiet(g, p) then later else [p] + later).1 == t.records + Run(cfg, t.game, later).1
  {
    if Quiet(g, p) {
      QuietHead(cfg, g, p, later);
    } else {
      RunHead(cfg, g, p, later);
    }
  }

  lemma LoudCons(cfg: Config, g: Game, polls: seq<Poll>)
    requires Fair(cfg) && Ordered(polls) && polls != []
    ensures var t := Tick(cfg, g, polls[0].at, polls[0].messages);
      Run(cfg, g, Loud(cfg, g, polls)).1 == t.records + Run(cfg, t.game, Loud(cfg, t.game, polls[1..])).1
  {
    var t := Tick(cfg, g, polls[0].at, polls[0].messages);
    LoudStartsLater(cfg, t.game, polls[1..]);
    LoudHead(cfg, g, polls[0], Loud(cfg, t.game, polls[1..]));
  }

  /** Deleting every quiet tick from a run changes no record, although quiet ticks may place food, draw
      from the random source and end boosts. */
  lemma {:induction false} QuietTicksCanGo(cfg: Config, g: Game, polls: seq<Poll>)
    requires Fair(cfg) && Ordered(polls)
    ensures Run(cfg, g, Loud(cfg, g, polls)).1 == Run(cfg, g, polls).1
    decreases |polls|
  {
    if polls != [] {
      QuietTicksCanGo(cfg, Tick(cfg, g, polls[0].at, polls[0].messages).game, polls[1..]);
      LoudCons(cfg, g, polls);
      RunCons(cfg, g, polls);
    }
  }

  lemma TickLogs(cfg: Config, g: Game, now: int, messages: seq<Message>)
    ensures var t := Tick(cfg, g, now, messages);
      && (messages != [] || t.changed ==> t.records != [])
      && (t.changed ==> t.records[|t.records| - 1] == BuildGameState(t.game, now))
  {
    if messages != [] {
      assert |ApplyOne(cfg, ReplaceFoodIn(cfg, g), now, messages[0]).records| > 0;
    }
  }

  /** A tick that logs nothing is a silent one. */
  lemma NothingLogged(cfg: Config, g: Game, now: int, messages: seq<Message>)
    requires Tick(cfg, g, now, messages).records == []
    ensures messages == []
    ensures Tick(cfg, g, now, messages) == Outcome(Silent(cfg, g, now), [], false)
  {
    TickLogs(cfg, g, now, messages);
    SilentTick(cfg, g, now);
  }

  lemma RunHead(cfg: Config, g: Game, first: Poll, polls: seq<Poll>)
    ensures var t := Tick(cfg, g, first.at, first.messages);
      Run(cfg, g, [first] + polls) == (Run(cfg, t.game, polls).0, t.records + Run(cfg, t.game, polls).1)
  {
    assert ([first] + polls)[1..] == polls;
  }

  /** A run with one more poll at the end. */
  lemma {:induction false} RunNextPoll(cfg: Config, g: Game, polls: seq<Poll>, p: Poll)
    ensures var before := Run(cfg, g, polls);
      var t := Tick(cfg, before.0, p.at, p.messages);
      Run(cfg, g, polls + [p]) == (t.game, before.1 + t.records)
    decreases |polls|
  {
    if polls == [] {
      RunOnePoll(cfg, g, p);
      assert [] + [p] == [p];
    } else {
      var later := polls[1..];
      RunNextPoll(cfg, Tick(cfg, g, polls[0].at, polls[0].messages).game, later, p);
      RunBothHeads(cfg, g, polls[0], later, p);
      assert [polls[0]] + (later + [p]) == polls + [p] && [polls[0]] + later == polls;
    }
  }

  lemma RunOnePoll(cfg: Config, g: Game, p: Poll)
    ensures var t := Tick(cfg, g, p.at, p.messages);
      Run(cfg, g, [p]) == (t.game, Run(cfg, g, []).1 + t.records)
  {
    var t := Tick(cfg, g, p.at, p.messages);
    RunHead(cfg, g, p, []);
    assert [p] + [] == [p] && t.records + [] == t.records && [] + t.records == t.records;
  }

  /** The two runs of the step, with their first tick in front. */
  lemma RunBothHeads(cfg: Config, g: Game, first: Poll, later: seq<Poll>, p: Poll)
    ensures var t := Tick(cfg, g, first.at, first.messages);
      var middle := Run(cfg, t.game, later);
      var last := Tick(cfg, middle.0, p.at, p.messages);
      && Run(cfg, g, [first] + later) == (middle.0, t.records + middle.1)
      && (Run(cfg, t.game, later + [p]) == (last.game, middle.1 + last.records) ==>
            Run(cfg, g, [first] + (later + [p])) == (last.game, (t.records + middle.1) + last.records))
  {
    var t := Tick(cfg, g, first.at, first.messages);
    var middle := Run(cfg, t.game, later);
    RunHead(cfg, g, first, later + [p]);
    RunHead(cfg, g, first, later);
    Associate(t.records, middle.1, Tick(cfg, middle.0, p.at, p.messages).records);
  }

  /** The case of a first tick that logged nothing. */
  lemma ReplaySilent(cfg: Config, g: Game, now: int, log: seq<Message>)
    requires Fair(cfg) && AllFrom(log, now)
    ensures Run(cfg, g, ReplayPolls(log)).1 == Run(cfg, Silent(cfg, g, now), ReplayPolls(log)).1
    ensures log != [] ==> Run(cfg, g, ReplayPolls(log)).0 == Run(cfg, Silent(cfg, g, now), ReplayPolls(log)).0
  {
    if log != [] { assert log[0] in log; }
    SilentRun(cfg, g, now, ReplayPolls(log));
  }

  /** The case of a first tick whose records are followed by records of another time. */
  lemma ReplayApart(cfg: Config, g: Game, now: int, messages: seq<Message>, log: seq<Message>)
    requires Tick(cfg, g, now, messages).records != []
    requires log != [] ==> TimeOf(log[0]) != now
    ensures var t, u := Tick(cfg, g, now, messages), Tick(cfg, g, now, KeptOnly(messages));
      var later := Run(cfg, t.game, ReplayPolls(log));
      Run(cfg, g, ReplayPolls(t.records + log)) == (later.0, u.records + later.1)
  {
    var t := Tick(cfg, g, now, messages);
    TickTimes(cfg, g, now, messages);
    TickKept(cfg, g, now, messages);
    ReplayPrepend(t.records, log, now);
    RunHead(cfg, g, Poll(now, KeptOnly(t.records)), ReplayPolls(log));
  }

  lemma MergedHead(cfg: Config, g: Game, now: int, a: seq<Message>, b: seq<Message>, more: seq<Poll>)
    requires Fair(cfg) && !Tick(cfg, g, now, a).changed
    ensures var u := Tick(cfg, g, now, a);
      var later := Run(cfg, u.game, [Poll(now, b)] + more);
      Run(cfg, g, [Poll(now, a + b)] + more) == (later.0, u.records + later.1)
  {
    var u := Tick(cfg, g, now, a);
    var v := Tick(cfg, u.game, now, b);
    TicksMerge(cfg, g, now, a, b);
    RunHead(cfg, g, Poll(now, a + b), more);
    RunHead(cfg, u.game, Poll(now, b), more);
    Associate(u.records, v.records, Run(cfg, v.game, more).1);
  }

  /** The case of a first tick whose records share their time with the records after them. */
  lemma ReplayTogether(cfg: Config, g: Game, now: int, messages: seq<Message>, log: seq<Message>)
    requires Fair(cfg)
    requires Tick(cfg, g, now, messages).records != [] && !Tick(cfg, g, now, messages).changed
    requires log != [] && TimeOf(log[0]) == now
    ensures var t, u := Tick(cfg, g, now, messages), Tick(cfg, g, now, KeptOnly(messages));
      var later := Run(cfg, t.game, ReplayPolls(log));
      Run(cfg, g, ReplayPolls(t.records + log)) == (later.0, u.records + later.1)
  {
    var t := Tick(cfg, g, now, messages);
    TickTimes(cfg, g, now, messages);
    TickKept(cfg, g, now, messages);
    ReplayPrepend(t.records, log, now);
    var polls := ReplayPolls(log);
    assert polls == [Poll(now, polls[0].messages)] + polls[1..];
    MergedHead(cfg, g, now, KeptOnly(t.records), polls[0].messages, polls[1..]);
  }

  /** One tick in front of a log, replayed. */
  lemma ReplayStep(cfg: Config, g: Game, now: int, messages: seq<Message>, log: seq<Message>)
    requires Fair(cfg) && AllFrom(log, now)
    requires Tick(cfg, g, now, messages).changed ==> forall r :: r in log ==> TimeOf(r) != now
    ensures var t, u := Tick(cfg, g, now, messages), Tick(cfg, g, now, KeptOnly(messages));
      var later := Run(cfg, t.game, ReplayPolls(log));
      Run(cfg, g, ReplayPolls(t.records + log)) ==
        (if t.records == [] && log == [] then g else later.0, u.records + later.1)
  {
    var t := Tick(cfg, g, now, messages);
    if t.records == [] {
      NothingLogged(cfg, g, now, messages);
      ReplaySilent(cfg, g, now, log);
      assert [] + log == log;
      assert [] + Run(cfg, t.game, ReplayPolls(log)).1 == Run(cfg, t.game, ReplayPolls(log)).1;
    } else if log == [] || TimeOf(log[0]) != now {
      ReplayApart(cfg, g, now, messages, log);
    } else {
      assert log[0] in log;
      ReplayTogether(cfg, g, now, messages, log);
    }
  }

  lemma StripCons(polls: seq<Poll>)
    requires polls != []
    ensures Strip(polls) == [Poll(polls[0].at, KeptOnly(polls[0].messages))] + Strip(polls[1..])
  {
  }

  lemma LaterAllFrom(cfg: Config, g: Game, polls: seq<Poll>)
    requires Ordered(polls) && polls != []
    ensures AllFrom(Run(cfg, Tick(cfg, g, polls[0].at, polls[0].messages).game, polls[1..]).1, polls[0].at)
  {
    RunTimes(cfg, Tick(cfg, g, polls[0].at, polls[0].messages).game, polls[1..]);
  }

  /** The run of the stripped polls, tick after tick: the same games, fewer records. */
  lemma StrippedCons(cfg: Config, g: Game, polls: seq<Poll>)
    requires polls != []
    ensures var now, messages := polls[0].at, polls[0].messages;
      Run(cfg, g, Strip(polls)).1 == Tick(cfg, g, now, KeptOnly(messages)).records
        + Run(cfg, Tick(cfg, g, now, messages).game, Strip(polls[1..])).1
  {
    var now, messages := polls[0].at, polls[0].messages;
    TickKept(cfg, g, now, messages);
    StripCons(polls);
    RunHead(cfg, g, Poll(now, KeptOnly(messages)), Strip(polls[1..]));
  }

  lemma SettledCons(cfg: Config, g: Game, polls: seq<Poll>)
    requires polls != []
    ensures var t := Tick(cfg, g, polls[0].at, polls[0].messages);
      Settled(cfg, g, polls) ==
        if t.records == [] && Run(cfg, t.game, polls[1..]).1 == [] then g else Settled(cfg, t.game, polls[1..])
  {
    RunCons(cfg, g, polls);
  }

  /** The replay of a run, with the first tick in front of the replay of the rest. */
  lemma ReplayCons(cfg: Config, g: Game, polls: seq<Poll>)
    requires Fair(cfg) && Ordered(polls) && polls != [] && Separated(cfg, g, polls)
    ensures var now, messages := polls[0].at, polls[0].messages;
      var t := Tick(cfg, g, now, messages);
      var log := Run(cfg, t.game, polls[1..]).1;
      var later := Run(cfg, t.game, ReplayPolls(log));
      && Ordered(polls[1..]) && Separated(cfg, t.game, polls[1..])
      && Run(cfg, g, ReplayPolls(Run(cfg, g, polls).1)) ==
           (if t.records == [] && log == [] then g else later.0,
            Tick(cfg, g, now, KeptOnly(messages)).records + later.1)
  {
    var now, messages := polls[0].at, polls[0].messages;
    RunCons(cfg, g, polls);
    LaterAllFrom(cfg, g, polls);
    ReplayStep(cfg, g, now, messages, Run(cfg, Tick(cfg, g, now, messages).game, polls[1..]).1);
  }

  /** Replaying the log of a run writes the log that the run would have had without the messages that
      a replay is not fed, and ends in the game after the last logged tick. */
  lemma {:induction false} ReplayRun(cfg: Config, g: Game, polls: seq<Poll>)
    requires Fair(cfg) && Ordered(polls) && Separated(cfg, g, polls)
    ensures Run(cfg, g, ReplayPolls(Run(cfg, g, polls).1)) ==
      (Settled(cfg, g, polls), Run(cfg, g, Strip(polls)).1)
    decreases |polls|
  {
    if polls != [] {
      ReplayCons(cfg, g, polls);
      ReplayRun(cfg, Tick(cfg, g, polls[0].at, polls[0].messages).game, polls[1..]);
      SettledCons(cfg, g, polls);
      StrippedCons(cfg, g, polls);
    }
  }

  // ---------- exactly when ----------

  lemma {:induction false} StripLength(cfg: Config, g: Game, polls: seq<Poll>)
    ensures |Run(cfg, g, polls).1| == |Run(cfg, g, Strip(polls)).1| + Injected(polls)
    decreases |polls|
  {
    if polls != [] {
      TickKept(cfg, g, polls[0].at, polls[0].messages);
      StripLength(cfg, Tick(cfg, g, polls[0].at, polls[0].messages).game, polls[1..]);
      assert Strip(polls)[1..] == Strip(polls[1..]);
    }
  }

  lemma {:induction false} AllKept(messages: seq<Message>)
    requires Dropped(messages) == 0
    ensures KeptOnly(messages) == messages
  {
    if messages != [] { AllKept(messages[1..]); }
  }

  lemma {:induction false} NothingStripped(polls: seq<Poll>)
    requires Injected(polls) == 0
    ensures Strip(polls) == polls
  {
    if polls != [] {
      AllKept(polls[0].messages);
      NothingStripped(polls[1..]);
    }
  }

  /** No record of the same time after a GAME_STATE. */
  predicate Closed(log: seq<Message>) {
    forall i :: 1 <= i < |log| && log[i - 1].GameState? ==> TimeOf(log[i - 1]) != TimeOf(log[i])
  }

  lemma ClosedSplit(records: seq<Message>, log: seq<Message>)
    requires Closed(records + log)
    ensures Closed(log)
    ensures records != [] && log != [] && records[|records| - 1].GameState? ==>
      TimeOf(records[|records| - 1]) != TimeOf(log[0])
  {
    var all, n := records + log, |records|;
    forall i | 1 <= i < |log| && log[i - 1].GameState? ensures TimeOf(log[i - 1]) != TimeOf(log[i]) {
      assert log[i - 1] == all[n + i - 1] && log[i] == all[n + i];
    }
    if records != [] && log != [] {
      assert all[n - 1] == records[n - 1] && all[n] == log[0];
    }
  }

  lemma {:induction false} SortedAbove(log: seq<Message>, t: int)
    requires NondecreasingTimes(log) && log != [] && t < TimeOf(log[0])
    ensures forall m :: m in log ==> TimeOf(m) != t
  {
    if |log| > 1 { SortedAbove(log[1..], t); }
  }

  lemma SeparatedCons(cfg: Config, g: Game, polls: seq<Poll>)
    requires polls != []
    requires var t := Tick(cfg, g, polls[0].at, polls[0].messages);
      && (t.changed ==> forall r :: r in Run(cfg, t.game, polls[1..]).1 ==> TimeOf(r) != polls[0].at)
      && Separated(cfg, t.game, polls[1..])
    ensures Separated(cfg, g, polls)
  {
  }

  lemma ClosedHead(cfg: Config, g: Game, polls: seq<Poll>)
    requires Ordered(polls) && polls != [] && Closed(Run(cfg, g, polls).1)
    ensures var t := Tick(cfg, g, polls[0].at, polls[0].messages);
      var later := Run(cfg, t.game, polls[1..]).1;
      && Closed(later)
      && (t.changed ==> forall r :: r in later ==> TimeOf(r) != polls[0].at)
  {
    var now := polls[0].at;
    var t := Tick(cfg, g, now, polls[0].messages);
    var later := Run(cfg, t.game, polls[1..]).1;
    RunCons(cfg, g, polls);
    ClosedSplit(t.records, later);
    TickLogs(cfg, g, now, polls[0].messages);
    LaterAllFrom(cfg, g, polls);
    RunTimes(cfg, t.game, polls[1..]);
    if t.changed && later != [] {
      assert later[0] in later;
      SortedAbove(later, now);
    }
  }

  /** A run whose log is closed is a separated one: every broadcast left a GAME_STATE. */
  lemma {:induction false} ClosedIsSeparated(cfg: Config, g: Game, polls: seq<Poll>)
    requires Ordered(polls) && Closed(Run(cfg, g, polls).1)
    ensures Separated(cfg, g, polls)
    decreases |polls|
  {
    if polls != [] {
      ClosedHead(cfg, g, polls);
      ClosedIsSeparated(cfg, Tick(cfg, g, polls[0].at, polls[0].messages).game, polls[1..]);
      SeparatedCons(cfg, g, polls);
    }
  }

  predicate Increasing(polls: seq<Poll>) {
    forall i :: 1 <= i < |polls| ==> polls[i - 1].at < polls[i].at
  }

  predicate NoGameStates(messages: seq<Message>) {
    forall m :: m in messages ==> !m.GameState?
  }

  lemma {:induction false} RecordsHaveNoGameState(cfg: Config, g: Game, now: int, messages: seq<Message>)
    requires NoGameStates(messages)
    ensures NoGameStates(ApplyAll(cfg, g, now, messages).records)
    decreases |messages|
  {
    if messages != [] {
      assert messages[0] in messages;
      var a := ApplyOne(cfg, g, now, messages[0]);
      assert NoGameStates(a.records);
      RecordsHaveNoGameState(cfg, a.game, now, messages[1..]);
    }
  }

  /** Only the last record of such a tick can be a GAME_STATE. */
  lemma TickClosed(cfg: Config, g: Game, now: int, messages: seq<Message>)
    requires NoGameStates(messages)
    ensures Closed(Tick(cfg, g, now, messages).records)
  {
    var f := ReplaceFoodIn(cfg, g);
    RecordsHaveNoGameState(cfg, f, now, messages);
    var a, r := ApplyAll(cfg, f, now, messages).records, Tick(cfg, g, now, messages).records;
    forall i | 0 <= i < |r| - 1 ensures !r[i].GameState? {
      assert r[i] == a[i] && a[i] in a;
    }
  }

  lemma ClosedConcat(a: seq<Message>, b: seq<Message>)
    requires Closed(a) && Closed(b)
    requires a != [] && b != [] && a[|a| - 1].GameState? ==> TimeOf(a[|a| - 1]) != TimeOf(b[0])
    ensures Closed(a + b)
  {
    var all, n := a + b, |a|;
    forall i | 1 <= i < |all| && all[i - 1].GameState? ensures TimeOf(all[i - 1]) != TimeOf(all[i]) {
      if i < n {
        assert all[i - 1] == a[i - 1] && all[i] == a[i];
      } else if i > n {
        assert all[i - 1] == b[i - n - 1] && all[i] == b[i - n];
      }
    }
  }

  /** A tick that told nobody anything logs no GAME_STATE. */
  lemma UntoldIsPlain(cfg: Config, g: Game, now: int, messages: seq<Message>)
    requires NoGameStates(messages) && !Tick(cfg, g, now, messages).changed
    ensures NoGameStates(Tick(cfg, g, now, messages).records)
  {
    var f := ReplaceFoodIn(cfg, g);
    RecordsHaveNoGameState(cfg, f, now, messages);
    var a := ApplyAll(cfg, f, now, messages).records;
    assert a + [] == a;
  }

  lemma {:induction false} NothingInjected(polls: seq<Poll>)
    requires Injected(polls) == 0
    ensures forall p :: p in polls ==> NoGameStates(p.messages)
  {
    if polls != [] {
      NothingInjected(polls[1..]);
      NothingDropped(polls[0].messages);
    }
  }

  lemma {:induction false} NothingDropped(messages: seq<Message>)
    requires Dropped(messages) == 0
    ensures NoGameStates(messages)
  {
    if messages != [] { NothingDropped(messages[1..]); }
  }

  /** The log of a separated run without injected messages is closed, so the two conditions are one. */
  lemma {:induction false} SeparatedIsClosed(cfg: Config, g: Game, polls: seq<Poll>)
    requires Separated(cfg, g, polls)
    requires forall p :: p in polls ==> NoGameStates(p.messages)
    ensures Closed(Run(cfg, g, polls).1)
    decreases |polls|
  {
    if polls != [] {
      var now, messages := polls[0].at, polls[0].messages;
      var t := Tick(cfg, g, now, messages);
      assert polls[0] in polls;
      RunCons(cfg, g, polls);
      SeparatedIsClosed(cfg, t.game, polls[1..]);
      SeparatedHead(cfg, g, polls[0], Run(cfg, t.game, polls[1..]).1);
    }
  }

  lemma SeparatedHead(cfg: Config, g: Game, p: Poll, later: seq<Message>)
    requires NoGameStates(p.messages) && Closed(later)
    requires Tick(cfg, g, p.at, p.messages).changed ==> forall r :: r in later ==> TimeOf(r) != p.at
    ensures Closed(Tick(cfg, g, p.at, p.messages).records + later)
  {
    var t := Tick(cfg, g, p.at, p.messages);
    TickClosed(cfg, g, p.at, p.messages);
    TickTimes(cfg, g, p.at, p.messages);
    if t.changed {
      if later != [] { assert later[0] in later; }
    } else {
      UntoldIsPlain(cfg, g, p.at, p.messages);
    }
    if t.records != [] { assert t.records[|t.records| - 1] in t.records; }
    ClosedConcat(t.records, later);
  }

  lemma LaterTimes(cfg: Config, g: Game, polls: seq<Poll>)
    requires Increasing(polls) && polls != []
    ensures Increasing(polls[1..]) && forall r :: r in Run(cfg, g, polls[1..]).1 ==> TimeOf(r) != polls[0].at
  {
    RunTimes(cfg, g, polls[1..]);
  }

  /** Ticks of different times that are fed no GAME_STATE write a closed log. */
  lemma {:induction false} IncreasingIsClosed(cfg: Config, g: Game, polls: seq<Poll>)
    requires Increasing(polls)
    requires forall p :: p in polls ==> NoGameStates(p.messages)
    ensures Closed(Run(cfg, g, polls).1)
    decreases |polls|
  {
    if polls != [] {
      var h := Tick(cfg, g, polls[0].at, polls[0].messages).game;
      assert polls[0] in polls;
      RunCons(cfg, g, polls);
      LaterTimes(cfg, h, polls);
      IncreasingIsClosed(cfg, h, polls[1..]);
      SeparatedHead(cfg, g, polls[0], Run(cfg, h, polls[1..]).1);
    }
  }

  // ---------- sequence numbers ----------

  /** The same records, sequence numbers aside. */
  predicate Alike(a: seq<Message>, b: seq<Message>) {
    |a| == |b| && forall i :: 0 <= i < |a| ==> AlikeOne(a[i], b[i])
  }

  predicate AlikeOne(m: Message, n: Message) {
    WithSequence(m, 0) == WithSequence(n, 0)
  }

  lemma NumberAlike(log: seq<Message>, from: int)
    ensures Alike(Number(log, from), log)
  {
    forall i | 0 <= i < |log| ensures AlikeOne(Number(log, from)[i], log[i]) { NumberAt(log, from, i); }
  }

  predicate AlikeBatches(a: seq<Batch>, b: seq<Batch>) {
    |a| == |b| && forall i :: 0 <= i < |a| ==> Alike(a[i], b[i])
  }

  lemma {:induction false} GroupsAlike(a: seq<Message>, b: seq<Message>)
    requires Alike(a, b)
    ensures AlikeBatches(GroupByTime(a), GroupByTime(b))
  {
    if a != [] {
      GroupsAlike(a[1..], b[1..]);
      var x, y := GroupByTime(a[1..]), GroupByTime(b[1..]);
      assert AlikeOne(a[0], b[0]);
      if x != [] {
        assert Alike(x[0], y[0]) && AlikeOne(x[0][0], y[0][0]);
        assert Alike([a[0]] + x[0], [b[0]] + y[0]);
      }
    }
  }

  lemma {:induction false} KeptAlike(a: seq<Message>, b: seq<Message>)
    requires Alike(a, b)
    ensures Alike(KeptOnly(a), KeptOnly(b))
  {
    if a != [] {
      assert AlikeOne(a[0], b[0]);
      KeptAlike(a[1..], b[1..]);
      KeptOnlyHead(a);
      KeptOnlyHead(b);
      AlikeCons(a[0], b[0], KeptOnly(a[1..]), KeptOnly(b[1..]));
    }
  }

  lemma AlikeCons(m: Message, n: Message, a: seq<Message>, b: seq<Message>)
    requires AlikeOne(m, n) && Alike(a, b)
    ensures Alike([m] + a, [n] + b) && Kept(m) == Kept(n)
  {
  }

  lemma ApplyOneAlike(cfg: Config, g: Game, now: int, m: Message, n: Message)
    requires AlikeOne(m, n)
    ensures ApplyOne(cfg, g, now, m) == ApplyOne(cfg, g, now, n)
  {
  }

  lemma {:induction false} ApplyAlike(cfg: Config, g: Game, now: int, a: seq<Message>, b: seq<Message>)
    requires Alike(a, b)
    ensures ApplyAll(cfg, g, now, a) == ApplyAll(cfg, g, now, b)
    decreases |a|
  {
    if a != [] {
      assert AlikeOne(a[0], b[0]);
      ApplyOneAlike(cfg, g, now, a[0], b[0]);
      ApplyAlike(cfg, ApplyOne(cfg, g, now, a[0]).game, now, a[1..], b[1..]);
    }
  }

  lemma TickAlike(cfg: Config, g: Game, now: int, a: seq<Message>, b: seq<Message>)
    requires Alike(a, b)
    ensures Tick(cfg, g, now, a) == Tick(cfg, g, now, b)
  {
    ApplyAlike(cfg, ReplaceFoodIn(cfg, g), now, a, b);
  }

  lemma SameRunHead(cfg: Config, g: Game, now: int, x: seq<Message>, y: seq<Message>, p: seq<Poll>, q: seq<Poll>)
    requires Tick(cfg, g, now, x) == Tick(cfg, g, now, y)
    requires Run(cfg, Tick(cfg, g, now, x).game, p) == Run(cfg, Tick(cfg, g, now, x).game, q)
    ensures Run(cfg, g, [Poll(now, x)] + p) == Run(cfg, g, [Poll(now, y)] + q)
  {
    RunHead(cfg, g, Poll(now, x), p);
    RunHead(cfg, g, Poll(now, y), q);
  }

  lemma HeadAlike(a: seq<Batch>, b: seq<Batch>)
    requires AlikeBatches(a, b) && a != []
    ensures BatchTime(a[0]) == BatchTime(b[0])
    ensures Alike(KeptOnly(a[0]), KeptOnly(b[0]))
    ensures AlikeBatches(a[1..], b[1..])
  {
    assert Alike(a[0], b[0]) && AlikeOne(a[0][0], b[0][0]);
    KeptAlike(a[0], b[0]);
  }

  lemma {:induction false} BatchesAlike(cfg: Config, g: Game, a: seq<Batch>, b: seq<Batch>)
    requires AlikeBatches(a, b)
    ensures Run(cfg, g, ReplayBatches(a)) == Run(cfg, g, ReplayBatches(b))
    decreases |a|
  {
    if a != [] {
      HeadAlike(a, b);
      var now, x, y := BatchTime(a[0]), KeptOnly(a[0]), KeptOnly(b[0]);
      TickAlike(cfg, g, now, x, y);
      BatchesAlike(cfg, Tick(cfg, g, now, x).game, a[1..], b[1..]);
      SameRunHead(cfg, g, now, x, y, ReplayBatches(a[1..]), ReplayBatches(b[1..]));
    }
  }

  /** A replay does not depend on the numbers of the records it reads. */
  lemma NumbersIgnored(cfg: Config, g: Game, log: seq<Message>, from: int)
    ensures Run(cfg, g, ReplayPolls(Number(log, from))) == Run(cfg, g, ReplayPolls(log))
  {
    NumberAlike(log, from);
    GroupsAlike(Number(log, from), log);
    BatchesAlike(cfg, g, GroupByTime(Number(log, from)), GroupByTime(log));
  }

  predicate Unnumbered(log: seq<Message>) {
    forall m :: m in log ==> m.hdr.sequence == 0
  }

  lemma {:induction false} ApplyUnnumbered(cfg: Config, g: Game, now: int, messages: seq<Message>)
    ensures Unnumbered(ApplyAll(cfg, g, now, messages).records)
    decreases |messages|
  {
    if messages != [] {
      var a := ApplyOne(cfg, g, now, messages[0]);
      assert Unnumbered(a.records);
      ApplyUnnumbered(cfg, a.game, now, messages[1..]);
    }
  }

  lemma {:induction false} RunUnnumbered(cfg: Config, g: Game, polls: seq<Poll>)
    ensures Unnumbered(Run(cfg, g, polls).1)
    decreases |polls|
  {
    if polls != [] {
      ApplyUnnumbered(cfg, ReplaceFoodIn(cfg, g), polls[0].at, polls[0].messages);
      RunUnnumbered(cfg, Tick(cfg, g, polls[0].at, polls[0].messages).game, polls[1..]);
    }
  }

  lemma NumberInjective(a: seq<Message>, b: seq<Message>, from: int)
    requires Unnumbered(a) && Unnumbered(b) && Number(a, from) == Number(b, from)
    ensures a == b
  {
    assert |a| == |b| by { assert |Number(a, from)| == |Number(b, from)|; }
    forall i | 0 <= i < |a| ensures a[i] == b[i] {
      NumberAt(a, from, i);
      NumberAt(b, from, i);
      assert a[i] in a && b[i] in b;
      SameUnderNumber(a[i], b[i], from + i);
    }
  }

  lemma SameUnderNumber(m: Message, n: Message, k: int)
    requires m.hdr.sequence == n.hdr.sequence
    requires WithSequence(m, k) == WithSequence(n, k)
    ensures m == n
  {
  }

  // ---------- the theorem ----------

  /** The records a fresh engine writes after its SERVER_CONFIG, which has number 0. */
  ghost function LogOf(cfg: Config, seed: nat, polls: seq<Poll>): seq<Message> {
    Number(Run(cfg, NewGame(seed), polls).1, 1)
  }

  /** Numbering a log changes none of its times. */
  lemma NumberedTimes(log: seq<Message>, from: int)
    ensures forall i :: 0 <= i < |log| ==>
      Number(log, from)[i].hdr.sequence == from + i && TimeOf(Number(log, from)[i]) == TimeOf(log[i])
    ensures NondecreasingTimes(log) ==> NondecreasingTimes(Number(log, from))
  {
    forall i | 0 <= i < |log|
      ensures Number(log, from)[i].hdr.sequence == from + i && TimeOf(Number(log, from)[i]) == TimeOf(log[i])
    {
      NumberAt(log, from, i);
    }
  }

  /** The log has no gaps and its times never decrease. */
  lemma LogIsGapFree(cfg: Config, seed: nat, polls: seq<Poll>)
    requires Ordered(polls)
    ensures var log := LogOf(cfg, seed, polls);
      && (forall i :: 0 <= i < |log| ==> log[i].hdr.sequence == 1 + i)
      && NondecreasingTimes(log)
  {
    RunTimes(cfg, NewGame(seed), polls);
    NumberedTimes(Run(cfg, NewGame(seed), polls).1, 1);
  }

  /** Numbers do not matter to whether a log is closed. */
  lemma ClosedNumber(log: seq<Message>, from: int)
    ensures Closed(Number(log, from)) <==> Closed(log)
  {
    NumberAlike(log, from);
    var n := Number(log, from);
    forall i | 0 <= i < |log| ensures n[i].GameState? == log[i].GameState? && TimeOf(n[i]) == TimeOf(log[i]) {
      assert AlikeOne(n[i], log[i]);
    }
  }

  /** The condition on a run and the condition on its log are one. */
  lemma SeparatedExactlyWhen(cfg: Config, seed: nat, polls: seq<Poll>)
    requires Ordered(polls) && Injected(polls) == 0
    ensures Separated(cfg, NewGame(seed), polls) <==> Closed(LogOf(cfg, seed, polls))
  {
    ClosedNumber(Run(cfg, NewGame(seed), polls).1, 1);
    NothingInjected(polls);
    if Separated(cfg, NewGame(seed), polls) {
      SeparatedIsClosed(cfg, NewGame(seed), polls);
    } else if Closed(LogOf(cfg, seed, polls)) {
      ClosedIsSeparated(cfg, NewGame(seed), polls);
    }
  }

  /** Replaying reproduces the log exactly when the clients sent no message of the server's own two
      output types and no record in the log has the time of a GAME_STATE before it. */
  lemma ReplayReproducesExactlyWhen(cfg: Config, seed: nat, polls: seq<Poll>)
    requires Fair(cfg) && Ordered(polls)
    ensures LogOf(cfg, seed, ReplayPolls(LogOf(cfg, seed, polls))) == LogOf(cfg, seed, polls)
            <==> Injected(polls) == 0 && Closed(LogOf(cfg, seed, polls))
  {
    var g := NewGame(seed);
    var live := Run(cfg, g, polls).1;
    var replayed := Run(cfg, g, ReplayPolls(live)).1;
    NumbersIgnored(cfg, g, live, 1);
    ClosedNumber(live, 1);
    if Injected(polls) == 0 && Closed(live) {
      ClosedIsSeparated(cfg, g, polls);
      ReplayRun(cfg, g, polls);
      NothingStripped(polls);
    }
    if Number(replayed, 1) == Number(live, 1) {
      RunUnnumbered(cfg, g, polls);
      RunUnnumbered(cfg, g, ReplayPolls(live));
      NumberInjective(replayed, live, 1);
      RunTimes(cfg, g, polls);
      ReplayPollsAreClean(live);
      IncreasingIsClosed(cfg, g, ReplayPolls(live));
      ClosedIsSeparated(cfg, g, polls);
      ReplayRun(cfg, g, polls);
      StripLength(cfg, g, polls);
    }
  }

  lemma {:induction false} KeptHasNoGameState(messages: seq<Message>)
    ensures NoGameStates(KeptOnly(messages))
  {
    if messages != [] { KeptHasNoGameState(messages[1..]); }
  }

  lemma {:induction false} BatchesAreClean(batches: seq<Batch>)
    requires IncreasingBatches(batches)
    ensures Increasing(ReplayBatches(batches))
    ensures |ReplayBatches(batches)| == |batches|
    ensures forall p :: p in ReplayBatches(batches) ==> NoGameStates(p.messages)
  {
    if batches != [] {
      KeptHasNoGameState(batches[0]);
      BatchesAreClean(batches[1..]);
    }
  }

  lemma ReplayPollsAreClean(log: seq<Message>)
    requires NondecreasingTimes(log)
    ensures Increasing(ReplayPolls(log))
    ensures forall p :: p in ReplayPolls(log) ==> NoGameStates(p.messages)
  {
    GroupTimesIncrease(log);
    BatchesAreClean(GroupByTime(log));
  }

  /** A replay also arrives at the live game as it was after its last logged tick. */
  lemma ReplayReachesTheGame(cfg: Config, seed: nat, polls: seq<Poll>)
    requires Fair(cfg) && Ordered(polls) && Closed(LogOf(cfg, seed, polls))
    ensures Run(cfg, NewGame(seed), ReplayPolls(LogOf(cfg, seed, polls))).0 == Settled(cfg, NewGame(seed), polls)
  {
    ClosedNumber(Run(cfg, NewGame(seed), polls).1, 1);
    ClosedIsSeparated(cfg, NewGame(seed), polls);
    NumbersIgnored(cfg, NewGame(seed), Run(cfg, NewGame(seed), polls).1, 1);
    ReplayRun(cfg, NewGame(seed), polls);
  }

  predicate ClientsOnly(messages: seq<Message>) {
    forall m :: m in messages ==> m.ClientJoin? || m.ClientInput? || m.ClientDisconnect?
  }

  /** Ticks of different times that are sent joins, inputs and disconnects only: always reproduced. */
  lemma ReplayReproduces(cfg: Config, seed: nat, polls: seq<Poll>)
    requires Fair(cfg) && Increasing(polls)
    requires forall p :: p in polls ==> ClientsOnly(p.messages)
    ensures LogOf(cfg, seed, ReplayPolls(LogOf(cfg, seed, polls))) == LogOf(cfg, seed, polls)
  {
    forall p | p in polls ensures NoGameStates(p.messages) && Dropped(p.messages) == 0 {
      NoneDropped(p.messages);
    }
    NoneInjected(polls);
    assert Ordered(polls);
    IncreasingIsClosed(cfg, NewGame(seed), polls);
    ClosedNumber(Run(cfg, NewGame(seed), polls).1, 1);
    ReplayReproducesExactlyWhen(cfg, seed, polls);
  }

  lemma {:induction false} NoneDropped(messages: seq<Message>)
    requires forall m :: m in messages ==> Kept(m)
    ensures Dropped(messages) == 0
  {
    if messages != [] {
      assert messages[0] in messages;
      NoneDropped(messages[1..]);
    }
  }

  lemma {:induction false} NoneInjected(polls: seq<Poll>)
    requires forall p :: p in polls ==> Dropped(p.messages) == 0
    ensures Injected(polls) == 0
  {
    if polls != [] {
      assert polls[0] in polls;
      NoneInjected(polls[1..]);
    }
  }

  /** One client that sends a SERVER_WELCOME is enough to make the replay differ. */
  lemma InjectionBreaksReplay(cfg: Config, seed: nat)
    requires Fair(cfg)
    ensures var polls := [Poll(1, [Welcome(1, 0)])];
      LogOf(cfg, seed, ReplayPolls(LogOf(cfg, seed, polls))) != LogOf(cfg, seed, polls)
  {
    var polls := [Poll(1, [Welcome(1, 0)])];
    assert Dropped([Welcome(1, 0)]) == 1;
    assert Injected(polls) >= 1;
    ReplayReproducesExactlyWhen(cfg, seed, polls);
  }

  lemma OpenLog(cfg: Config, seed: nat, polls: seq<Poll>)
    requires Ordered(polls) && !Separated(cfg, NewGame(seed), polls)
    ensures !Closed(LogOf(cfg, seed, polls))
  {
    ClosedNumber(Run(cfg, NewGame(seed), polls).1, 1);
    if Closed(LogOf(cfg, seed, polls)) { ClosedIsSeparated(cfg, NewGame(seed), polls); }
  }

  function OneJoin(id: Int32, name: Bytes): seq<Message> {
    [ClientJoin(Header(CLIENT_JOIN, id, 0, 0), name)]
  }

  lemma JoinsAreOpen(cfg: Config, seed: nat, name: Bytes)
    ensures !Closed(LogOf(cfg, seed, [Poll(1, OneJoin(1, name)), Poll(1, OneJoin(2, name))]))
  {
    JoinChanges(cfg, ReplaceFoodIn(cfg, NewGame(seed)), 1, OneJoin(1, name));
    NotSeparated(cfg, NewGame(seed), 1, OneJoin(1, name), OneJoin(2, name));
    OpenLog(cfg, seed, [Poll(1, OneJoin(1, name)), Poll(1, OneJoin(2, name))]);
  }

  /** So are two joins in two ticks of the same time. */
  lemma EqualTimesBreakReplay(cfg: Config, seed: nat, name: Bytes)
    requires Fair(cfg)
    ensures var polls := [Poll(1, OneJoin(1, name)), Poll(1, OneJoin(2, name))];
      LogOf(cfg, seed, ReplayPolls(LogOf(cfg, seed, polls))) != LogOf(cfg, seed, polls)
  {
    JoinsAreOpen(cfg, seed, name);
    ReplayReproducesExactlyWhen(cfg, seed, [Poll(1, OneJoin(1, name)), Poll(1, OneJoin(2, name))]);
  }

  lemma NotSeparated(cfg: Config, g: Game, now: int, a: seq<Message>, b: seq<Message>)
    requires Tick(cfg, g, now, a).changed && b != []
    ensures !Separated(cfg, g, [Poll(now, a), Poll(now, b)])
  {
    var polls := [Poll(now, a), Poll(now, b)];
    var h := Tick(cfg, g, now, a).game;
    assert polls[1..] == [Poll(now, b)];
    TickLogs(cfg, h, now, b);
    TickTimes(cfg, h, now, b);
    var r := Tick(cfg, h, now, b).records[0];
    RunCons(cfg, h, polls[1..]);
    assert r in Run(cfg, h, polls[1..]).1 && TimeOf(r) == now;
  }

  lemma JoinChanges(cfg: Config, g: Game, now: int, messages: seq<Message>)
    requires messages != [] && messages[0].ClientJoin?
    ensures ApplyAll(cfg, g, now, messages).changed
  {
  }
}