/** Who is in a game after a run, from what was sent and from what the collision checks found. */
module Attendance {
  import opened LittleEndian
  import opened Engine
  import opened Survivors
  import opened Invariants
  import opened Replay
  import opened Clients
  import Chronicles

  /** The tick's collision check, if it has one, finds the player inside, on no body and first in its cell. */
  ghost predicate Spared(cfg: Config, g: Game, p: Poll, id: Int32) {
    var a, h := ApplyAll(cfg, ReplaceFoodIn(cfg, g), p.at, p.messages).game, Moving(cfg, g, p.at, p.messages);
    AnyDue(a, p.at) && id in h.players.m ==>
      InArena(cfg, Head(h.players.m[id])) && Shown(h.players, Head(h.players.m[id])) == 0 && FirstInCell(h.players, id)
  }

  /** One tick: there before the check, and spared by it. */
  lemma AfterTick(cfg: Config, g: Game, p: Poll, id: Int32)
    ensures id in Tick(cfg, g, p.at, p.messages).game.players.m <==>
      Present(id in g.players.m, p.messages, id) && Spared(cfg, g, p, id)
  {
    var f := ReplaceFoodIn(cfg, g);
    var a := ApplyAll(cfg, f, p.at, p.messages).game;
    WhoIsThere(cfg, f, p.at, p.messages, id);
    Chronicles.PlayersAfter(cfg, a, p.at);
    if AnyDue(a, p.at) { SurvivesExactlyWhen(cfg, Moving(cfg, g, p.at, p.messages), p.at, id); }
  }

  /** The game before the k-th poll. */
  ghost function Before(cfg: Config, seed: nat, polls: seq<Poll>, k: nat): Game
    requires k <= |polls|
  {
    Run(cfg, NewGame(seed), polls[..k]).0
  }

  /** From the k-th poll on no disconnect of id. */
  predicate NeverLeaves(polls: seq<Poll>, id: Int32, k: nat) {
    forall j :: k <= j < |polls| ==> NoLeave(polls[j].messages, id)
  }

  ghost predicate AlwaysSpared(cfg: Config, seed: nat, polls: seq<Poll>, id: Int32, k: nat) {
    forall j: nat :: k <= j < |polls| ==> Spared(cfg, Before(cfg, seed, polls, j), polls[j], id)
  }

  /** A join in the k-th poll that counts: no disconnect since, and every check since has spared the player. */
  ghost predicate Since(cfg: Config, seed: nat, polls: seq<Poll>, id: Int32, k: nat) {
    && k < |polls| && (exists i :: EntersAt(polls[k].messages, id, i))
    && NeverLeaves(polls, id, k + 1) && AlwaysSpared(cfg, seed, polls, id, k)
  }

  lemma BeforeFront(cfg: Config, seed: nat, polls: seq<Poll>, front: seq<Poll>, k: nat)
    requires |polls| > 0 && front == polls[..|polls| - 1] && k <= |front|
    ensures Before(cfg, seed, polls, k) == Before(cfg, seed, front, k)
  {
    assert polls[..k] == front[..k];
  }

  lemma SpareFront(cfg: Config, seed: nat, polls: seq<Poll>, front: seq<Poll>, last: Poll, id: Int32, k: nat)
    requires polls == front + [last] && k <= |front|
    ensures AlwaysSpared(cfg, seed, polls, id, k) <==>
      AlwaysSpared(cfg, seed, front, id, k) && Spared(cfg, Run(cfg, NewGame(seed), front).0, last, id)
  {
    var n := |front|;
    assert polls[..n] == front && polls[n] == last;
    forall j: nat | j <= n ensures Before(cfg, seed, polls, j) == Before(cfg, seed, front, j) {
      BeforeFront(cfg, seed, polls, front, j);
    }
    assert front[..n] == front;
    if AlwaysSpared(cfg, seed, polls, id, k) {
      assert Spared(cfg, Before(cfg, seed, polls, n), polls[n], id);
      forall j: nat | k <= j < n ensures Spared(cfg, Before(cfg, seed, front, j), front[j], id) {
        assert Spared(cfg, Before(cfg, seed, polls, j), polls[j], id);
      }
    }
    if AlwaysSpared(cfg, seed, front, id, k) && Spared(cfg, Run(cfg, NewGame(seed), front).0, last, id) {
      forall j: nat | k <= j < |polls| ensures Spared(cfg, Before(cfg, seed, polls, j), polls[j], id) {
        if j < n { assert Spared(cfg, Before(cfg, seed, front, j), front[j], id); }
      }
    }
  }

  lemma LeaveFront(polls: seq<Poll>, front: seq<Poll>, last: Poll, id: Int32, k: nat)
    requires polls == front + [last] && k <= |front|
    ensures NeverLeaves(polls, id, k) <==> NeverLeaves(front, id, k) && NoLeave(last.messages, id)
  {
    assert polls[|front|] == last;
    forall j | 0 <= j < |front| ensures polls[j] == front[j] { }
  }

  /** One poll more: a join in it counts, or one before it that it does not undo. */
  lemma SinceMore(cfg: Config, seed: nat, polls: seq<Poll>, front: seq<Poll>, last: Poll, id: Int32, k: nat)
    requires polls == front + [last] && k < |front|
    ensures Since(cfg, seed, polls, id, k) <==>
      Since(cfg, seed, front, id, k) && NoLeave(last.messages, id)
      && Spared(cfg, Run(cfg, NewGame(seed), front).0, last, id)
  {
    SpareFront(cfg, seed, polls, front, last, id, k);
    LeaveFront(polls, front, last, id, k + 1);
    assert polls[k] == front[k];
  }

  lemma SinceLast(cfg: Config, seed: nat, polls: seq<Poll>, front: seq<Poll>, last: Poll, id: Int32)
    requires polls == front + [last]
    ensures Since(cfg, seed, polls, id, |front|) <==>
      (exists i :: EntersAt(last.messages, id, i)) && Spared(cfg, Run(cfg, NewGame(seed), front).0, last, id)
  {
    SpareFront(cfg, seed, polls, front, last, id, |front|);
    assert polls[|front|] == last;
  }

  ghost predicate Attends(cfg: Config, seed: nat, polls: seq<Poll>, id: Int32) {
    exists k: nat :: Since(cfg, seed, polls, id, k)
  }

  lemma AttendsMore(cfg: Config, seed: nat, polls: seq<Poll>, front: seq<Poll>, last: Poll, id: Int32)
    requires polls == front + [last]
    ensures Attends(cfg, seed, polls, id) <==>
      Present(Attends(cfg, seed, front, id), last.messages, id)
      && Spared(cfg, Run(cfg, NewGame(seed), front).0, last, id)
  {
    var n := |front|;
    SinceLast(cfg, seed, polls, front, last, id);
    if k: nat :| Since(cfg, seed, polls, id, k) {
      if k < n { SinceMore(cfg, seed, polls, front, last, id, k); }
    }
    if k: nat :| Since(cfg, seed, front, id, k) {
      SinceMore(cfg, seed, polls, front, last, id, k);
    }
  }

  /**
   Who is in the game after a run: exactly those who sent a join, were not disconnected since, in that poll or
   a later one, and were spared by every collision check since.
   */
  lemma {:induction false} PlayersAreThoseWhoAttend(cfg: Config, seed: nat, polls: seq<Poll>, id: Int32)
    ensures id in Run(cfg, NewGame(seed), polls).0.players.m <==> Attends(cfg, seed, polls, id)
    decreases |polls|
  {
    if polls != [] {
      var n := |polls| - 1;
      var front, last := polls[..n], polls[n];
      assert polls == front + [last];
      PlayersAreThoseWhoAttend(cfg, seed, front, id);
      RunNextPoll(cfg, NewGame(seed), front, last);
      AfterTick(cfg, Run(cfg, NewGame(seed), front).0, last, id);
      AttendsMore(cfg, seed, polls, front, last, id);
    }
  }
}
