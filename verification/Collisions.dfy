/** What a collision check decides, for each player on its own, whatever the order in which it looks at them. */
module Collisions {
  import opened LittleEndian
  import opened Tables
  import opened Chains
  import opened Engine

  // ---------- heads and move times do not change during a check ----------

  predicate SameHeads(m: map<Int32, Player>, n: map<Int32, Player>) {
    m.Keys == n.Keys && forall id :: id in m ==> Head(m[id]) == Head(n[id]) && m[id].nextMoveTime == n[id].nextMoveTime
  }

  lemma {:induction false} HeadsUnchanged(m: map<Int32, Player>, n: map<Int32, Player>, ids: seq<Int32>, c: Pos)
    requires SameHeads(m, n)
    requires forall id :: id in ids ==> id in m
    ensures HeadsIn(m, ids, c) == HeadsIn(n, ids, c)
  {
    if ids != [] {
      assert ids[0] in ids;
      forall id | id in ids[1..] ensures id in m { assert id in ids; }
      HeadsUnchanged(m, n, ids[1..], c);
    }
  }

  lemma {:induction false} EarliestUnchanged(m: map<Int32, Player>, n: map<Int32, Player>, ids: seq<Int32>)
    requires SameHeads(m, n) && ids != []
    requires forall id :: id in ids ==> id in m
    ensures Earliest(m, ids) == Earliest(n, ids)
  {
    assert ids[0] in ids;
    if |ids| > 1 {
      forall id | id in ids[1..] ensures id in m { assert id in ids; }
      EarliestUnchanged(m, n, ids[1..]);
    }
  }

  lemma SentenceKeepsHead(cfg: Config, v: Verdict, p: Player, now: int)
    ensures Head(Sentence(cfg, v, p, now)) == Head(p)
    ensures Sentence(cfg, v, p, now).nextMoveTime == p.nextMoveTime
  {
    GrowAt(p.chain);
  }

  /** Players alone in a cell: no other player's head is there. */
  lemma AloneInCell(t: Players, id: Int32, other: Int32)
    requires id in t.m && other in t.m && other != id && Head(t.m[id]) == Head(t.m[other])
    ensures |HeadsIn(t.m, t.keys, Head(t.m[id]))| > 1
  {
    var heads := HeadsIn(t.m, t.keys, Head(t.m[id]));
    assert id in heads && other in heads;
    var i :| 0 <= i < |heads| && heads[i] == id;
    var j :| 0 <= j < |heads| && heads[j] == other;
  }

  // ---------- the outcome as a set of verdicts ----------

  type Verdicts = map<Int32, Verdict>

  /** The verdict on every player, each from the state before the check alone. */
  function VerdictsOf(cfg: Config, bodies: Players, start: Clash): Verdicts {
    map id | id in start.players.m :: Decide(cfg, bodies, start, id)
  }

  ghost predicate Covers(vs: Verdicts, start: Clash, done: seq<Int32>) {
    vs.Keys == start.players.m.Keys && forall id :: id in done ==> id in vs
  }

  /** The cells of the players of done with verdict v. */
  ghost function CellsOf(vs: Verdicts, start: Clash, done: seq<Int32>, v: Verdict): set<Pos>
    requires Covers(vs, start, done)
  {
    set id | id in done && vs[id] == v :: Head(start.players.m[id])
  }

  function DoomedOf(vs: Verdicts, done: seq<Int32>): seq<Int32>
    requires forall id :: id in done ==> id in vs
  {
    if done == [] then []
    else
      var n := |done| - 1;
      DoomedOf(vs, done[..n]) + if vs[done[n]] == Dies then [done[n]] else []
  }

  /** The high score is the old one or a score seen, and at least all of them. */
  ghost predicate IsPeak(cfg: Config, vs: Verdicts, start: Clash, done: seq<Int32>, now: int, peak: int)
    requires Covers(vs, start, done)
  {
    && peak >= start.high.score
    && (forall id :: id in done ==> peak >= Sentence(cfg, vs[id], start.players.m[id], now).score)
    && (peak == start.high.score
        || exists id :: id in done && peak == Sentence(cfg, vs[id], start.players.m[id], now).score)
  }

  /** The players looked at so far have had their verdict carried out, and no others. */
  ghost predicate PlayersResolved(cfg: Config, vs: Verdicts, start: Players, done: seq<Int32>, now: int, t: Players) {
    && vs.Keys == start.m.Keys && t.keys == start.keys && t.m.Keys == start.m.Keys
    && forall id :: id in start.m ==>
         t.m[id] == if id in done then Sentence(cfg, vs[id], start.m[id], now) else start.m[id]
  }

  /** The check so far is exactly the verdicts on the players looked at so far. */
  ghost predicate Resolved(cfg: Config, vs: Verdicts, start: Clash, done: seq<Int32>, now: int, c: Clash) {
    && Covers(vs, start, done)
    && PlayersResolved(cfg, vs, start.players, done, now, c.players)
    && c.food == EraseAll(start.food, CellsOf(vs, start, done, Eats))
    && c.boosts == EraseAll(start.boosts, CellsOf(vs, start, done, Speeds))
    && c.doomed == start.doomed + DoomedOf(vs, done)
    && IsPeak(cfg, vs, start, done, now, c.high.score)
  }

  lemma ResolvedKeepsHeads(cfg: Config, vs: Verdicts, start: Players, done: seq<Int32>, now: int, t: Players)
    requires PlayersResolved(cfg, vs, start, done, now, t)
    ensures SameHeads(t.m, start.m)
  {
    forall id | id in start.m
      ensures Head(t.m[id]) == Head(start.m[id]) && t.m[id].nextMoveTime == start.m[id].nextMoveTime
    {
      SentenceKeepsHead(cfg, vs[id], start.m[id], now);
    }
  }

  /** Nobody else takes what lies under a player that is alone in its cell. */
  lemma StillThere(vs: Verdicts, start: Clash, done: seq<Int32>, id: Int32, v: Verdict)
    requires Covers(vs, start, done)
    requires id in start.players.m && id !in done
    requires |HeadsIn(start.players.m, start.players.keys, Head(start.players.m[id]))| <= 1
    ensures Head(start.players.m[id]) !in CellsOf(vs, start, done, v)
  {
    var head := Head(start.players.m[id]);
    if head in CellsOf(vs, start, done, v) {
      var other :| other in done && vs[other] == v && Head(start.players.m[other]) == head;
      AloneInCell(start.players, id, other);
    }
  }

  /** Decisions agree in two states that agree on heads and on what the players alone in their cell find. */
  lemma DecisionsAgree(cfg: Config, bodies: Players, a: Clash, b: Clash, id: Int32)
    requires id in a.players.m && SameHeads(a.players.m, b.players.m) && a.players.keys == b.players.keys
    requires var head := Head(b.players.m[id]);
      |HeadsIn(b.players.m, b.players.keys, head)| <= 1 ==>
        (Has(a.food, head) == Has(b.food, head) && Has(a.boosts, head) == Has(b.boosts, head))
    ensures Decide(cfg, bodies, a, id) == Decide(cfg, bodies, b, id)
  {
    var head := Head(b.players.m[id]);
    var heads := HeadsIn(b.players.m, b.players.keys, head);
    HeadsUnchanged(a.players.m, b.players.m, b.players.keys, head);
    if |heads| > 1 { EarliestUnchanged(a.players.m, b.players.m, heads); }
  }

  /** What the check decides about a player is its verdict, although it looks at the state that the
      players before it have already changed. */
  lemma VerdictHolds(cfg: Config, bodies: Players, vs: Verdicts, start: Clash, done: seq<Int32>, c: Clash,
      id: Int32, now: int)
    requires id in start.players.m && id !in done
    requires Resolved(cfg, vs, start, done, now, c)
    ensures Decide(cfg, bodies, c, id) == Decide(cfg, bodies, start, id)
  {
    ResolvedKeepsHeads(cfg, vs, start.players, done, now, c.players);
    if |HeadsIn(start.players.m, start.players.keys, Head(start.players.m[id]))| <= 1 {
      StillThere(vs, start, done, id, Eats);
      StillThere(vs, start, done, id, Speeds);
    }
    DecisionsAgree(cfg, bodies, c, start, id);
  }

  lemma EraseMore<V>(t: Table<Pos, V>, out: set<Pos>, c: Pos)
    ensures Erase(EraseAll(t, out), c) == EraseAll(t, out + {c})
  {
    DropDrop(t.keys, out, {c});
    assert Erase(EraseAll(t, out), c).m == EraseAll(t, out + {c}).m;
  }

  lemma CellsOfMore(vs: Verdicts, start: Clash, done: seq<Int32>, id: Int32, v: Verdict)
    requires Covers(vs, start, done) && id in vs
    ensures CellsOf(vs, start, done + [id], v)
      == if vs[id] == v then CellsOf(vs, start, done, v) + {Head(start.players.m[id])} else CellsOf(vs, start, done, v)
  {
    var a, b := CellsOf(vs, start, done + [id], v), CellsOf(vs, start, done, v);
    forall c | c in b ensures c in a {
      var x :| x in done && vs[x] == v && Head(start.players.m[x]) == c;
      assert x in done + [id];
    }
    assert id in done + [id];
  }

  lemma PeakMore(cfg: Config, vs: Verdicts, start: Clash, done: seq<Int32>, id: Int32, now: int, peak: int, next: int)
    requires Covers(vs, start, done) && id in vs
    requires IsPeak(cfg, vs, start, done, now, peak)
    requires var s := Sentence(cfg, vs[id], start.players.m[id], now).score; next == if s > peak then s else peak
    ensures IsPeak(cfg, vs, start, done + [id], now, next)
  {
    assert id in done + [id];
    if next == peak && peak != start.high.score {
      var x :| x in done && peak == Sentence(cfg, vs[x], start.players.m[x], now).score;
      assert x in done + [id];
    }
  }

  lemma PlayersMore(cfg: Config, vs: Verdicts, start: Players, done: seq<Int32>, t: Players, id: Int32,
      now: int, u: Players)
    requires id in start.m && id !in done
    requires PlayersResolved(cfg, vs, start, done, now, t)
    requires var p := Sentence(cfg, vs[id], t.m[id], now); u == Put(t, id, p) || (u == t && p == t.m[id])
    ensures PlayersResolved(cfg, vs, start, done + [id], now, u)
  {
  }

  lemma ItemsMore(vs: Verdicts, start: Clash, items: Items, done: seq<Int32>, id: Int32, v: Verdict)
    requires Covers(vs, start, done) && id in vs
    ensures EraseAll(items, CellsOf(vs, start, done + [id], v))
      == if vs[id] == v then Erase(EraseAll(items, CellsOf(vs, start, done, v)), Head(start.players.m[id]))
         else EraseAll(items, CellsOf(vs, start, done, v))
  {
    CellsOfMore(vs, start, done, id, v);
    EraseMore(items, CellsOf(vs, start, done, v), Head(start.players.m[id]));
  }

  lemma DoomedMore(vs: Verdicts, before: seq<Int32>, done: seq<Int32>, id: Int32)
    requires forall x :: x in done ==> x in vs
    requires id in vs
    ensures before + DoomedOf(vs, done + [id])
      == if vs[id] == Dies then (before + DoomedOf(vs, done)) + [id] else before + DoomedOf(vs, done)
  {
    assert (done + [id])[..|done|] == done;
    assert before + (DoomedOf(vs, done) + [id]) == (before + DoomedOf(vs, done)) + [id];
    assert DoomedOf(vs, done) + [] == DoomedOf(vs, done);
  }

  lemma StepPlayers(cfg: Config, vs: Verdicts, start: Clash, done: seq<Int32>, c: Clash, id: Int32, now: int)
    requires id in start.players.m && id !in done
    requires PlayersResolved(cfg, vs, start.players, done, now, c.players)
    ensures PlayersResolved(cfg, vs, start.players, done + [id], now, Apply(cfg, c, id, vs[id], now).players)
  {
    PlayersMore(cfg, vs, start.players, done, c.players, id, now, Apply(cfg, c, id, vs[id], now).players);
  }

  lemma StepItems(cfg: Config, vs: Verdicts, start: Clash, done: seq<Int32>, c: Clash, id: Int32, now: int)
    requires Covers(vs, start, done) && id in vs && id in c.players.m
    requires Head(c.players.m[id]) == Head(start.players.m[id])
    requires c.food == EraseAll(start.food, CellsOf(vs, start, done, Eats))
    requires c.boosts == EraseAll(start.boosts, CellsOf(vs, start, done, Speeds))
    ensures var d := Apply(cfg, c, id, vs[id], now);
      && d.food == EraseAll(start.food, CellsOf(vs, start, done + [id], Eats))
      && d.boosts == EraseAll(start.boosts, CellsOf(vs, start, done + [id], Speeds))
  {
    ItemsMore(vs, start, start.food, done, id, Eats);
    ItemsMore(vs, start, start.boosts, done, id, Speeds);
  }

  lemma StepRest(cfg: Config, vs: Verdicts, start: Clash, done: seq<Int32>, c: Clash, id: Int32, now: int)
    requires Covers(vs, start, done) && id in vs && id in c.players.m
    requires c.players.m[id] == start.players.m[id]
    requires c.doomed == start.doomed + DoomedOf(vs, done)
    requires IsPeak(cfg, vs, start, done, now, c.high.score)
    ensures var d := Apply(cfg, c, id, vs[id], now);
      && d.doomed == start.doomed + DoomedOf(vs, done + [id])
      && IsPeak(cfg, vs, start, done + [id], now, d.high.score)
  {
    PeakMore(cfg, vs, start, done, id, now, c.high.score, Apply(cfg, c, id, vs[id], now).high.score);
    DoomedMore(vs, start.doomed, done, id);
  }

  lemma StepResolved(cfg: Config, vs: Verdicts, start: Clash, done: seq<Int32>, c: Clash, id: Int32, now: int)
    requires id in start.players.m && id !in done
    requires Resolved(cfg, vs, start, done, now, c)
    ensures Resolved(cfg, vs, start, done + [id], now, Apply(cfg, c, id, vs[id], now))
  {
    StepPlayers(cfg, vs, start, done, c, id, now);
    StepItems(cfg, vs, start, done, c, id, now);
    StepRest(cfg, vs, start, done, c, id, now);
  }

  /** The players in some order, each once. */
  ghost predicate OrderOf(order: seq<Int32>, t: Players) {
    && (forall id :: id in order <==> id in t.m)
    && (forall i, j :: 0 <= i < j < |order| ==> order[i] != order[j])
  }

  lemma OneResolved(cfg: Config, bodies: Players, vs: Verdicts, start: Clash, done: seq<Int32>, c: Clash,
      id: Int32, now: int)
    requires vs == VerdictsOf(cfg, bodies, start)
    requires id in start.players.m && id !in done
    requires Resolved(cfg, vs, start, done, now, c)
    ensures id in c.players.m && Resolved(cfg, vs, start, done + [id], now, CollideOne(cfg, bodies, c, id, now))
  {
    VerdictHolds(cfg, bodies, vs, start, done, c, id, now);
    StepResolved(cfg, vs, start, done, c, id, now);
  }

  /** What holds of a check before it begins, and is kept by looking at one more player, holds of it
      when all of order have been looked at. */
  lemma {:induction false} CheckKeeps(
    cfg: Config, bodies: Players, holds: (seq<Int32>, Clash) -> bool,
    done: seq<Int32>, c: Clash, order: seq<Int32>, now: int)
    requires forall d: seq<Int32>, x: Clash, id :: holds(d, x) && id in c.players.m && id !in d ==>
      id in x.players.m && holds(d + [id], CollideOne(cfg, bodies, x, id, now))
    requires forall x :: x in order ==> x in c.players.m && x !in done
    requires forall i, j :: 0 <= i < j < |order| ==> order[i] != order[j]
    requires holds(done, c)
    ensures holds(done + order, CollideAll(cfg, bodies, c, order, now))
    decreases |order|
  {
    if order == [] {
      assert done + order == done;
    } else {
      var id := order[0];
      assert id in order;
      assert done + [id] + order[1..] == done + order;
      var next := CollideOne(cfg, bodies, c, id, now);
      forall x | x in order[1..] ensures x in next.players.m && x !in done + [id] { assert x in order; }
      CheckKeeps(cfg, bodies, holds, done + [id], next, order[1..], now);
    }
  }

  /** The whole check, in any order, is the verdicts. */
  lemma CheckIsVerdicts(cfg: Config, bodies: Players, start: Clash, order: seq<Int32>, now: int)
    requires OrderOf(order, start.players)
    ensures Resolved(cfg, VerdictsOf(cfg, bodies, start), start, order, now, CollideAll(cfg, bodies, start, order, now))
  {
    var vs := VerdictsOf(cfg, bodies, start);
    var holds := (d: seq<Int32>, x: Clash) => Resolved(cfg, vs, start, d, now, x);
    NothingResolved(cfg, vs, start, now);
    forall d: seq<Int32>, x: Clash, id | holds(d, x) && id in start.players.m && id !in d
      ensures id in x.players.m && holds(d + [id], CollideOne(cfg, bodies, x, id, now))
    {
      OneResolved(cfg, bodies, vs, start, d, x, id, now);
    }
    CheckKeeps(cfg, bodies, holds, [], start, order, now);
    assert [] + order == order;
  }

  lemma NothingResolved(cfg: Config, vs: Verdicts, start: Clash, now: int)
    requires vs.Keys == start.players.m.Keys
    ensures Resolved(cfg, vs, start, [], now, start)
  {
    var none: set<Pos> := {};
    assert CellsOf(vs, start, [], Eats) == none && CellsOf(vs, start, [], Speeds) == none;
    EraseNone(start.food, none);
    EraseNone(start.boosts, none);
    assert start.doomed + [] == start.doomed;
  }

  lemma EraseNone(items: Items, none: set<Pos>)
    requires none == {}
    ensures EraseAll(items, none) == items
  {
    DropNothing(items.keys, none);
    assert EraseAll(items, none).m == items.m;
  }

  lemma {:induction false} DoomedMembers(vs: Verdicts, done: seq<Int32>)
    requires forall x :: x in done ==> x in vs
    requires forall i, j :: 0 <= i < j < |done| ==> done[i] != done[j]
    ensures var d := DoomedOf(vs, done);
      && (forall id :: id in d <==> id in done && vs[id] == Dies)
      && (forall i, j :: 0 <= i < j < |d| ==> d[i] != d[j])
  {
    if done != [] {
      var n := |done| - 1;
      forall x | x in done[..n] ensures x in vs { assert x in done; }
      DoomedMembers(vs, done[..n]);
      assert done == done[..n] + [done[n]];
      assert done[n] !in done[..n];
    }
  }
}
