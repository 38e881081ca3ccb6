/** The iteration orders of the server's maps have no influence on a collision check: neither the order in
    which it looks at the players, nor the orders in which it meets them in a cell or on the grid. */
module Orders {
  import opened Sequences
  import opened LittleEndian
  import opened Chains
  import opened Engine
  import opened Collisions
  import opened Survivors

  ghost predicate Distinct(ids: seq<Int32>) {
    forall i, j :: 0 <= i < j < |ids| ==> ids[i] != ids[j]
  }

  // ---------- the grid ----------

  /** A player counts for the same wherever it comes in the order. */
  lemma {:induction false} BodyCountWithout(m: map<Int32, Player>, x: seq<Int32>, id: Int32, y: seq<Int32>, c: Pos)
    requires forall k :: k in x + [id] + y ==> k in m
    requires forall k :: k in x + y ==> k in m
    ensures id in m && BodyCount(m, x + [id] + y, c) == Occurrences(Body(m[id].chain), c) + BodyCount(m, x + y, c)
  {
    var all := x + [id] + y;
    assert id in all;
    if x == [] {
      assert all == [id] + y && x + y == y;
      assert all[1..] == y;
    } else {
      var k := x[0];
      assert all[0] == k && all[1..] == x[1..] + [id] + y && (x + y)[0] == k && (x + y)[1..] == x[1..] + y;
      forall i | i in x[1..] + [id] + y ensures i in m { assert i in all[1..]; }
      forall i | i in x[1..] + y ensures i in m { assert i in (x + y)[1..]; }
      BodyCountWithout(m, x[1..], id, y, c);
    }
  }

  lemma {:induction false} BodyCountOrder(m: map<Int32, Player>, a: seq<Int32>, b: seq<Int32>, c: Pos)
    requires Distinct(a) && Distinct(b) && (forall id :: id in a ==> id in m)
    requires forall id :: id in a <==> id in b
    ensures BodyCount(m, a, c) == BodyCount(m, b, c)
    decreases |a|
  {
    if a == [] {
      NotMore(b, a);
    } else {
      var id := a[0];
      assert id in b;
      var j :| 0 <= j < |b| && b[j] == id;
      var x, y := b[..j], b[j + 1..];
      assert b == x + [id] + y;
      WithoutOne(a, x, id, y);
      BodyCountWithout(m, x, id, y, c);
      BodyCountOrder(m, a[1..], x + y, c);
    }
  }

  /** Two orders without their common player. */
  lemma WithoutOne(a: seq<Int32>, x: seq<Int32>, id: Int32, y: seq<Int32>)
    requires a != [] && a[0] == id && Distinct(a) && Distinct(x + [id] + y)
    requires forall k :: k in a <==> k in x + [id] + y
    ensures Distinct(a[1..]) && Distinct(x + y)
    ensures forall k :: k in a[1..] <==> k in x + y
    ensures forall k :: k in x + y ==> k in a
  {
    var b := x + [id] + y;
    forall i | 0 <= i < |x + y| ensures (x + y)[i] == b[if i < |x| then i else i + 1] { }
    assert b[|x|] == id;
    forall k | k in x + y ensures k in b && k != id {
      var i :| 0 <= i < |x + y| && (x + y)[i] == k;
    }
    forall k | k in a[1..] ensures k in x + y {
      assert k in a && k in b && k != id;
    }
    assert a == [id] + a[1..];
  }

  lemma ShownOrder(x: Players, y: Players, c: Pos)
    requires x.m == y.m
    ensures Shown(x, c) == Shown(y, c)
  {
    BodyCountOrder(x.m, x.keys, y.keys, c);
  }

  // ---------- decisions ----------

  /** The same tables but for the order of their keys. */
  ghost predicate SameTables(a: Clash, b: Clash) {
    && a.players.m == b.players.m && a.food.m == b.food.m && a.boosts.m == b.boosts.m
    && a.high == b.high && a.doomed == b.doomed
  }

  /** What is decided about a player depends on the maps alone. */
  lemma DecisionIgnoresOrder(cfg: Config, x: Players, y: Players, a: Clash, b: Clash, id: Int32)
    requires x.m == y.m && SameTables(a, b) && id in a.players.m
    ensures Decide(cfg, x, a, id) == Decide(cfg, y, b, id)
  {
    ShownOrder(x, y, Head(a.players.m[id]));
    DiesExactlyWhen(cfg, x, a, id);
    DiesExactlyWhen(cfg, y, b, id);
    FedExactlyWhen(cfg, x, a, id);
    FedExactlyWhen(cfg, y, b, id);
    AloneOrder(a.players, b.players, id);
  }

  lemma AloneOrder(s: Players, t: Players, id: Int32)
    requires s.m == t.m && id in s.m
    ensures Alone(s, id) <==> Alone(t, id)
    ensures FirstInCell(s, id) <==> FirstInCell(t, id)
  {
  }

  lemma VerdictsIgnoreOrder(cfg: Config, x: Players, y: Players, a: Clash, b: Clash)
    requires x.m == y.m && SameTables(a, b)
    ensures VerdictsOf(cfg, x, a) == VerdictsOf(cfg, y, b)
  {
    forall id | id in a.players.m ensures Decide(cfg, x, a, id) == Decide(cfg, y, b, id) {
      DecisionIgnoresOrder(cfg, x, y, a, b, id);
    }
  }

  // ---------- the check ----------

  lemma SamePlayers(cfg: Config, vs: Verdicts, s: Players, t: Players, a: seq<Int32>, b: seq<Int32>, now: int,
      c: Players, d: Players)
    requires s.m == t.m && forall id :: id in a <==> id in b
    requires PlayersResolved(cfg, vs, s, a, now, c) && PlayersResolved(cfg, vs, t, b, now, d)
    ensures c.m == d.m && c.keys == s.keys && d.keys == t.keys
  {
  }

  lemma SameCells(vs: Verdicts, s: Clash, t: Clash, a: seq<Int32>, b: seq<Int32>, v: Verdict)
    requires Covers(vs, s, a) && Covers(vs, t, b) && s.players.m == t.players.m
    requires forall id :: id in a <==> id in b
    ensures CellsOf(vs, s, a, v) == CellsOf(vs, t, b, v)
  {
  }

  lemma SameDoomed(vs: Verdicts, a: seq<Int32>, b: seq<Int32>)
    requires forall x :: x in a ==> x in vs
    requires forall id :: id in a <==> id in b
    requires Distinct(a) && Distinct(b)
    ensures forall id :: id in DoomedOf(vs, a) <==> id in DoomedOf(vs, b)
    ensures |DoomedOf(vs, a)| == |DoomedOf(vs, b)|
  {
    DoomedMembers(vs, a);
    DoomedMembers(vs, b);
    NotMore(DoomedOf(vs, a), DoomedOf(vs, b));
    NotMore(DoomedOf(vs, b), DoomedOf(vs, a));
  }

  lemma DoomedIs(cfg: Config, vs: Verdicts, start: Clash, done: seq<Int32>, now: int, c: Clash)
    requires Resolved(cfg, vs, start, done, now, c) && start.doomed == []
    ensures c.doomed == DoomedOf(vs, done)
  {
    assert [] + DoomedOf(vs, done) == DoomedOf(vs, done);
  }

  lemma PeakUnique(cfg: Config, vs: Verdicts, s: Clash, t: Clash, a: seq<Int32>, b: seq<Int32>, now: int,
      p: int, q: int)
    requires Covers(vs, s, a) && Covers(vs, t, b) && s.players.m == t.players.m && s.high == t.high
    requires forall id :: id in a <==> id in b
    requires IsPeak(cfg, vs, s, a, now, p) && IsPeak(cfg, vs, t, b, now, q)
    ensures p == q
  {
    if p != s.high.score {
      var x :| x in a && p == Sentence(cfg, vs[x], s.players.m[x], now).score;
      assert x in b;
    }
    if q != t.high.score {
      var x :| x in b && q == Sentence(cfg, vs[x], t.players.m[x], now).score;
      assert x in a;
    }
  }

  /** The same outcome of a check, but for the order of keys and of the doomed; ties for the high score may
      go to different names. */
  ghost predicate SameOutcome(c: Clash, d: Clash) {
    && c.players.m == d.players.m && c.food.m == d.food.m && c.boosts.m == d.boosts.m
    && c.high.score == d.high.score
    && (forall id :: id in c.doomed <==> id in d.doomed) && |c.doomed| == |d.doomed|
  }

  ghost predicate SameKeys(c: Clash, d: Clash) {
    c.players.keys == d.players.keys && c.food.keys == d.food.keys && c.boosts.keys == d.boosts.keys
  }

  lemma SameResult(cfg: Config, vs: Verdicts, s: Clash, t: Clash, a: seq<Int32>, b: seq<Int32>, now: int,
      c: Clash, d: Clash)
    requires OrderOf(a, s.players) && OrderOf(b, t.players) && s.doomed == [] && SameTables(s, t)
    requires Resolved(cfg, vs, s, a, now, c) && Resolved(cfg, vs, t, b, now, d)
    ensures SameOutcome(c, d) && (SameKeys(s, t) ==> SameKeys(c, d))
  {
    SameMembers(a, b, s.players, t.players);
    SamePlayers(cfg, vs, s.players, t.players, a, b, now, c.players, d.players);
    SameCells(vs, s, t, a, b, Eats);
    SameCells(vs, s, t, a, b, Speeds);
    DoomedIs(cfg, vs, s, a, now, c);
    DoomedIs(cfg, vs, t, b, now, d);
    SameDoomed(vs, a, b);
    PeakUnique(cfg, vs, s, t, a, b, now, c.high.score, d.high.score);
  }

  lemma SameMembers(a: seq<Int32>, b: seq<Int32>, s: Players, t: Players)
    requires OrderOf(a, s) && OrderOf(b, t) && s.m == t.m
    ensures forall id :: id in a <==> id in b
  {
  }

  /** Order independence: two checks start with the same players, items and high score, whatever the
      iteration orders of the maps. The same players are marked for destruction and the players, the food, the
      boosts and the value of the high score come out the same. */
  lemma OrderIsIrrelevant(cfg: Config, x: Players, y: Players, s: Clash, t: Clash, a: seq<Int32>, b: seq<Int32>,
      now: int)
    requires x.m == y.m && SameTables(s, t) && s.doomed == []
    requires OrderOf(a, s.players) && OrderOf(b, t.players)
    ensures var c, d := CollideAll(cfg, x, s, a, now), CollideAll(cfg, y, t, b, now);
      SameOutcome(c, d) && (SameKeys(s, t) ==> SameKeys(c, d))
  {
    VerdictsIgnoreOrder(cfg, x, y, s, t);
    CheckIsVerdicts(cfg, x, s, a, now);
    CheckIsVerdicts(cfg, y, t, b, now);
    SameResult(cfg, VerdictsOf(cfg, x, s), s, t, a, b, now,
               CollideAll(cfg, x, s, a, now), CollideAll(cfg, y, t, b, now));
  }

  /** The same for the whole check, destruction included; only the food that the dead leave behind depends
      on the order in which it is drawn for. */
  lemma WholeCheckIgnoresOrder(cfg: Config, g: Game, h: Game, now: int)
    requires SameTables(StartClash(g), StartClash(h))
    ensures var a, b := CheckCollisions(cfg, g, now), CheckCollisions(cfg, h, now);
      a.players.m == b.players.m && a.boosts.m == b.boosts.m && a.high.score == b.high.score
  {
    var s, t := StartClash(g), StartClash(h);
    OrderIsIrrelevant(cfg, g.players, h.players, s, t, g.players.keys, h.players.keys, now);
    CheckDestroys(cfg, g, now);
    CheckDestroys(cfg, h, now);
    VerdictsIgnoreOrder(cfg, g.players, h.players, s, t);
    CheckOutcome(cfg, g, now);
    CheckOutcome(cfg, h, now);
    SameMap(CheckCollisions(cfg, g, now).players.m, CheckCollisions(cfg, h, now).players.m);
  }

  lemma SameMap(a: map<Int32, Player>, b: map<Int32, Player>)
    requires forall id :: id in a <==> id in b
    requires forall id :: id in a ==> a[id] == b[id]
    ensures a == b
  {
  }

  lemma CheckDestroys(cfg: Config, g: Game, now: int)
    ensures var c := CollideAll(cfg, g.players, StartClash(g), g.players.keys, now);
      var h := CheckCollisions(cfg, g, now);
      h.boosts == c.boosts && h.high == c.high
  {
    CheckResolved(cfg, g, now);
    DoomedMembers(VerdictsOf(cfg, g.players, StartClash(g)), g.players.keys);
    var c := CollideAll(cfg, g.players, StartClash(g), g.players.keys, now);
    DestroyRemoves(cfg, AfterClash(g, c), c.doomed);
  }
}
