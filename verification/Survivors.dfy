/** Who is alive after a collision check, and where. */
module Survivors {
  import opened Arithmetic
  import opened LittleEndian
  import opened Tables
  import opened Chains
  import opened Engine
  import opened Collisions

  // ---------- destroying players ----------

  lemma {:induction false} DestroyRemoves(cfg: Config, g: Game, ids: seq<Int32>)
    requires forall id :: id in ids ==> id in g.players.m
    requires forall i, j :: 0 <= i < j < |ids| ==> ids[i] != ids[j]
    ensures var h := DestroyPlayers(cfg, g, ids);
      && (forall id :: id in h.players.m <==> id in g.players.m && id !in ids)
      && (forall id :: id in h.players.m ==> h.players.m[id] == g.players.m[id])
      && h.boosts == g.boosts && h.high == g.high
    decreases |ids|
  {
    if ids != [] {
      assert ids[0] in ids;
      var next := DestroyPlayer(cfg, g, ids[0]);
      forall id | id in ids[1..] ensures id in next.players.m { assert id in ids; }
      DestroyRemoves(cfg, next, ids[1..]);
    }
  }

  // ---------- the grid ----------

  lemma {:induction false} NoOccurrence(cells: seq<Pos>, c: Pos)
    ensures Occurrences(cells, c) == 0 <==> c !in cells
    ensures Occurrences(cells, c) <= |cells|
  {
    if cells != [] { NoOccurrence(cells[1..], c); }
  }

  /** Body segments of all snakes together. */
  function TotalBody(m: map<Int32, Player>, ids: seq<Int32>): nat
    requires forall id :: id in ids ==> id in m
  {
    if ids == [] then 0 else |Body(m[ids[0]].chain)| + TotalBody(m, ids[1..])
  }

  lemma {:induction false} NoBody(m: map<Int32, Player>, ids: seq<Int32>, c: Pos)
    requires forall id :: id in ids ==> id in m
    ensures BodyCount(m, ids, c) == 0 <==> forall id :: id in ids ==> c !in Body(m[id].chain)
    ensures BodyCount(m, ids, c) <= TotalBody(m, ids)
  {
    if ids != [] {
      assert ids[0] in ids;
      forall id | id in ids[1..] ensures id in m { assert id in ids; }
      NoOccurrence(Body(m[ids[0]].chain), c);
      NoBody(m, ids[1..], c);
      assert forall id :: id in ids <==> id == ids[0] || id in ids[1..];
    }
  }

  /** With fewer than 65536 body segments in the arena a counter shows 0 exactly over a free cell. */
  lemma ShownIsExact(t: Players, c: Pos)
    requires TotalBody(t.m, t.keys) < 65536
    ensures Shown(t, c) == BodyCount(t.m, t.keys, c)
    ensures Shown(t, c) == 0 <==> forall id :: id in t.m ==> c !in Body(t.m[id].chain)
  {
    NoBody(t.m, t.keys, c);
  }

  // ---------- survival ----------

  /** No other player's head is in the same cell unless it would arrive later. */
  ghost predicate FirstInCell(t: Players, id: Int32)
    requires id in t.m
  {
    forall other :: other in t.m && other != id && Head(t.m[other]) == Head(t.m[id]) ==> Before(t.m, id, other)
  }

  lemma NoRival(t: Players, id: Int32, other: Int32)
    requires id in t.m && other in t.m && other != id && |HeadsIn(t.m, t.keys, Head(t.m[id]))| <= 1
    ensures Head(t.m[other]) != Head(t.m[id])
  {
    if Head(t.m[other]) == Head(t.m[id]) { AloneInCell(t, id, other); }
  }

  lemma DiesExactlyWhen(cfg: Config, bodies: Players, c: Clash, id: Int32)
    requires id in c.players.m
    ensures Decide(cfg, bodies, c, id) != Dies <==>
      InArena(cfg, Head(c.players.m[id])) && Shown(bodies, Head(c.players.m[id])) == 0 && FirstInCell(c.players, id)
  {
    var t := c.players;
    var head := Head(t.m[id]);
    var heads := HeadsIn(t.m, t.keys, head);
    assert id in heads;
    var e := Earliest(t.m, heads);
    if |heads| <= 1 {
      forall other | other in t.m && other != id ensures Head(t.m[other]) != head {
        NoRival(t, id, other);
      }
    } else if id == e {
      forall other | other in t.m && other != id && Head(t.m[other]) == head ensures Before(t.m, id, other) {
        assert other in heads;
      }
    } else {
      assert e in t.m && Head(t.m[e]) == head && Before(t.m, e, id);
    }
  }

  /** A player is fed exactly when its head is inside and over food, on no body and alone in its cell;
      it is boosted exactly when the same holds with a boost and no food there. */
  lemma FedExactlyWhen(cfg: Config, bodies: Players, c: Clash, id: Int32)
    requires id in c.players.m
    ensures var head := Head(c.players.m[id]);
      var free := InArena(cfg, head) && Shown(bodies, head) == 0 && Alone(c.players, id);
      && (Decide(cfg, bodies, c, id) == Eats <==> free && head in c.food.m)
      && (Decide(cfg, bodies, c, id) == Speeds <==> free && head !in c.food.m && head in c.boosts.m)
  {
    var t := c.players;
    if |HeadsIn(t.m, t.keys, Head(t.m[id]))| <= 1 {
      forall other | other in t.m && other != id ensures Head(t.m[other]) != Head(t.m[id]) {
        NoRival(t, id, other);
      }
    } else {
      var other := Rival(t, id);
    }
  }

  /** No other player's head is in the same cell. */
  ghost predicate Alone(t: Players, id: Int32)
    requires id in t.m
  {
    forall other :: other in t.m && other != id ==> Head(t.m[other]) != Head(t.m[id])
  }

  lemma Rival(t: Players, id: Int32) returns (other: Int32)
    requires id in t.m && |HeadsIn(t.m, t.keys, Head(t.m[id]))| > 1
    ensures other in t.m && other != id && Head(t.m[other]) == Head(t.m[id])
  {
    var heads := HeadsIn(t.m, t.keys, Head(t.m[id]));
    HeadsDiffer(t.m, t.keys, Head(t.m[id]));
    other := if heads[0] == id then heads[1] else heads[0];
    assert other in heads;
  }

  lemma {:induction false} HeadsDiffer(m: map<Int32, Player>, ids: seq<Int32>, c: Pos)
    requires forall id :: id in ids ==> id in m
    requires forall i, j :: 0 <= i < j < |ids| ==> ids[i] != ids[j]
    ensures forall i, j :: 0 <= i < j < |HeadsIn(m, ids, c)| ==> HeadsIn(m, ids, c)[i] != HeadsIn(m, ids, c)[j]
  {
    if ids != [] {
      forall id | id in ids[1..] ensures id in m { assert id in ids; }
      HeadsDiffer(m, ids[1..], c);
      assert ids[0] !in ids[1..];
      var later := HeadsIn(m, ids[1..], c);
      forall i | 0 <= i < |later| ensures later[i] != ids[0] { assert later[i] in later; }
    }
  }

  // ---------- where food comes from ----------

  lemma {:induction false} ScatterOnBodies(cfg: Config, food: Items, gen: nat, cells: seq<Pos>, color: int)
    ensures forall c :: c in Scatter(cfg, food, gen, cells, color).0.m ==> c in food.m || c in cells
    ensures forall c :: c in food.m ==> c in Scatter(cfg, food, gen, cells, color).0.m
    decreases |cells|
  {
    if cells != [] {
      var (v, g) := Draw(cfg, gen, 1, FOOD_SPAWN_FROM_BODY_SEGMENT_PROBABILITY);
      ScatterOnBodies(cfg, if v == 1 then PlaceFoodAt(food, cells[0], color) else food, g, cells[1..], color);
    }
  }

  /** Food after destroying players: what was there, and perhaps cells of their bodies. */
  lemma {:induction false} DestroyFeeds(cfg: Config, g: Game, ids: seq<Int32>, c: Pos)
    requires c in DestroyPlayers(cfg, g, ids).food.m
    ensures c in g.food.m || exists id :: id in ids && id in g.players.m && c in Body(g.players.m[id].chain)
    decreases |ids|
  {
    if ids != [] && Has(g.players, ids[0]) {
      var next := DestroyPlayer(cfg, g, ids[0]);
      DestroyFeeds(cfg, next, ids[1..], c);
      ScatterOnBodies(cfg, g.food, g.gen, Body(g.players.m[ids[0]].chain), g.players.m[ids[0]].color);
      if c !in next.food.m {
        var id :| id in ids[1..] && id in next.players.m && c in Body(next.players.m[id].chain);
        assert id in ids;
      } else if c !in g.food.m {
        assert ids[0] in ids;
      }
    }
  }

  lemma {:induction false} DestroyKeepsFood(cfg: Config, g: Game, ids: seq<Int32>)
    ensures forall c :: c in g.food.m ==> c in DestroyPlayers(cfg, g, ids).food.m
    decreases |ids|
  {
    if ids != [] && Has(g.players, ids[0]) {
      ScatterOnBodies(cfg, g.food, g.gen, Body(g.players.m[ids[0]].chain), g.players.m[ids[0]].color);
      DestroyKeepsFood(cfg, DestroyPlayer(cfg, g, ids[0]), ids[1..]);
    }
  }

  /** Someone was fed in cell c. */
  ghost predicate Eaten(cfg: Config, g: Game, c: Pos) {
    exists id :: id in g.players.m && Head(g.players.m[id]) == c && Decide(cfg, g.players, StartClash(g), id) == Eats
  }

  /** A body segment of a player told to die was in cell c. */
  ghost predicate LeftBehind(cfg: Config, g: Game, c: Pos) {
    exists id :: id in g.players.m && c in Body(g.players.m[id].chain)
      && Decide(cfg, g.players, StartClash(g), id) == Dies
  }

  /** A check loses no food but what was eaten, and makes none but on the bodies of the dead. */
  lemma FoodAfterCheck(cfg: Config, g: Game, now: int, c: Pos)
    ensures c in g.food.m && !Eaten(cfg, g, c) ==> c in CheckCollisions(cfg, g, now).food.m
    ensures c in CheckCollisions(cfg, g, now).food.m ==> (c in g.food.m && !Eaten(cfg, g, c)) || LeftBehind(cfg, g, c)
  {
    var start := StartClash(g);
    var vs := VerdictsOf(cfg, g.players, start);
    var x := CollideAll(cfg, g.players, start, g.players.keys, now);
    FoodChecked(cfg, g, now, c);
    DestroyKeepsFood(cfg, AfterClash(g, x), x.doomed);
    if c in CheckCollisions(cfg, g, now).food.m && c !in x.food.m {
      DestroyFeeds(cfg, AfterClash(g, x), x.doomed, c);
      var id :| id in x.doomed && id in x.players.m && c in Body(x.players.m[id].chain);
      CheckResolved(cfg, g, now);
      DoomedMembers(vs, g.players.keys);
      assert x.players.m[id] == Sentence(cfg, vs[id], g.players.m[id], now);
    }
  }

  lemma FoodChecked(cfg: Config, g: Game, now: int, c: Pos)
    ensures var x := CollideAll(cfg, g.players, StartClash(g), g.players.keys, now);
      c in x.food.m <==> c in g.food.m && !Eaten(cfg, g, c)
  {
    var start := StartClash(g);
    assert OrderOf(g.players.keys, start.players);
    CheckIsVerdicts(cfg, g.players, start, g.players.keys, now);
    EatenCells(cfg, g, c);
  }

  lemma EatenCells(cfg: Config, g: Game, c: Pos)
    ensures var start := StartClash(g);
      var vs := VerdictsOf(cfg, g.players, start);
      Covers(vs, start, g.players.keys) && (c in CellsOf(vs, start, g.players.keys, Eats) <==> Eaten(cfg, g, c))
  {
  }

  lemma CheckResolved(cfg: Config, g: Game, now: int)
    ensures var vs := VerdictsOf(cfg, g.players, StartClash(g));
      var c := CollideAll(cfg, g.players, StartClash(g), g.players.keys, now);
      && PlayersResolved(cfg, vs, g.players, g.players.keys, now, c.players)
      && c.doomed == DoomedOf(vs, g.players.keys)
  {
    var start := StartClash(g);
    assert OrderOf(g.players.keys, start.players);
    CheckIsVerdicts(cfg, g.players, start, g.players.keys, now);
    var doomed := DoomedOf(VerdictsOf(cfg, g.players, start), g.players.keys);
    assert [] + doomed == doomed;
  }

  lemma ResolvedOutcome(cfg: Config, vs: Verdicts, g: Game, c: Clash, now: int)
    requires vs.Keys == g.players.m.Keys
    requires PlayersResolved(cfg, vs, g.players, g.players.keys, now, c.players)
    requires c.doomed == DoomedOf(vs, g.players.keys)
    ensures var t := DestroyPlayers(cfg, AfterClash(g, c), c.doomed).players;
      && (forall id :: id in t.m <==> id in g.players.m && vs[id] != Dies)
      && (forall id :: id in t.m ==> t.m[id] == Sentence(cfg, vs[id], g.players.m[id], now))
  {
    DoomedMembers(vs, g.players.keys);
    DestroyRemoves(cfg, AfterClash(g, c), c.doomed);
  }

  /** The check as a whole: who dies is destroyed, everybody else has had the verdict carried out. */
  lemma CheckOutcome(cfg: Config, g: Game, now: int)
    ensures var t, vs := CheckCollisions(cfg, g, now).players, VerdictsOf(cfg, g.players, StartClash(g));
      && (forall id :: id in t.m <==> id in g.players.m && vs[id] != Dies)
      && (forall id :: id in t.m ==> t.m[id] == Sentence(cfg, vs[id], g.players.m[id], now))
  {
    CheckResolved(cfg, g, now);
    ResolvedOutcome(cfg, VerdictsOf(cfg, g.players, StartClash(g)), g,
                    CollideAll(cfg, g.players, StartClash(g), g.players.keys, now), now);
  }

  /** A player survives a check exactly when its head is in the arena, over a cell where the grid shows
      nothing, and it is the first of the players whose heads are there. */
  lemma SurvivesExactlyWhen(cfg: Config, g: Game, now: int, id: Int32)
    ensures var h := CheckCollisions(cfg, g, now);
      id in h.players.m <==>
        id in g.players.m && InArena(cfg, Head(g.players.m[id])) && Shown(g.players, Head(g.players.m[id])) == 0
        && FirstInCell(g.players, id)
    ensures var h := CheckCollisions(cfg, g, now);
      id in h.players.m ==>
        h.players.m[id] == Sentence(cfg, Decide(cfg, g.players, StartClash(g), id), g.players.m[id], now)
  {
    CheckOutcome(cfg, g, now);
    if id in g.players.m { DiesExactlyWhen(cfg, g.players, StartClash(g), id); }
  }

  /** Right after a check every head is in the arena and no two heads share a cell. */
  lemma SurvivorsAreApart(cfg: Config, g: Game, now: int)
    ensures var t := CheckCollisions(cfg, g, now).players;
      && (forall id :: id in t.m ==> InArena(cfg, Head(t.m[id])))
      && (forall a, b :: a in t.m && b in t.m && a != b ==> Head(t.m[a]) != Head(t.m[b]))
  {
    var t := CheckCollisions(cfg, g, now).players;
    forall id | id in t.m
      ensures id in g.players.m && Head(t.m[id]) == Head(g.players.m[id]) && InArena(cfg, Head(t.m[id]))
    {
      Survivor(cfg, g, now, id);
    }
    forall a, b | a in t.m && b in t.m && a != b ensures Head(t.m[a]) != Head(t.m[b]) {
      Survivor(cfg, g, now, a);
      Survivor(cfg, g, now, b);
    }
  }

  lemma Survivor(cfg: Config, g: Game, now: int, id: Int32)
    requires id in CheckCollisions(cfg, g, now).players.m
    ensures id in g.players.m && FirstInCell(g.players, id)
    ensures Head(CheckCollisions(cfg, g, now).players.m[id]) == Head(g.players.m[id])
    ensures InArena(cfg, Head(g.players.m[id])) && Shown(g.players, Head(g.players.m[id])) == 0
  {
    SurvivesExactlyWhen(cfg, g, now, id);
    SentenceKeepsHead(cfg, Decide(cfg, g.players, StartClash(g), id), g.players.m[id], now);
  }

  /** A surviving head is on no body segment that was there when the check began, its own included. */
  lemma SurvivorsAreFree(cfg: Config, g: Game, now: int, a: Int32, b: Int32)
    requires TotalBody(g.players.m, g.players.keys) < 65536
    requires a in CheckCollisions(cfg, g, now).players.m && b in g.players.m
    ensures Head(CheckCollisions(cfg, g, now).players.m[a]) !in Body(g.players.m[b].chain)
  {
    Survivor(cfg, g, now, a);
    ShownIsExact(g.players, Head(g.players.m[a]));
  }

  lemma PositionsOneMore(c: seq<Node>, n: Node)
    ensures Positions(c + [n]) == Positions(c) + [n.pos]
  {
    forall i | 0 <= i < |c| ensures Positions(c + [n])[i] == Positions(c)[i] { assert (c + [n])[i] == c[i]; }
  }

  lemma TailOneMore(cells: seq<Pos>, p: Pos)
    requires cells != []
    ensures (cells + [p])[1..] == cells[1..] + [p]
  {
  }

  lemma BodyGrows(c: Chain)
    ensures Body(Grow(c)) == Body(c) + [c[|c| - 1].prev]
  {
    var p := c[|c| - 1].prev;
    GrowAt(c);
    PositionsOneMore(c, Node(p, p));
    TailOneMore(Positions(c), p);
  }

  /** Growing by being fed is all that a check does to a body. */
  lemma BodyAfterCheck(cfg: Config, g: Game, now: int, id: Int32)
    requires id in CheckCollisions(cfg, g, now).players.m
    ensures id in g.players.m
    ensures var c := g.players.m[id].chain;
      Body(CheckCollisions(cfg, g, now).players.m[id].chain) ==
        Body(c) + if Decide(cfg, g.players, StartClash(g), id) == Eats then [c[|c| - 1].prev] else []
  {
    SurvivesExactlyWhen(cfg, g, now, id);
    var c := g.players.m[id].chain;
    BodyGrows(c);
    assert Body(c) + [] == Body(c);
  }

  /** After the check, a surviving head is on a surviving body exactly where that was fed in the same check
      and has grown its new last segment under the head. */
  lemma OnGrownSegmentsOnly(cfg: Config, g: Game, now: int, a: Int32, b: Int32)
    requires TotalBody(g.players.m, g.players.keys) < 65536
    requires a in CheckCollisions(cfg, g, now).players.m && b in CheckCollisions(cfg, g, now).players.m
    ensures b in g.players.m
    ensures var t, c := CheckCollisions(cfg, g, now).players, g.players.m[b].chain;
      var fed := Decide(cfg, g.players, StartClash(g), b) == Eats;
      && (Head(t.m[a]) in Body(t.m[b].chain) <==> fed && Head(t.m[a]) == c[|c| - 1].prev)
      && forall i :: 0 <= i < |Body(t.m[b].chain)| && Body(t.m[b].chain)[i] == Head(t.m[a]) ==>
           fed && i == |Body(t.m[b].chain)| - 1
  {
    BodyAfterCheck(cfg, g, now, b);
    SurvivorsAreFree(cfg, g, now, a, b);
    var head, before := Head(CheckCollisions(cfg, g, now).players.m[a]), Body(g.players.m[b].chain);
    forall i | 0 <= i < |before| ensures before[i] != head { assert before[i] in before; }
  }

  /** This happens: a snake that is fed before it has moved grows its second segment under its own head. */
  lemma FedWhereItSpawned(cfg: Config, g: Game, now: int, id: Int32)
    requires id in g.players.m && g.players.m[id].chain == Spawn(Head(g.players.m[id]))
    requires InArena(cfg, Head(g.players.m[id])) && Shown(g.players, Head(g.players.m[id])) == 0
    requires Alone(g.players, id) && Head(g.players.m[id]) in g.food.m
    ensures var t := CheckCollisions(cfg, g, now).players;
      id in t.m && Head(t.m[id]) in Body(t.m[id].chain)
  {
    SurvivesExactlyWhen(cfg, g, now, id);
    FedExactlyWhen(cfg, g.players, StartClash(g), id);
    BodyAfterCheck(cfg, g, now, id);
    Survivor(cfg, g, now, id);
    var body := Body(CheckCollisions(cfg, g, now).players.m[id].chain);
    assert body[|body| - 1] == Head(g.players.m[id]);
  }

  /** Of the players contesting a free cell in the arena exactly the first survives. */
  lemma ContestHasOneWinner(cfg: Config, g: Game, now: int, c: Pos)
    requires InArena(cfg, c) && Shown(g.players, c) == 0
    requires HeadsIn(g.players.m, g.players.keys, c) != []
    ensures var heads := HeadsIn(g.players.m, g.players.keys, c);
      forall id :: id in heads ==>
        (id in CheckCollisions(cfg, g, now).players.m <==> id == Earliest(g.players.m, heads))
  {
    var t := g.players;
    var heads := HeadsIn(t.m, t.keys, c);
    var e := Earliest(t.m, heads);
    forall id | id in heads ensures id in CheckCollisions(cfg, g, now).players.m <==> id == e {
      SurvivesExactlyWhen(cfg, g, now, id);
      if id == e {
        forall other | other in t.m && other != id && Head(t.m[other]) == Head(t.m[id]) ensures Before(t.m, id, other) {
          assert other in heads;
        }
      } else {
        assert e in t.m && Head(t.m[e]) == c && Before(t.m, e, id);
      }
    }
  }

  // ---------- the index map of the grid ----------

  lemma IndexInRange(cfg: Config, c: Pos)
    requires InArena(cfg, c)
    ensures 0 <= Index(cfg, c) < cfg.width * cfg.height
  {
    assert (c.y - 1) * cfg.width <= (cfg.height - 1) * cfg.width;
    assert (cfg.height - 1) * cfg.width + cfg.width == cfg.width * cfg.height;
  }

  /** Different cells of the arena have different counters. */
  lemma IndexInjective(cfg: Config, a: Pos, b: Pos)
    requires InArena(cfg, a) && InArena(cfg, b) && Index(cfg, a) == Index(cfg, b)
    ensures a == b
  {
    CellUnique(cfg, a);
    CellUnique(cfg, b);
  }

  function CellAt(cfg: Config, i: int): Pos {
    Pos(i % cfg.width + 1, i / cfg.width + 1)
  }

  lemma CellUnique(cfg: Config, c: Pos)
    requires InArena(cfg, c)
    ensures CellAt(cfg, Index(cfg, c)) == c
  {
    var w, q, r := cfg.width, c.y - 1, c.x - 1;
    DivMod(q, w, r);
  }

  /** Every counter belongs to a cell of the arena. */
  lemma IndexOnto(cfg: Config, i: int)
    requires 0 <= i < cfg.width * cfg.height
    ensures InArena(cfg, CellAt(cfg, i)) && Index(cfg, CellAt(cfg, i)) == i
  {
    var w := cfg.width;
    assert i == (i / w) * w + i % w;
    if i / w >= cfg.height { Scaled(cfg.height, i / w, w); }
  }
}