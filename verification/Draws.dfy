/**
 What is drawn from the random source and what comes of it: where food and boosts appear, and when. The
 draws are listed here one after another, apart from the engine that makes them.
 */
module Draws {
  import opened LittleEndian
  import opened Protocol
  import opened Chains
  import opened Engine
  import opened Collisions
  import opened Survivors

  /** n numbers from 1 to sides, and the next state of the source. */
  function Dice(cfg: Config, gen: nat, n: nat, sides: int): (seq<int>, nat)
    requires sides >= 1
    decreases n
  {
    if n == 0 then ([], gen)
    else
      var (v, g) := cfg.draw(gen, 1, sides);
      var (more, end) := Dice(cfg, g, n - 1, sides);
      ([v] + more, end)
  }

  /** n cells, the column first, of all but the last column and row. */
  function Cells(cfg: Config, gen: nat, n: nat): (seq<Pos>, nat)
    decreases n
  {
    if n == 0 then ([], gen)
    else
      var (x, g) := cfg.draw(gen, 1, cfg.width - 1);
      var (y, h) := cfg.draw(g, 1, cfg.height - 1);
      var (more, end) := Cells(cfg, h, n - 1);
      ([Pos(x, y)] + more, end)
  }

  // ---------- food ----------

  /** Food on these cells, white, in place of what was there. */
  ghost predicate Laid(before: map<Pos, Food>, cells: seq<Pos>, after: map<Pos, Food>) {
    && (forall c :: c in after <==> c in before || c in cells)
    && (forall c :: c in after ==> after[c] == if c in cells then Food(1, '@', c.x, c.y) else before[c])
  }

  lemma LaidCons(before: map<Pos, Food>, c: Pos, later: seq<Pos>, after: map<Pos, Food>)
    requires Laid(before[c := Food(1, '@', c.x, c.y)], later, after)
    ensures Laid(before, [c] + later, after)
  {
    assert forall x :: x in [c] + later <==> x == c || x in later;
  }

  lemma {:induction false} CellsLength(cfg: Config, gen: nat, n: nat)
    ensures |Cells(cfg, gen, n).0| == n
    decreases n
  {
    if n > 0 { CellsLength(cfg, cfg.draw(cfg.draw(gen, 1, cfg.width - 1).1, 1, cfg.height - 1).1, n - 1); }
  }

  lemma KeyCount(t: Items)
    ensures |t.keys| == |t.m.Keys|
  {
    Count(t.keys, t.m.Keys);
  }

  lemma {:induction false} Count(keys: seq<Pos>, s: set<Pos>)
    requires forall p :: p in keys <==> p in s
    requires forall i, j :: 0 <= i < j < |keys| ==> keys[i] != keys[j]
    ensures |keys| == |s|
  {
    if keys != [] {
      var p := keys[0];
      assert p in keys;
      forall q ensures q in keys[1..] <==> q in s - {p} {
        assert q in keys <==> q == p || q in keys[1..];
      }
      Count(keys[1..], s - {p});
    }
  }

  /** The cells that hold food once some more have been laid. */
  function Covered(before: map<Pos, Food>, cells: seq<Pos>): set<Pos> {
    before.Keys + set c | c in cells
  }

  /** There is too little food before the last of these cells, and enough after it. */
  ghost predicate JustEnough(before: map<Pos, Food>, cells: seq<Pos>) {
    |Covered(before, cells)| >= 6 && forall j :: 0 <= j < |cells| ==> |Covered(before, cells[..j])| < 6
  }

  lemma CoveredCons(before: map<Pos, Food>, next: map<Pos, Food>, c: Pos, cells: seq<Pos>)
    requires next.Keys == before.Keys + {c}
    ensures Covered(before, [c] + cells) == Covered(next, cells)
  {
    assert forall x :: x in [c] + cells <==> x == c || x in cells;
  }

  lemma JustEnoughCons(before: map<Pos, Food>, next: map<Pos, Food>, c: Pos, later: seq<Pos>)
    requires next.Keys == before.Keys + {c} && |before.Keys| < 6 && JustEnough(next, later)
    ensures JustEnough(before, [c] + later)
  {
    var cells := [c] + later;
    CoveredCons(before, next, c, later);
    forall j: nat | j < |cells| ensures |Covered(before, cells[..j])| < 6 {
      if j == 0 {
        assert Covered(before, cells[..0]) == before.Keys;
      } else {
        var i: nat := j - 1;
        assert cells[..j] == [c] + later[..i];
        CoveredCons(before, next, c, later[..i]);
        assert |Covered(next, later[..i])| < 6;
      }
    }
  }

  lemma NoneNeeded(before: map<Pos, Food>)
    requires |before.Keys| >= 6
    ensures JustEnough(before, []) && Laid(before, [], before)
  {
    assert Covered(before, []) == before.Keys;
  }

  /** These cells are the next k drawn, and laying food on them is what happens. */
  ghost predicate DrawnAndLaid(cfg: Config, food: map<Pos, Food>, gen: nat, k: nat, after: map<Pos, Food>, end: nat) {
    var (cells, next) := Cells(cfg, gen, k);
    end == next && Laid(food, cells, after) && JustEnough(food, cells)
  }

  lemma CellsCons(cfg: Config, gen: nat, k: nat, c: Pos, g: nat)
    requires c.x == cfg.draw(gen, 1, cfg.width - 1).0
    requires var h := cfg.draw(gen, 1, cfg.width - 1).1; (c.y, g) == cfg.draw(h, 1, cfg.height - 1)
    ensures Cells(cfg, gen, k + 1) == ([c] + Cells(cfg, g, k).0, Cells(cfg, g, k).1)
  {
  }

  lemma OneMoreCell(
    cfg: Config, food: map<Pos, Food>, gen: nat, c: Pos, g: nat, k: nat, after: map<Pos, Food>, end: nat)
    requires |food.Keys| < 6
    requires c.x == cfg.draw(gen, 1, cfg.width - 1).0
    requires var h := cfg.draw(gen, 1, cfg.width - 1).1; (c.y, g) == cfg.draw(h, 1, cfg.height - 1)
    requires DrawnAndLaid(cfg, food[c := Food(1, '@', c.x, c.y)], g, k, after, end)
    ensures DrawnAndLaid(cfg, food, gen, k + 1, after, end)
  {
    CellsCons(cfg, gen, k, c, g);
    LaidCons(food, c, Cells(cfg, g, k).0, after);
    JustEnoughCons(food, food[c := Food(1, '@', c.x, c.y)], c, Cells(cfg, g, k).0);
  }

  lemma CellOfFood(cfg: Config, food: Items, gen: nat) returns (c: Pos)
    ensures c.x == cfg.draw(gen, 1, cfg.width - 1).0
    ensures var h := cfg.draw(gen, 1, cfg.width - 1).1;
      (c.y, PlaceFood(cfg, food, gen).1) == cfg.draw(h, 1, cfg.height - 1)
    ensures PlaceFood(cfg, food, gen).0.m == food.m[c := Food(1, '@', c.x, c.y)]
  {
    var h := cfg.draw(gen, 1, cfg.width - 1).1;
    c := Pos(cfg.draw(gen, 1, cfg.width - 1).0, cfg.draw(h, 1, cfg.height - 1).0);
  }

  lemma RefillTurn(cfg: Config, food: Items, gen: nat, n: nat, f: Items, g: nat)
    requires |food.keys| < MIN_FOOD_IN_ARENA && Refilled(cfg, food, gen, n) && PlaceFood(cfg, food, gen) == (f, g)
    ensures n > 0 && Refilled(cfg, f, g, n - 1) && Refill(cfg, f, g, n - 1) == Refill(cfg, food, gen, n)
  {
  }

  /** The refilling loop draws a column and a row for each cell and stops as soon as there is enough. */
  lemma {:induction false} RefillDraws(cfg: Config, food: Items, gen: nat, n: nat, after: Items, end: nat)
    returns (k: nat)
    requires Refilled(cfg, food, gen, n) && Refill(cfg, food, gen, n) == (after, end)
    ensures DrawnAndLaid(cfg, food.m, gen, k, after.m, end)
    decreases n
  {
    KeyCount(food);
    if |food.keys| >= MIN_FOOD_IN_ARENA {
      k := 0;
      NoneNeeded(food.m);
    } else {
      var (f, g) := PlaceFood(cfg, food, gen);
      RefillTurn(cfg, food, gen, n, f, g);
      var c := CellOfFood(cfg, food, gen);
      k := RefillDraws(cfg, f, g, n - 1, after, end);
      OneMoreCell(cfg, food.m, gen, c, g, k, after.m, end);
      k := k + 1;
    }
  }

  /** At the start of a tick white food is laid on the next cells drawn, until six cells hold food and no
      longer. */
  lemma FoodIsReplaced(cfg: Config, g: Game) returns (k: nat)
    requires Fair(cfg)
    ensures var h := ReplaceFoodIn(cfg, g);
      h == g.(food := h.food, gen := h.gen) && DrawnAndLaid(cfg, g.food.m, g.gen, k, h.food.m, h.gen)
  {
    assert Refillable(cfg, g.food, g.gen);
    var n: nat :| Refilled(cfg, g.food, g.gen, n);
    ReplaceFoodIs(cfg, g.food, g.gen, n);
    var (after, end) := Refill(cfg, g.food, g.gen, n);
    k := RefillDraws(cfg, g.food, g.gen, n, after, end);
  }

  // ---------- what the dead leave behind ----------

  /** The body segments of some snakes, in order, each with its snake's colour. */
  function Remains(m: map<Int32, Player>, ids: seq<Int32>): seq<(Pos, int)>
    requires forall id :: id in ids ==> id in m
  {
    if ids == [] then [] else Coloured(Body(m[ids[0]].chain), m[ids[0]].color) + Remains(m, ids[1..])
  }

  function Coloured(cells: seq<Pos>, color: int): (r: seq<(Pos, int)>)
    ensures |r| == |cells| && forall i :: 0 <= i < |r| ==> r[i] == (cells[i], color)
  {
    if cells == [] then [] else [(cells[0], color)] + Coloured(cells[1..], color)
  }

  /** The last segment in cell c whose die shows 1, or -1. */
  function LastHit(remains: seq<(Pos, int)>, dice: seq<int>, c: Pos): (k: int)
    requires |dice| == |remains|
    ensures -1 <= k < |remains|
    ensures k >= 0 ==> remains[k].0 == c && dice[k] == 1
    ensures forall j :: k < j < |remains| && remains[j].0 == c ==> dice[j] != 1
  {
    var n := |remains| - 1;
    if n < 0 then -1
    else if remains[n].0 == c && dice[n] == 1 then n
    else LastHit(remains[..n], dice[..n], c)
  }

  /** Food where a die shows 1, in the colour of the last such segment in the cell; elsewhere as before. */
  ghost predicate StrewnAt(
    before: map<Pos, Food>, remains: seq<(Pos, int)>, dice: seq<int>, after: map<Pos, Food>, c: Pos)
    requires |dice| == |remains|
  {
    var k := LastHit(remains, dice, c);
    if k >= 0 then c in after && after[c] == Food(remains[k].1, '@', c.x, c.y)
    else (c in after <==> c in before) && (c in after ==> after[c] == before[c])
  }

  ghost predicate Strewn(before: map<Pos, Food>, remains: seq<(Pos, int)>, dice: seq<int>, after: map<Pos, Food>) {
    |dice| == |remains| && forall c :: StrewnAt(before, remains, dice, after, c)
  }

  lemma LastHitMore(x: seq<(Pos, int)>, a: seq<int>, p: (Pos, int), d: int, c: Pos)
    requires |a| == |x|
    ensures LastHit(x + [p], a + [d], c) == if p.0 == c && d == 1 then |x| else LastHit(x, a, c)
  {
    var y, b, n := x + [p], a + [d], |x|;
    assert y[..n] == x && b[..n] == a && y[n] == p && b[n] == d;
  }

  lemma SplitLast<T>(y: seq<T>) returns (front: seq<T>, last: T)
    requires y != []
    ensures y == front + [last]
  {
    front, last := y[..|y| - 1], y[|y| - 1];
  }

  lemma {:induction false} LastHitConcat(x: seq<(Pos, int)>, y: seq<(Pos, int)>, a: seq<int>, b: seq<int>, c: Pos)
    requires |a| == |x| && |b| == |y|
    ensures LastHit(x + y, a + b, c) == if LastHit(y, b, c) >= 0 then |x| + LastHit(y, b, c) else LastHit(x, a, c)
    decreases |y|
  {
    if y == [] {
      assert x + y == x && a + b == a;
    } else {
      var z, p := SplitLast(y);
      var e, d := SplitLast(b);
      LastHitConcat(x, z, a, e, c);
      LastHitMore(z, e, p, d, c);
      LastHitMore(x + z, a + e, p, d, c);
      assert x + y == x + z + [p] && a + b == a + e + [d];
    }
  }

  lemma StrewnConcat(
    before: map<Pos, Food>, middle: map<Pos, Food>, after: map<Pos, Food>,
    x: seq<(Pos, int)>, y: seq<(Pos, int)>, a: seq<int>, b: seq<int>)
    requires Strewn(before, x, a, middle) && Strewn(middle, y, b, after)
    ensures Strewn(before, x + y, a + b, after)
  {
    forall c ensures StrewnAt(before, x + y, a + b, after, c) {
      LastHitConcat(x, y, a, b, c);
      assert StrewnAt(before, x, a, middle, c) && StrewnAt(middle, y, b, after, c);
    }
  }

  lemma {:induction false} DiceConcat(cfg: Config, gen: nat, n: nat, m: nat, sides: int)
    requires sides >= 1
    ensures var (a, g) := Dice(cfg, gen, n, sides);
      var (b, end) := Dice(cfg, g, m, sides);
      Dice(cfg, gen, n + m, sides) == (a + b, end)
    decreases n
  {
    if n == 0 {
      assert [] + Dice(cfg, gen, m, sides).0 == Dice(cfg, gen, m, sides).0;
    } else {
      var (v, g) := cfg.draw(gen, 1, sides);
      DiceConcat(cfg, g, n - 1, m, sides);
      var (a, h) := Dice(cfg, g, n - 1, sides);
      assert [v] + (a + Dice(cfg, h, m, sides).0) == [v] + a + Dice(cfg, h, m, sides).0;
    }
  }

  lemma {:induction false} DiceLength(cfg: Config, gen: nat, n: nat, sides: int)
    requires sides >= 1
    ensures |Dice(cfg, gen, n, sides).0| == n
    decreases n
  {
    if n > 0 { DiceLength(cfg, cfg.draw(gen, 1, sides).1, n - 1, sides); }
  }

  /** One three-sided die for each segment, and food where it shows 1. */
  ghost predicate Thrown(
    cfg: Config, food: map<Pos, Food>, gen: nat, remains: seq<(Pos, int)>, after: map<Pos, Food>, end: nat)
  {
    var (dice, next) := Dice(cfg, gen, |remains|, 3);
    end == next && Strewn(food, remains, dice, after)
  }

  lemma ThrownConcat(
    cfg: Config, food: map<Pos, Food>, gen: nat, x: seq<(Pos, int)>, middle: map<Pos, Food>, g: nat,
    y: seq<(Pos, int)>, after: map<Pos, Food>, end: nat)
    requires Thrown(cfg, food, gen, x, middle, g) && Thrown(cfg, middle, g, y, after, end)
    ensures Thrown(cfg, food, gen, x + y, after, end)
  {
    DiceConcat(cfg, gen, |x|, |y|, 3);
    StrewnConcat(food, middle, after, x, y, Dice(cfg, gen, |x|, 3).0, Dice(cfg, g, |y|, 3).0);
  }

  lemma NothingThrown(cfg: Config, food: map<Pos, Food>, gen: nat)
    ensures Thrown(cfg, food, gen, [], food, gen)
  {
  }

  lemma OneThrown(cfg: Config, food: Items, gen: nat, c: Pos, color: int)
    ensures var (v, g) := cfg.draw(gen, 1, 3);
      Thrown(cfg, food.m, gen, [(c, color)], if v == 1 then food.m[c := Food(color, '@', c.x, c.y)] else food.m, g)
  {
    var (v, g) := cfg.draw(gen, 1, 3);
    assert Dice(cfg, gen, 1, 3) == ([v], Dice(cfg, g, 0, 3).1) by {
      assert [v] + [] == [v];
    }
    forall x: Pos ensures LastHit([(c, color)], [v], x) == if x == c && v == 1 then 0 else -1 {
      assert [(c, color)][..0] == [] && [v][..0] == [];
    }
  }

  lemma {:induction false} ScatterThrows(cfg: Config, food: Items, gen: nat, cells: seq<Pos>, color: int)
    ensures var r := Scatter(cfg, food, gen, cells, color);
      Thrown(cfg, food.m, gen, Coloured(cells, color), r.0.m, r.1)
    decreases |cells|
  {
    if cells == [] {
      NothingThrown(cfg, food.m, gen);
    } else {
      var (v, g) := cfg.draw(gen, 1, 3);
      var next := if v == 1 then PlaceFoodAt(food, cells[0], color) else food;
      OneThrown(cfg, food, gen, cells[0], color);
      ScatterThrows(cfg, next, g, cells[1..], color);
      var r := Scatter(cfg, next, g, cells[1..], color);
      ThrownConcat(cfg, food.m, gen, [(cells[0], color)], next.m, g, Coloured(cells[1..], color), r.0.m, r.1);
    }
  }

  lemma {:induction false} DestroyThrows(cfg: Config, g: Game, ids: seq<Int32>)
    requires forall id :: id in ids ==> id in g.players.m
    requires forall i, j :: 0 <= i < j < |ids| ==> ids[i] != ids[j]
    ensures var h := DestroyPlayers(cfg, g, ids);
      Thrown(cfg, g.food.m, g.gen, Remains(g.players.m, ids), h.food.m, h.gen)
    decreases |ids|
  {
    if ids == [] {
      NothingThrown(cfg, g.food.m, g.gen);
    } else {
      assert ids[0] in ids;
      var p, next := g.players.m[ids[0]], DestroyPlayer(cfg, g, ids[0]);
      forall id | id in ids[1..] ensures id in next.players.m && next.players.m[id] == g.players.m[id] {
        assert id in ids;
      }
      ScatterThrows(cfg, g.food, g.gen, Body(p.chain), p.color);
      DestroyThrows(cfg, next, ids[1..]);
      RemainsKept(g.players.m, next.players.m, ids[1..]);
      var h := DestroyPlayers(cfg, next, ids[1..]);
      ThrownConcat(cfg, g.food.m, g.gen, Coloured(Body(p.chain), p.color), next.food.m, next.gen,
                   Remains(next.players.m, ids[1..]), h.food.m, h.gen);
    }
  }

  lemma {:induction false} RemainsKept(m: map<Int32, Player>, n: map<Int32, Player>, ids: seq<Int32>)
    requires forall id :: id in ids ==> id in m && id in n && m[id] == n[id]
    ensures Remains(m, ids) == Remains(n, ids)
  {
    if ids != [] {
      assert ids[0] in ids;
      forall id | id in ids[1..] ensures id in m && id in n && m[id] == n[id] { assert id in ids; }
      RemainsKept(m, n, ids[1..]);
    }
  }

  /** A collision check throws the dice for the bodies of those who die in it, in the order of their names in
      the table, over the food that is left when the others have eaten. */
  lemma CheckThrows(cfg: Config, g: Game, now: int)
    ensures var x := CollideAll(cfg, g.players, StartClash(g), g.players.keys, now);
      var h := CheckCollisions(cfg, g, now);
      && (forall id :: id in x.doomed ==> id in g.players.m)
      && (forall c :: c in x.food.m <==> c in g.food.m && !Eaten(cfg, g, c))
      && (forall c :: c in x.food.m ==> x.food.m[c] == g.food.m[c])
      && Thrown(cfg, x.food.m, g.gen, Remains(g.players.m, x.doomed), h.food.m, h.gen)
  {
    var start, order := StartClash(g), g.players.keys;
    var x, vs := CollideAll(cfg, g.players, start, order, now), VerdictsOf(cfg, g.players, start);
    assert OrderOf(order, start.players);
    CheckIsVerdicts(cfg, g.players, start, order, now);
    CheckResolved(cfg, g, now);
    DoomedMembers(vs, order);
    forall c ensures c in x.food.m <==> c in g.food.m && !Eaten(cfg, g, c) { FoodChecked(cfg, g, now, c); }
    DestroyThrows(cfg, AfterClash(g, x), x.doomed);
    RemainsKept(g.players.m, x.players.m, x.doomed);
  }

  // ---------- boosts ----------

  /** With no boost in the arena one of eighty throws lays a white boost on the next cell drawn; with one, nothing
      is drawn. */
  lemma BoostIsPlaced(cfg: Config, g: Game)
    ensures var h := PlaceSpeedBoost(cfg, g);
      && h == g.(boosts := h.boosts, gen := h.gen)
      && if g.boosts.m != map[] then h == g
         else
           var (dice, gen) := Dice(cfg, g.gen, 1, 80);
           if dice != [1] then h.boosts.m == map[] && h.gen == gen
           else
             var (cells, end) := Cells(cfg, gen, 1);
             h.gen == end && |cells| == 1 && h.boosts.m == map[cells[0] := Food(1, '*', cells[0].x, cells[0].y)]
  {
    NoKeys(g.boosts);
    var (v, g1) := cfg.draw(g.gen, 1, 80);
    assert Dice(cfg, g.gen, 1, 80) == ([v], g1) by { assert Dice(cfg, g1, 0, 80) == ([], g1) && [v] + [] == [v]; }
    var (x, g2) := cfg.draw(g1, 1, cfg.width - 1);
    var (y, g3) := cfg.draw(g2, 1, cfg.height - 1);
    assert Cells(cfg, g1, 1) == ([Pos(x, y)], g3) by {
      assert Cells(cfg, g3, 0) == ([], g3) && [Pos(x, y)] + [] == [Pos(x, y)];
    }
    assert [v] == [1] <==> v == 1 by { assert [v][0] == v; }
  }

  lemma NoKeys(t: Items)
    ensures t.keys == [] <==> t.m == map[]
  {
    if t.keys != [] { assert t.keys[0] in t.m; }
    if t.keys == [] { assert forall c :: c !in t.m; }
  }
}
