/** The assumption about the random source can be met: a source that counts is fair. */
module Fairness {
  import opened Arithmetic
  import opened Sequences
  import opened Chains
  import opened Engine

  /** Two draws with the same number, then two with the next. */
  function Count(gen: nat, lo: int, hi: int): (int, nat) {
    (if lo <= hi then lo + gen / 2 % (hi - lo + 1) else lo, gen + 1)
  }

  lemma CountInRange()
    ensures DrawsInRange(Count)
  {
  }

  /** Numbers fewer than m apart have different remainders. */
  lemma Apart(t: int, j: int, m: int)
    requires 0 < j < m
    ensures (t - j) % m != t % m
  {
    var a, b := t / m, (t - j) / m;
    assert t == a * m + t % m && t - j == b * m + (t - j) % m;
    if (t - j) % m == t % m {
      assert (a - b) * m == j;
      if a - b >= 1 { Scaled(1, a - b, m); } else { Scaled(a - b, 0, m); }
    }
  }

  /** Cells of the food that the last turns placed, in as many different columns. */
  ghost predicate Placed(cfg: Config, food: Items, gen: nat, cells: seq<Pos>) {
    && |cells| <= MIN_FOOD_IN_ARENA
    && (forall i :: 0 <= i < |cells| ==> cells[i] in food.m)
    && (forall i :: 0 <= i < |cells| ==> cells[i].x == 1 + (gen / 2 - (|cells| - i)) % (cfg.width - 1))
  }

  lemma PlacedDiffer(cfg: Config, food: Items, gen: nat, cells: seq<Pos>)
    requires Placed(cfg, food, gen, cells)
    ensures forall i, j :: 0 <= i < j < |cells| ==> cells[i] != cells[j]
    ensures forall i :: 0 <= i < |cells| ==> cells[i].x != 1 + gen / 2 % (cfg.width - 1)
  {
    var m := cfg.width - 1;
    forall i, j | 0 <= i < j < |cells| ensures cells[i] != cells[j] {
      Apart(gen / 2 - (|cells| - j), j - i, m);
      assert gen / 2 - (|cells| - j) - (j - i) == gen / 2 - (|cells| - i);
    }
    forall i | 0 <= i < |cells| ensures cells[i].x != 1 + gen / 2 % m {
      Apart(gen / 2, |cells| - i, m);
    }
  }

  lemma PlacedMore(cfg: Config, food: Items, gen: nat, cells: seq<Pos>) returns (p: Pos)
    requires cfg.draw == Count && Placed(cfg, food, gen, cells) && |cells| < MIN_FOOD_IN_ARENA
    ensures Placed(cfg, PlaceFood(cfg, food, gen).0, PlaceFood(cfg, food, gen).1, cells + [p])
  {
    var (x, g1) := Draw(cfg, gen, 1, cfg.width - 1);
    var (y, g2) := Draw(cfg, g1, 1, cfg.height - 1);
    assert x == 1 + gen / 2 % (cfg.width - 1) && g2 / 2 == gen / 2 + 1;
    p := Pos(x, y);
    forall i | 0 <= i < |cells + [p]|
      ensures (cells + [p])[i].x == 1 + (g2 / 2 - (|cells + [p]| - i)) % (cfg.width - 1)
    {
      assert g2 / 2 - (|cells + [p]| - i) == gen / 2 - (|cells| - i);
    }
  }

  lemma {:induction false} CountFills(cfg: Config, food: Items, gen: nat, cells: seq<Pos>, n: nat)
    requires cfg.draw == Count && Placed(cfg, food, gen, cells) && |cells| + n == MIN_FOOD_IN_ARENA
    ensures Refilled(cfg, food, gen, n)
    decreases n
  {
    if |food.keys| < MIN_FOOD_IN_ARENA {
      PlacedDiffer(cfg, food, gen, cells);
      NotMore(cells, food.keys);
      var p := PlacedMore(cfg, food, gen, cells);
      var next := PlaceFood(cfg, food, gen);
      CountFills(cfg, next.0, next.1, cells + [p], n - 1);
    }
  }

  /** With a counting source the loop that replaces food always ends, after at most six turns. */
  lemma CountingIsFair(cfg: Config)
    requires cfg.draw == Count
    ensures forall food: Items, gen: nat :: Refilled(cfg, food, gen, MIN_FOOD_IN_ARENA)
    ensures Fair(cfg)
  {
    forall food: Items, gen: nat ensures Refilled(cfg, food, gen, MIN_FOOD_IN_ARENA) {
      CountFills(cfg, food, gen, [], MIN_FOOD_IN_ARENA);
    }
    forall food: Items, gen: nat ensures Refillable(cfg, food, gen) {
      assert Refilled(cfg, food, gen, MIN_FOOD_IN_ARENA);
    }
  }

  /** For every arena and every pace there is a fair source. */
  lemma FairSourceExists(cfg: Config)
    ensures exists fair: Config :: Fair(fair) && fair.(draw := cfg.draw) == cfg
  {
    CountInRange();
    var fair: Config := cfg.(draw := Count);
    CountingIsFair(fair);
    assert fair.(draw := cfg.draw) == cfg;
  }
}
