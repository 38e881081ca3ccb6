/** One tick in the order in which it happens: food, messages, movement, collisions, a boost. */
module Ticks {
  import opened Protocol
  import opened Chains
  import opened Engine
  import opened Survivors
  import opened Invariants
  import opened Clients
  import opened Draws

  /** Draws of a tick in which a snake is due: a die for each segment of the dead, then a throw for a boost. x is
      the game when every player has been looked at. */
  ghost predicate DrawnWhenDue(cfg: Config, h: Game, x: Clash, after: Game, between: nat) {
    && (forall id :: id in x.doomed ==> id in h.players.m)
    && Thrown(cfg, x.food.m, h.gen, Remains(h.players.m, x.doomed), after.food.m, between)
    && (forall c :: c in x.food.m <==> c in h.food.m && !Eaten(cfg, h, c))
    && BoostThrown(cfg, x.boosts.m, between, after.boosts.m, after.gen)
  }

  /** With no boost in the arena one throw of an eighty-sided die, and a cell for a boost if it shows 1. */
  predicate BoostThrown(cfg: Config, before: map<Pos, Food>, gen: nat, after: map<Pos, Food>, end: nat) {
    if before != map[] then after == before && end == gen
    else
      var (dice, next) := Dice(cfg, gen, 1, 80);
      if dice != [1] then after == map[] && end == next
      else
        var (cells, last) := Cells(cfg, next, 1);
        end == last && |cells| == 1 && after == map[cells[0] := Food(1, '*', cells[0].x, cells[0].y)]
  }

  /** All players looked at, none destroyed yet. */
  ghost function Looked(cfg: Config, h: Game, now: int): Clash {
    CollideAll(cfg, h.players, StartClash(h), h.players.keys, now)
  }

  lemma DueDraws(cfg: Config, h: Game, now: int)
    ensures var c := CheckCollisions(cfg, h, now);
      DrawnWhenDue(cfg, h, Looked(cfg, h, now), PlaceSpeedBoost(cfg, c), c.gen)
  {
    var c, x := CheckCollisions(cfg, h, now), Looked(cfg, h, now);
    CheckThrows(cfg, h, now);
    BoostsKept(cfg, AfterClash(h, x), x.doomed);
    BoostIsPlaced(cfg, c);
  }

  /** Food is refilled first, then the joins of this tick are given their places; messages see the refilled
      arena. Then, if a snake is due, the collision check throws its dice and last a boost may be placed. What
      is not mentioned here draws nothing, and changes neither food nor boosts. */
  lemma TickInOrder(cfg: Config, g: Game, now: int, messages: seq<Message>) returns (k: nat, f: Game, between: nat)
    requires Fair(cfg)
    ensures DrawnAndLaid(cfg, g.food.m, g.gen, k, f.food.m, f.gen) && f == g.(food := f.food, gen := f.gen)
    ensures var a, t := ApplyAll(cfg, f, now, messages).game, Tick(cfg, g, now, messages).game;
      var h := Moving(cfg, g, now, messages);
      && a == f.(players := a.players, gen := AfterPlaces(cfg, f.gen, JoinsAmong(messages)))
      && h == a.(players := h.players)
      && if AnyDue(a, now) then DrawnWhenDue(cfg, h, Looked(cfg, h, now), t, between) else t == h
  {
    f := ReplaceFoodIn(cfg, g);
    k := FoodIsReplaced(cfg, g);
    var a := ApplyAll(cfg, f, now, messages).game;
    MessagesTouchPlayers(cfg, f, now, messages);
    var h := UpdateSnakes(cfg, a, now);
    DueDraws(cfg, h, now);
    between := CheckCollisions(cfg, h, now).gen;
    TickEnd(cfg, g, now, messages, a, h);
  }

  lemma TickEnd(cfg: Config, g: Game, now: int, messages: seq<Message>, a: Game, h: Game)
    requires a == ApplyAll(cfg, ReplaceFoodIn(cfg, g), now, messages).game && h == UpdateSnakes(cfg, a, now)
    ensures Tick(cfg, g, now, messages).game ==
      if AnyDue(a, now) then PlaceSpeedBoost(cfg, CheckCollisions(cfg, h, now)) else h
    ensures h == a.(players := h.players)
  {
  }
}
