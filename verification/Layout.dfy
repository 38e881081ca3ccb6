/**
 Which bytes are on the wire, in numbers: the offset and the value of every byte of every message. Nothing
 here depends on how the encoder is written, so it says what another implementation would have to send.
 */
module Layout {
  import opened Results
  import opened Arithmetic
  import opened LittleEndian
  import opened Protocol
  import opened Acceptance
  import opened Framing

  /** A 32-bit integer, least significant byte first; negative numbers in two's complement. */
  function FourBytes(v: int): Bytes {
    [(v % 256) as Byte, (v / 256 % 256) as Byte, (v / 65536 % 256) as Byte, (v / 16777216 % 256) as Byte]
  }

  function EightBytes(v: int): Bytes {
    FourBytes(v) + FourBytes(v / 4294967296)
  }

  function OneByte(c: char): Bytes {
    [(c as int % 256) as Byte]
  }

  /** These bytes are at this offset. */
  predicate Field(s: Bytes, at: nat, bytes: Bytes) {
    at + |bytes| <= |s| && s[at..at + |bytes|] == bytes
  }

  function TypeNumber(m: Message): int {
    match m
    case ServerConfig(_, _, _, _, _, _, _, _, _, _, _) => 0
    case ClientJoin(_, _) => 1
    case ClientDisconnect(_) => 2
    case ServerWelcome(_) => 3
    case ClientInput(_, _) => 4
    case GameState(_, _, _, _, _, _) => 5
  }

  predicate HeaderAt(s: Bytes, h: Header, number: int) {
    Field(s, 0, FourBytes(number)) && Field(s, 4, FourBytes(h.clientId))
    && Field(s, 8, EightBytes(h.sequence)) && Field(s, 16, EightBytes(h.transactTime))
  }

  predicate FoodAt(s: Bytes, at: nat, f: Food) {
    Field(s, at, FourBytes(f.color)) && Field(s, at + 4, OneByte(f.icon))
    && Field(s, at + 5, FourBytes(f.x)) && Field(s, at + 9, FourBytes(f.y))
  }

  predicate SegmentAt(s: Bytes, at: nat, p: Segment) {
    Field(s, at, FourBytes(p.x)) && Field(s, at + 4, FourBytes(p.y))
  }

  /** Items of one size, one after another. */
  predicate ListAt<T>(here: (Bytes, nat, T) -> bool, size: nat, s: Bytes, at: nat, xs: seq<T>) {
    forall i :: 0 <= i < |xs| ==> here(s, at + size * i, xs[i])
  }

  /** Items of 13 bytes each. */
  predicate FoodsAt(s: Bytes, at: nat, items: seq<Food>) {
    ListAt(FoodAt, 13, s, at, items)
  }

  /** Segments of 8 bytes each. */
  predicate SegmentsAt(s: Bytes, at: nat, segments: seq<Segment>) {
    ListAt(SegmentAt, 8, s, at, segments)
  }

  /** The fields of a player in front of its segments. */
  predicate PlayerFieldsAt(s: Bytes, at: nat, p: PlayerState) {
    && Field(s, at, FourBytes(p.clientId)) && Field(s, at + 4, FourBytes(p.color))
    && Field(s, at + 8, OneByte(p.direction)) && Field(s, at + 9, FourBytes(p.score))
    && |p.username| == 16 && Field(s, at + 13, p.username)
    && Field(s, at + 29, FourBytes(|p.segments|))
  }

  predicate PlayerAt(s: Bytes, at: nat, p: PlayerState) {
    PlayerFieldsAt(s, at, p) && SegmentsAt(s, at + 33, p.segments)
  }

  function PlayerEnd(at: nat, p: PlayerState): nat {
    at + 33 + 8 * |p.segments|
  }

  /** Players one after another, each as long as its segments make it. */
  predicate PlayersAt(s: Bytes, at: nat, players: seq<PlayerState>)
    decreases |players|
  {
    players == [] || (PlayerAt(s, at, players[0]) && PlayersAt(s, PlayerEnd(at, players[0]), players[1..]))
  }

  function PlayersEnd(at: nat, players: seq<PlayerState>): nat
    decreases |players|
  {
    if players == [] then at else PlayersEnd(PlayerEnd(at, players[0]), players[1..])
  }

  /** A count and that many items. */
  predicate CountedFoodsAt(s: Bytes, at: nat, items: seq<Food>) {
    Field(s, at, FourBytes(|items|)) && FoodsAt(s, at + 4, items)
  }

  /** A count and that many players, up to the end. */
  predicate CountedPlayersAt(s: Bytes, at: nat, players: seq<PlayerState>) {
    Field(s, at, FourBytes(|players|)) && PlayersAt(s, at + 4, players) && |s| == PlayersEnd(at + 4, players)
  }

  /** Where the players are. */
  function PlayersPlace(food: seq<Food>, boosts: seq<Food>): nat {
    52 + 13 * |food| + 13 * |boosts|
  }

  /** The three lists of a GAME_STATE. */
  predicate ListsAt(s: Bytes, food: seq<Food>, boosts: seq<Food>, players: seq<PlayerState>) {
    && CountedFoodsAt(s, 44, food) && CountedFoodsAt(s, 48 + 13 * |food|, boosts)
    && CountedPlayersAt(s, PlayersPlace(food, boosts), players)
  }

  /** The settings of a SERVER_CONFIG. */
  predicate SettingsAt(s: Bytes, w: int, h: int, seed: int, minFood: int, foodP: int, boostP: int) {
    && Field(s, 24, FourBytes(w)) && Field(s, 28, FourBytes(h)) && Field(s, 32, FourBytes(seed))
    && Field(s, 36, FourBytes(minFood)) && Field(s, 40, FourBytes(foodP)) && Field(s, 44, FourBytes(boostP))
  }

  predicate PaceAt(s: Bytes, ratio: Bytes, move: int, boosted: int, duration: int) {
    && |ratio| == 4 && Field(s, 48, ratio)
    && Field(s, 52, EightBytes(move)) && Field(s, 60, EightBytes(boosted)) && Field(s, 68, EightBytes(duration))
  }

  /** The bytes of a message. */
  predicate LaidOut(s: Bytes, m: Message) {
    && HeaderAt(s, m.hdr, TypeNumber(m))
    && match m {
      case ServerConfig(_, w, h, seed, minFood, foodP, boostP, ratio, move, boosted, duration) =>
        |s| == 76 && SettingsAt(s, w, h, seed, minFood, foodP, boostP) && PaceAt(s, ratio, move, boosted, duration)
      case ClientInput(_, input) => |s| == 25 && Field(s, 24, OneByte(input))
      case ClientDisconnect(_) => |s| == 24
      case ServerWelcome(_) => |s| == 24
      case ClientJoin(_, username) => |s| == 40 && |username| == 16 && Field(s, 24, username)
      case GameState(_, highScore, name, food, boosts, players) =>
        && Field(s, 24, FourBytes(highScore)) && |name| == 16 && Field(s, 28, name)
        && ListsAt(s, food, boosts, players)
    }
  }

  // ---------- integers ----------

  function Digits(v: nat): Bytes {
    [(v % 256) as Byte, (v / 256 % 256) as Byte, (v / 256 / 256 % 256) as Byte, (v / 256 / 256 / 256 % 256) as Byte]
  }

  lemma OneDigit(v: nat, n: nat)
    ensures ToBytes(v, n + 1) == [(v % 256) as Byte] + ToBytes(v / 256, n)
  {
  }

  lemma FourDigits(v: nat, n: nat)
    ensures ToBytes(v, n + 4) == Digits(v) + ToBytes(v / 256 / 256 / 256 / 256, n)
  {
    OneDigit(v, n + 3);
    OneDigit(v / 256, n + 2);
    OneDigit(v / 256 / 256, n + 1);
    OneDigit(v / 256 / 256 / 256, n);
  }

  lemma DivTwice(v: nat, a: nat)
    requires 0 < a
    ensures v / a / 256 == v / (256 * a)
  {
    var x, y := v / a, v / a / 256;
    var low := v % a + a * (x % 256);
    assert v == a * x + v % a && x == 256 * y + x % 256;
    assert v == (256 * a) * y + low;
    assert low < 256 * a by { ScaledStrictly(x % 256, 256, a); }
    DivIs(v, 256 * a, y, low);
  }

  /** At least one whole a below. */
  lemma ScaledStrictly(n: nat, m: nat, a: nat)
    requires n < m && 0 < a
    ensures a * n + a <= a * m
  {
    Scaled(n + 1, m, a);
  }

  lemma DivIs(v: nat, d: nat, q: nat, r: nat)
    requires 0 < d && v == d * q + r && r < d
    ensures v / d == q
  {
    DivMod(q, d, r);
  }

  lemma DigitsAre(v: nat)
    ensures Digits(v) == FourBytes(v) && v / 256 / 256 / 256 / 256 == v / 4294967296
  {
    DivTwice(v, 256);
    DivTwice(v, 65536);
    DivTwice(v, 16777216);
  }

  lemma SameByte0(u: int, q: int)
    ensures (u + q * 4294967296) % 256 == u % 256
  {
    assert u + q * 4294967296 == u + 256 * (q * 16777216);
  }

  lemma SameByte1(u: int, q: int)
    ensures (u + q * 4294967296) / 256 % 256 == u / 256 % 256
  {
    assert (u + q * 4294967296) / 256 == u / 256 + q * 16777216;
  }

  lemma SameByte2(u: int, q: int)
    ensures (u + q * 4294967296) / 65536 % 256 == u / 65536 % 256
  {
    assert (u + q * 4294967296) / 65536 == u / 65536 + q * 65536;
  }

  lemma SameByte3(u: int, q: int)
    ensures (u + q * 4294967296) / 16777216 % 256 == u / 16777216 % 256
  {
    assert (u + q * 4294967296) / 16777216 == u / 16777216 + q * 256;
  }

  /** Two's complement: adding a multiple of 2^32 does not change the four low bytes. */
  lemma SameLowBytes(u: int, q: int)
    ensures FourBytes(u + q * 4294967296) == FourBytes(u)
  {
    SameByte0(u, q);
    SameByte1(u, q);
    SameByte2(u, q);
    SameByte3(u, q);
  }

  lemma Int32Is(v: int)
    ensures Int32Bytes(v) == FourBytes(v) && Uint32Bytes(v) == FourBytes(v)
  {
    var u := v % 4294967296;
    FourDigits(u, 0);
    DigitsAre(u);
    SameLowBytes(u, v / 4294967296);
  }

  lemma Int64Is(v: int)
    ensures Int64Bytes(v) == EightBytes(v)
  {
    var u, q := v % 18446744073709551616, v / 18446744073709551616;
    var high := u / 4294967296;
    FourDigits(u, 4);
    DigitsAre(u);
    FourDigits(high, 0);
    DigitsAre(high);
    assert v == u + (q * 4294967296) * 4294967296;
    assert v / 4294967296 == high + q * 4294967296;
    SameLowBytes(u, q * 4294967296);
    SameLowBytes(high, q);
  }

  // ---------- the encoder ----------

  /** Bytes in front of a rest. */
  lemma Peel(s: Bytes, at: nat, x: Bytes, rest: Bytes)
    requires at <= |s|
    ensures s[at..] == x + rest <==> Field(s, at, x) && s[at + |x|..] == rest
  {
    if s[at..] == x + rest {
      assert |s| == at + |x| + |rest|;
      assert s[at..at + |x|] == s[at..][..|x|] && s[at + |x|..] == s[at..][|x|..];
    }
    if Field(s, at, x) && s[at + |x|..] == rest {
      assert s[at..] == s[at..at + |x|] + s[at + |x|..];
    }
  }

  /** What is behind a field of n bytes is inside. */
  predicate Rests(s: Bytes, at: nat, n: nat, rest: Bytes) {
    at + n <= |s| && s[at + n..] == rest
  }

  lemma PeelInt32(s: Bytes, at: nat, v: int, rest: Bytes)
    requires at <= |s|
    ensures s[at..] == PutInt32(v, rest) <==> Field(s, at, FourBytes(v)) && Rests(s, at, 4, rest)
    ensures s[at..] == PutUint32(v, rest) <==> Field(s, at, FourBytes(v)) && Rests(s, at, 4, rest)
  {
    Int32Is(v);
    Peel(s, at, FourBytes(v), rest);
  }

  lemma PeelInt64(s: Bytes, at: nat, v: int, rest: Bytes)
    requires at <= |s|
    ensures s[at..] == PutInt64(v, rest) <==> Field(s, at, EightBytes(v)) && Rests(s, at, 8, rest)
  {
    Int64Is(v);
    Peel(s, at, EightBytes(v), rest);
  }

  lemma PeelChar(s: Bytes, at: nat, c: char, rest: Bytes)
    requires at <= |s|
    ensures s[at..] == PutChar(c, rest) <==> Field(s, at, OneByte(c)) && Rests(s, at, 1, rest)
  {
    Peel(s, at, OneByte(c), rest);
  }

  lemma PeelRaw(s: Bytes, at: nat, b: Bytes, rest: Bytes)
    requires at <= |s|
    ensures s[at..] == PutRaw(b, rest) <==> Field(s, at, b) && Rests(s, at, |b|, rest)
  {
    Peel(s, at, b, rest);
  }

  lemma PeelHeader(s: Bytes, h: Header, rest: Bytes)
    ensures s == PutHeader(h, rest) <==> HeaderAt(s, h, h.messageType) && Rests(s, 0, 24, rest)
  {
    var d := PutInt64(h.transactTime, rest);
    var c := PutInt64(h.sequence, d);
    assert s[0..] == s;
    PeelInt32(s, 0, h.messageType, PutInt32(h.clientId, c));
    if |s| >= 4 { PeelInt32(s, 4, h.clientId, c); }
    if |s| >= 8 { PeelInt64(s, 8, h.sequence, d); }
    if |s| >= 16 { PeelInt64(s, 16, h.transactTime, rest); }
  }

  lemma PeelFood(s: Bytes, at: nat, f: Food, rest: Bytes)
    requires at <= |s|
    ensures s[at..] == PutFood(f, rest) <==> FoodAt(s, at, f) && Rests(s, at, 13, rest)
  {
    var d := PutInt32(f.y, rest);
    var c := PutInt32(f.x, d);
    PeelInt32(s, at, f.color, PutChar(f.icon, c));
    if |s| >= at + 4 { PeelChar(s, at + 4, f.icon, c); }
    if |s| >= at + 5 { PeelInt32(s, at + 5, f.x, d); }
    if |s| >= at + 9 { PeelInt32(s, at + 9, f.y, rest); }
  }

  lemma PeelSegment(s: Bytes, at: nat, p: Segment, rest: Bytes)
    requires at <= |s|
    ensures s[at..] == PutSegment(p, rest) <==> SegmentAt(s, at, p) && Rests(s, at, 8, rest)
  {
    PeelInt32(s, at, p.x, PutInt32(p.y, rest));
    if |s| >= at + 4 { PeelInt32(s, at + 4, p.y, rest); }
  }

  /** An item is written at its place, in front of the rest. */
  ghost predicate Placed<T(!new)>(
    put: (T, Bytes) -> Bytes, here: (Bytes, nat, T) -> bool, size: nat, s: Bytes, at: nat, x: T, rest: Bytes)
  {
    at <= |s| ==> (s[at..] == put(x, rest) <==> here(s, at, x) && Rests(s, at, size, rest))
  }

  lemma ListAtCons<T(!new)>(here: (Bytes, nat, T) -> bool, size: nat, s: Bytes, at: nat, xs: seq<T>)
    requires xs != []
    ensures ListAt(here, size, s, at, xs) <==> here(s, at, xs[0]) && ListAt(here, size, s, at + size, xs[1..])
  {
    if here(s, at, xs[0]) && ListAt(here, size, s, at + size, xs[1..]) {
      forall i | 0 <= i < |xs| ensures here(s, at + size * i, xs[i]) {
        if i > 0 {
          NextPlace(at, size, i - 1);
          assert xs[1..][i - 1] == xs[i];
        }
      }
    }
    if ListAt(here, size, s, at, xs) {
      NextPlace(at, size, 0);
      assert here(s, at + size * 0, xs[0]);
      forall i | 0 <= i < |xs[1..]| ensures here(s, at + size + size * i, xs[1..][i]) {
        NextPlace(at, size, i);
        assert here(s, at + size * (i + 1), xs[i + 1]);
      }
    }
  }

  lemma NextPlace(at: nat, size: nat, i: nat)
    ensures at + size * (i + 1) == at + size + size * i && at + size * 0 == at
  {
  }

  lemma {:induction false} PeelList<T(!new)>(
    put: (T, Bytes) -> Bytes, here: (Bytes, nat, T) -> bool, size: nat, s: Bytes, at: nat, xs: seq<T>, rest: Bytes)
    requires forall t, a, x, r :: Placed(put, here, size, t, a, x, r)
    requires at <= |s| && size > 0
    ensures s[at..] == PutList(put, xs, rest) <==> ListAt(here, size, s, at, xs) && Rests(s, at, size * |xs|, rest)
    decreases |xs|
  {
    if xs == [] {
      NextPlace(at, size, 0);
    } else {
      var later := PutList(put, xs[1..], rest);
      assert Placed(put, here, size, s, at, xs[0], later);
      ListAtCons(here, size, s, at, xs);
      NextPlace(at, size, |xs| - 1);
      if at + size <= |s| {
        PeelList(put, here, size, s, at + size, xs[1..], rest);
      } else {
        Scaled(1, |xs|, size);
      }
    }
  }

  lemma PeelFoods(s: Bytes, at: nat, items: seq<Food>, rest: Bytes)
    requires at <= |s|
    ensures s[at..] == PutList(PutFood, items, rest) <==> FoodsAt(s, at, items) && Rests(s, at, 13 * |items|, rest)
  {
    forall t, a: nat, x, r ensures Placed(PutFood, FoodAt, 13, t, a, x, r) {
      if a <= |t| { PeelFood(t, a, x, r); }
    }
    PeelList(PutFood, FoodAt, 13, s, at, items, rest);
  }

  lemma PeelSegments(s: Bytes, at: nat, segments: seq<Segment>, rest: Bytes)
    requires at <= |s|
    ensures s[at..] == PutList(PutSegment, segments, rest)
      <==> SegmentsAt(s, at, segments) && Rests(s, at, 8 * |segments|, rest)
  {
    forall t, a: nat, x, r ensures Placed(PutSegment, SegmentAt, 8, t, a, x, r) {
      if a <= |t| { PeelSegment(t, a, x, r); }
    }
    PeelList(PutSegment, SegmentAt, 8, s, at, segments, rest);
  }

  // ---------- whole messages ----------

  lemma PeelPlayer(s: Bytes, at: nat, p: PlayerState, rest: Bytes)
    requires at <= |s| && |p.username| == 16
    ensures s[at..] == PutPlayer(p, rest) <==> PlayerAt(s, at, p) && Rests(s, at, 33 + 8 * |p.segments|, rest)
  {
    var segments := PutList(PutSegment, p.segments, rest);
    var f := PutUint32(|p.segments|, segments);
    var e := PutRaw(p.username, f);
    var d := PutInt32(p.score, e);
    var c := PutChar(p.direction, d);
    PeelInt32(s, at, p.clientId, PutInt32(p.color, c));
    if |s| >= at + 4 { PeelInt32(s, at + 4, p.color, c); }
    if |s| >= at + 8 { PeelChar(s, at + 8, p.direction, d); }
    if |s| >= at + 9 { PeelInt32(s, at + 9, p.score, e); }
    if |s| >= at + 13 { PeelRaw(s, at + 13, p.username, f); }
    if |s| >= at + 29 { PeelInt32(s, at + 29, |p.segments|, segments); }
    if |s| >= at + 33 { PeelSegments(s, at + 33, p.segments, rest); }
  }

  lemma PlayersFollow(at: nat, players: seq<PlayerState>)
    ensures PlayersEnd(at, players) >= at
    decreases |players|
  {
    if players != [] { PlayersFollow(PlayerEnd(at, players[0]), players[1..]); }
  }

  lemma {:induction false} PeelPlayers(s: Bytes, at: nat, players: seq<PlayerState>, rest: Bytes)
    requires at <= |s| && forall i :: 0 <= i < |players| ==> |players[i].username| == 16
    ensures s[at..] == PutList(PutPlayer, players, rest)
      <==> PlayersAt(s, at, players) && Rests(s, PlayersEnd(at, players), 0, rest)
    decreases |players|
  {
    if players != [] {
      var end := PlayerEnd(at, players[0]);
      PeelPlayer(s, at, players[0], PutList(PutPlayer, players[1..], rest));
      PlayersFollow(end, players[1..]);
      if end <= |s| { PeelPlayers(s, end, players[1..], rest); }
    }
  }

  lemma PeelSettings(s: Bytes, w: int, h: int, seed: int, minFood: int, foodP: int, boostP: int, rest: Bytes)
    requires |s| >= 24
    ensures s[24..] == PutInt32(w, PutInt32(h, PutUint32(seed, PutInt32(minFood, PutInt32(foodP,
                       PutInt32(boostP, rest))))))
      <==> SettingsAt(s, w, h, seed, minFood, foodP, boostP) && Rests(s, 48, 0, rest)
  {
    var f := PutInt32(boostP, rest);
    var e := PutInt32(foodP, f);
    var d := PutInt32(minFood, e);
    var c := PutUint32(seed, d);
    PeelInt32(s, 24, w, PutInt32(h, c));
    if |s| >= 28 { PeelInt32(s, 28, h, c); }
    if |s| >= 32 { PeelInt32(s, 32, seed, d); }
    if |s| >= 36 { PeelInt32(s, 36, minFood, e); }
    if |s| >= 40 { PeelInt32(s, 40, foodP, f); }
    if |s| >= 44 { PeelInt32(s, 44, boostP, rest); }
  }

  lemma PeelPace(s: Bytes, ratio: Bytes, move: int, boosted: int, duration: int)
    requires |s| >= 48 && |ratio| == 4
    ensures s[48..] == PutRaw(ratio, PutInt64(move, PutInt64(boosted, PutInt64(duration, []))))
      <==> PaceAt(s, ratio, move, boosted, duration) && |s| == 76
  {
    var d := PutInt64(duration, []);
    var c := PutInt64(boosted, d);
    PeelRaw(s, 48, ratio, PutInt64(move, c));
    if |s| >= 52 { PeelInt64(s, 52, move, c); }
    if |s| >= 60 { PeelInt64(s, 60, boosted, d); }
    if |s| >= 68 { PeelInt64(s, 68, duration, []); }
  }

  lemma PeelConfig(s: Bytes, m: Message)
    requires m.ServerConfig? && |m.speedBoostRatio| == 4 && |s| >= 24 && HeaderAt(s, m.hdr, 0)
    ensures s[24..] == PutBody(m, []) <==> LaidOut(s, m)
  {
    var pace := PutRaw(m.speedBoostRatio, PutInt64(m.movementFrequencyMs, PutInt64(m.boostedMovementFrequencyMs,
                       PutInt64(m.boostDurationMs, []))));
    PeelSettings(s, m.width, m.height, m.seed, m.minFoodInArena, m.foodSpawnProbability, m.speedBoostProbability, pace);
    if |s| >= 48 {
      PeelPace(s, m.speedBoostRatio, m.movementFrequencyMs, m.boostedMovementFrequencyMs, m.boostDurationMs);
    }
  }

  function PutCounted(items: seq<Food>, rest: Bytes): Bytes {
    PutUint32(|items|, PutList(PutFood, items, rest))
  }

  function PutPlayers(players: seq<PlayerState>): Bytes {
    PutUint32(|players|, PutList(PutPlayer, players, []))
  }

  lemma PeelCountedFoods(s: Bytes, at: nat, items: seq<Food>, rest: Bytes)
    ensures Rests(s, at, 0, PutCounted(items, rest))
      <==> CountedFoodsAt(s, at, items) && Rests(s, at + 4 + 13 * |items|, 0, rest)
  {
    if |s| >= at { PeelInt32(s, at, |items|, PutList(PutFood, items, rest)); }
    if |s| >= at + 4 { PeelFoods(s, at + 4, items, rest); }
  }

  lemma PeelCountedPlayers(s: Bytes, at: nat, players: seq<PlayerState>)
    requires forall i :: 0 <= i < |players| ==> |players[i].username| == 16
    ensures Rests(s, at, 0, PutPlayers(players)) <==> CountedPlayersAt(s, at, players)
  {
    if |s| >= at { PeelInt32(s, at, |players|, PutList(PutPlayer, players, [])); }
    if |s| >= at + 4 { PeelPlayers(s, at + 4, players, []); }
    PlayersFollow(at + 4, players);
  }

  lemma PeelBothItems(s: Bytes, food: seq<Food>, boosts: seq<Food>, rest: Bytes)
    ensures Rests(s, 44, 0, PutCounted(food, PutCounted(boosts, rest)))
      <==> CountedFoodsAt(s, 44, food) && CountedFoodsAt(s, 48 + 13 * |food|, boosts)
           && Rests(s, PlayersPlace(food, boosts), 0, rest)
  {
    PeelCountedFoods(s, 44, food, PutCounted(boosts, rest));
    PeelCountedFoods(s, 48 + 13 * |food|, boosts, rest);
  }

  lemma PeelLists(s: Bytes, food: seq<Food>, boosts: seq<Food>, players: seq<PlayerState>)
    requires forall i :: 0 <= i < |players| ==> |players[i].username| == 16
    ensures Rests(s, 44, 0, PutCounted(food, PutCounted(boosts, PutPlayers(players))))
      <==> ListsAt(s, food, boosts, players)
  {
    PeelBothItems(s, food, boosts, PutPlayers(players));
    PeelCountedPlayers(s, PlayersPlace(food, boosts), players);
  }

  lemma PeelGameState(s: Bytes, m: Message)
    requires m.GameState? && |m.highScoreUsername| == 16 && |s| >= 24 && HeaderAt(s, m.hdr, 5)
    requires forall i :: 0 <= i < |m.players| ==> |m.players[i].username| == 16
    ensures s[24..] == PutBody(m, []) <==> LaidOut(s, m)
  {
    var lists := PutCounted(m.food, PutCounted(m.speedBoosts, PutPlayers(m.players)));
    PeelInt32(s, 24, m.highScore, PutRaw(m.highScoreUsername, lists));
    if |s| >= 28 { PeelRaw(s, 28, m.highScoreUsername, lists); }
    PeelLists(s, m.food, m.speedBoosts, m.players);
  }

  lemma PeelSmall(s: Bytes, m: Message)
    requires !m.ServerConfig? && !m.GameState? && (m.ClientJoin? ==> |m.username| == 16)
    requires |s| >= 24 && HeaderAt(s, m.hdr, TypeNumber(m))
    ensures s[24..] == PutBody(m, []) <==> LaidOut(s, m)
  {
    if m.ClientJoin? { PeelRaw(s, 24, m.username, []); }
    if m.ClientInput? { PeelChar(s, 24, m.input, []); }
  }

  lemma PeelBody(s: Bytes, m: Message)
    requires Encodable(m) && |s| >= 24 && HeaderAt(s, m.hdr, TypeNumber(m))
    ensures s[24..] == PutBody(m, []) <==> LaidOut(s, m)
  {
    if m.ServerConfig? {
      PeelConfig(s, m);
    } else if m.GameState? {
      forall i | 0 <= i < |m.players| ensures |m.players[i].username| == 16 { assert m.players[i] in m.players; }
      PeelGameState(s, m);
    } else {
      PeelSmall(s, m);
    }
  }

  /** The encoding of a message is the bytes that are laid out as this message, and no others. */
  lemma EncodingIsLayout(s: Bytes, m: Message)
    requires Encodable(m)
    ensures s == Encode(m) <==> LaidOut(s, m)
  {
    PeelHeader(s, m.hdr, PutBody(m, []));
    if |s| >= 24 && HeaderAt(s, m.hdr, TypeNumber(m)) { PeelBody(s, m); }
  }

  /** Some first bytes are laid out as this message. */
  ghost predicate StartsWith(s: Bytes, m: Message) {
    exists t :: t <= s && LaidOut(t, m)
  }

  lemma StartsExactlyWhen(s: Bytes, m: Message)
    requires Encodable(m)
    ensures Encode(m) <= s <==> StartsWith(s, m)
  {
    EncodingIsLayout(Encode(m), m);
    if t :| t <= s && LaidOut(t, m) { EncodingIsLayout(t, m); }
  }

  lemma WholeExactlyWhen(s: Bytes, e: Bytes)
    ensures e <= s && |s| == |e| <==> s == e
  {
  }

  /** Bytes are decoded to a message exactly if they are laid out as this message, or for a GAME_STATE start
      with bytes that are. */
  lemma DecodesExactlyWhen(s: Bytes, m: Message)
    ensures Decode(s) == Ok(m) <==> Encodable(m) && if m.GameState? then StartsWith(s, m) else LaidOut(s, m)
  {
    AcceptedExactlyWhen(s, m);
    if Encodable(m) {
      EncodingIsLayout(s, m);
      StartsExactlyWhen(s, m);
      WholeExactlyWhen(s, Encode(m));
    }
  }

  /** What a sender puts in front of a message: the length in four bytes. */
  lemma FrameLayout(b: Bytes)
    ensures Field(Frame(b), 0, FourBytes(|b|)) && Frame(b)[4..] == b
  {
    Int32Is(|b|);
  }
}
