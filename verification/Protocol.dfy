/**
 The binary protocol. Every message has a byte encoding (`Encode`) and frames are read back by a
 bounds-checked reader (`Decode`). Both are written here first as functions, field by field;
 the methods `Serialise` and `Deserialise` are the loops over a growing buffer and a moving cursor.
 */
module Protocol {
  import opened Results
  import opened LittleEndian

  const SERVER_CONFIG := 0
  const CLIENT_JOIN := 1
  const CLIENT_DISCONNECT := 2
  const SERVER_WELCOME := 3
  const CLIENT_INPUT := 4
  const GAME_STATE := 5

  const USERNAME_SIZE: nat := 16
  const HEADER_PACKED_SIZE: nat := 24
  const SERVER_CONFIG_PACKED_SIZE: nat := 76
  const CLIENT_INPUT_PACKED_SIZE: nat := 25
  const CLIENT_JOIN_PACKED_SIZE: nat := 40

  datatype Header = Header(messageType: int, clientId: Int32, sequence: int, transactTime: int)

  /** A food item or a speed boost: the two share one layout. */
  datatype Food = Food(color: int, icon: char, x: int, y: int)

  datatype Segment = Segment(x: int, y: int)

  datatype PlayerState = PlayerState(
    clientId: Int32, color: int, direction: char, score: int, username: Bytes, segments: seq<Segment>)

  datatype Message =
    | ServerConfig(hdr: Header, width: int, height: int, seed: int, minFoodInArena: int,
                   foodSpawnProbability: int, speedBoostProbability: int, speedBoostRatio: Bytes,
                   movementFrequencyMs: int, boostedMovementFrequencyMs: int, boostDurationMs: int)
    | ClientInput(hdr: Header, input: char)
    | ClientDisconnect(hdr: Header)
    | ServerWelcome(hdr: Header)
    | ClientJoin(hdr: Header, username: Bytes)
    | GameState(hdr: Header, highScore: int, highScoreUsername: Bytes,
                food: seq<Food>, speedBoosts: seq<Food>, players: seq<PlayerState>)

  // ---------- values that the declared field types can hold ----------

  /** The tag that belongs to the static type of a message. */
  function Tag(m: Message): int {
    match m
    case ServerConfig(_, _, _, _, _, _, _, _, _, _, _) => SERVER_CONFIG
    case ClientInput(_, _) => CLIENT_INPUT
    case ClientDisconnect(_) => CLIENT_DISCONNECT
    case ServerWelcome(_) => SERVER_WELCOME
    case ClientJoin(_, _) => CLIENT_JOIN
    case GameState(_, _, _, _, _, _) => GAME_STATE
  }

  predicate FitsChar(c: char) {
    c as int < 256
  }

  predicate FitsHeader(h: Header) {
    FitsInt32(h.messageType) && FitsInt64(h.sequence) && FitsInt64(h.transactTime)
  }

  predicate FitsFood(f: Food) {
    FitsInt32(f.color) && FitsChar(f.icon) && FitsInt32(f.x) && FitsInt32(f.y)
  }

  predicate FitsSegment(s: Segment) {
    FitsInt32(s.x) && FitsInt32(s.y)
  }

  predicate FitsPlayer(p: PlayerState) {
    && FitsInt32(p.color) && FitsChar(p.direction) && FitsInt32(p.score)
    && |p.username| == USERNAME_SIZE && |p.segments| < TWO_32
    && forall s :: s in p.segments ==> FitsSegment(s)
  }

  /** The message is one the C++ types can hold, with list lengths that a uint32_t count can hold
      and a header tag that matches its static type. */
  predicate Encodable(m: Message) {
    && FitsHeader(m.hdr)
    && m.hdr.messageType == Tag(m)
    && match m {
      case ServerConfig(_, w, h, seed, minFood, foodP, boostP, ratio, move, boosted, duration) =>
        && FitsInt32(w) && FitsInt32(h) && FitsUint32(seed) && FitsInt32(minFood) && FitsInt32(foodP)
        && FitsInt32(boostP) && |ratio| == 4 && FitsInt64(move) && FitsInt64(boosted) && FitsInt64(duration)
      case ClientInput(_, input) => FitsChar(input)
      case ClientDisconnect(_) => true
      case ServerWelcome(_) => true
      case ClientJoin(_, username) => |username| == USERNAME_SIZE
      case GameState(_, highScore, name, food, boosts, players) =>
        && FitsInt32(highScore) && |name| == USERNAME_SIZE
        && |food| < TWO_32 && |boosts| < TWO_32 && |players| < TWO_32
        && (forall f :: f in food ==> FitsFood(f))
        && (forall f :: f in boosts ==> FitsFood(f))
        && (forall p :: p in players ==> FitsPlayer(p))
    }
  }

  // ---------- reading: each reader returns a value and the bytes after it ----------

  type Reading<T> = Result<(T, Bytes)>

  /** The next n bytes, or the truncation error. */
  function Take(s: Bytes, n: nat): Reading<Bytes> {
    if |s| < n then Err(TruncatedFrame) else Ok((s[..n], s[n..]))
  }

  function ReadInt32(s: Bytes): Reading<Int32> {
    var (b, rest) :- Take(s, 4);
    Ok((Int32From(b), rest))
  }

  function ReadUint32(s: Bytes): Reading<nat> {
    var (b, rest) :- Take(s, 4);
    Ok((Uint32From(b), rest))
  }

  function ReadInt64(s: Bytes): Reading<int> {
    var (b, rest) :- Take(s, 8);
    Ok((Int64From(b), rest))
  }

  function ReadChar(s: Bytes): Reading<char> {
    var (b, rest) :- Take(s, 1);
    Ok((b[0] as int as char, rest))
  }

  function ReadList<T>(read: Bytes -> Reading<T>, n: nat, s: Bytes): Reading<seq<T>> {
    if n == 0 then Ok(([], s))
    else
      var (x, s) :- read(s);
      var (xs, s) :- ReadList(read, n - 1, s);
      Ok(([x] + xs, s))
  }

  function ReadHeader(s: Bytes): Reading<Header> {
    var (messageType, s) :- ReadInt32(s);
    var (clientId, s) :- ReadInt32(s);
    var (sequence, s) :- ReadInt64(s);
    var (transactTime, s) :- ReadInt64(s);
    Ok((Header(messageType, clientId, sequence, transactTime), s))
  }

  function ReadFood(s: Bytes): Reading<Food> {
    var (color, s) :- ReadInt32(s);
    var (icon, s) :- ReadChar(s);
    var (x, s) :- ReadInt32(s);
    var (y, s) :- ReadInt32(s);
    Ok((Food(color, icon, x, y), s))
  }

  function ReadSegment(s: Bytes): Reading<Segment> {
    var (x, s) :- ReadInt32(s);
    var (y, s) :- ReadInt32(s);
    Ok((Segment(x, y), s))
  }

  function ReadPlayer(s: Bytes): Reading<PlayerState> {
    var (clientId, s) :- ReadInt32(s);
    var (color, s) :- ReadInt32(s);
    var (direction, s) :- ReadChar(s);
    var (score, s) :- ReadInt32(s);
    var (username, s) :- Take(s, USERNAME_SIZE);
    var (count, s) :- ReadUint32(s);
    var (segments, s) :- ReadList(ReadSegment, count, s);
    Ok((PlayerState(clientId, color, direction, score, username, segments), s))
  }

  /** The fields of a SERVER_CONFIG after its header. */
  function ReadServerConfig(hdr: Header, s: Bytes): Reading<Message> {
    var (width, s) :- ReadInt32(s);
    var (height, s) :- ReadInt32(s);
    var (seed, s) :- ReadUint32(s);
    var (minFood, s) :- ReadInt32(s);
    var (foodP, s) :- ReadInt32(s);
    var (boostP, s) :- ReadInt32(s);
    var (ratio, s) :- Take(s, 4);
    var (move, s) :- ReadInt64(s);
    var (boosted, s) :- ReadInt64(s);
    var (duration, s) :- ReadInt64(s);
    Ok((ServerConfig(hdr, width, height, seed, minFood, foodP, boostP, ratio, move, boosted, duration), s))
  }

  /** The fields of a GAME_STATE after its header. */
  function ReadGameState(hdr: Header, s: Bytes): Reading<Message> {
    var (highScore, s) :- ReadInt32(s);
    var (name, s) :- Take(s, USERNAME_SIZE);
    var (foodCount, s) :- ReadUint32(s);
    var (food, s) :- ReadList(ReadFood, foodCount, s);
    var (boostCount, s) :- ReadUint32(s);
    var (boosts, s) :- ReadList(ReadFood, boostCount, s);
    var (playerCount, s) :- ReadUint32(s);
    var (players, s) :- ReadList(ReadPlayer, playerCount, s);
    Ok((GameState(hdr, highScore, name, food, boosts, players), s))
  }

  /** What follows the header of a frame of the given total size. Fixed-size messages must have
      exactly their size; a GAME_STATE is read up to its last player, and whatever follows it is
      not looked at. */
  function DecodeBody(hdr: Header, s: Bytes, size: nat): Result<Message> {
    if hdr.messageType == CLIENT_JOIN then
      if size != CLIENT_JOIN_PACKED_SIZE then Err(UnexpectedSize) else
      var (username, _) :- Take(s, USERNAME_SIZE);
      Ok(ClientJoin(hdr, username))
    else if hdr.messageType == CLIENT_DISCONNECT then
      if size != HEADER_PACKED_SIZE then Err(UnexpectedSize) else Ok(ClientDisconnect(hdr))
    else if hdr.messageType == SERVER_WELCOME then
      if size != HEADER_PACKED_SIZE then Err(UnexpectedSize) else Ok(ServerWelcome(hdr))
    else if hdr.messageType == CLIENT_INPUT then
      if size != CLIENT_INPUT_PACKED_SIZE then Err(UnexpectedSize) else
      var (input, _) :- ReadChar(s);
      Ok(ClientInput(hdr, input))
    else if hdr.messageType == SERVER_CONFIG then
      if size != SERVER_CONFIG_PACKED_SIZE then Err(UnexpectedSize) else
      var (m, _) :- ReadServerConfig(hdr, s);
      Ok(m)
    else if hdr.messageType == GAME_STATE then
      var (m, _) :- ReadGameState(hdr, s);
      Ok(m)
    else
      Err(InvalidMessageType)
  }

  /** A received frame as a message. */
  function Decode(buf: Bytes): Result<Message> {
    var (hdr, s) :- ReadHeader(buf);
    DecodeBody(hdr, s, |buf|)
  }

  // ---------- writing: each writer puts a value in front of the bytes that follow ----------

  function PutInt32(v: int, rest: Bytes): (s: Bytes)
    ensures FitsInt32(v) ==> ReadInt32(s) == Ok((v, rest))
  {
    if FitsInt32(v) then Int32RoundTrip(v); Int32Bytes(v) + rest else Int32Bytes(v) + rest
  }

  function PutUint32(v: int, rest: Bytes): (s: Bytes)
    ensures FitsUint32(v) ==> ReadUint32(s) == Ok((v, rest))
  {
    if FitsUint32(v) then Uint32RoundTrip(v); Uint32Bytes(v) + rest else Uint32Bytes(v) + rest
  }

  function PutInt64(v: int, rest: Bytes): (s: Bytes)
    ensures FitsInt64(v) ==> ReadInt64(s) == Ok((v, rest))
  {
    if FitsInt64(v) then Int64RoundTrip(v); Int64Bytes(v) + rest else Int64Bytes(v) + rest
  }

  function CharByte(c: char): Bytes {
    [(c as int % 256) as Byte]
  }

  function PutChar(c: char, rest: Bytes): (s: Bytes)
    ensures FitsChar(c) ==> ReadChar(s) == Ok((c, rest))
  {
    CharByte(c) + rest
  }

  function PutRaw(b: Bytes, rest: Bytes): (s: Bytes)
    ensures Take(s, |b|) == Ok((b, rest))
  {
    b + rest
  }

  function PutList<T>(put: (T, Bytes) -> Bytes, xs: seq<T>, rest: Bytes): Bytes {
    if xs == [] then rest else put(xs[0], PutList(put, xs[1..], rest))
  }

  function PutHeader(h: Header, rest: Bytes): (s: Bytes)
    ensures FitsHeader(h) ==> ReadHeader(s) == Ok((h, rest))
    ensures |s| == HEADER_PACKED_SIZE + |rest|
  {
    PutInt32(h.messageType, PutInt32(h.clientId, PutInt64(h.sequence, PutInt64(h.transactTime, rest))))
  }

  function PutFood(f: Food, rest: Bytes): (s: Bytes)
    ensures FitsFood(f) ==> ReadFood(s) == Ok((f, rest))
  {
    PutInt32(f.color, PutChar(f.icon, PutInt32(f.x, PutInt32(f.y, rest))))
  }

  function PutSegment(p: Segment, rest: Bytes): (s: Bytes)
    ensures FitsSegment(p) ==> ReadSegment(s) == Ok((p, rest))
  {
    PutInt32(p.x, PutInt32(p.y, rest))
  }

  function PutPlayer(p: PlayerState, rest: Bytes): Bytes {
    PutInt32(p.clientId, PutInt32(p.color, PutChar(p.direction, PutInt32(p.score, PutRaw(p.username,
      PutUint32(|p.segments|, PutList(PutSegment, p.segments, rest)))))))
  }

  /** Everything after the header. */
  function PutBody(m: Message, rest: Bytes): Bytes {
    match m
    case ServerConfig(_, w, h, seed, minFood, foodP, boostP, ratio, move, boosted, duration) =>
      PutInt32(w, PutInt32(h, PutUint32(seed, PutInt32(minFood, PutInt32(foodP, PutInt32(boostP, PutRaw(ratio,
        PutInt64(move, PutInt64(boosted, PutInt64(duration, rest))))))))))
    case ClientInput(_, input) => PutChar(input, rest)
    case ClientDisconnect(_) => rest
    case ServerWelcome(_) => rest
    case ClientJoin(_, username) => PutRaw(username, rest)
    case GameState(_, highScore, name, food, boosts, players) =>
      PutInt32(highScore, PutRaw(name,
        PutUint32(|food|, PutList(PutFood, food,
        PutUint32(|boosts|, PutList(PutFood, boosts,
        PutUint32(|players|, PutList(PutPlayer, players, rest))))))))
  }

  /** The bytes of a message. */
  function Encode(m: Message): Bytes {
    PutHeader(m.hdr, PutBody(m, []))
  }

  // ---------- reading back what was written ----------

  lemma {:induction false} ListRoundTrip<T(!new)>(
    read: Bytes -> Reading<T>, put: (T, Bytes) -> Bytes, fits: T -> bool, xs: seq<T>, rest: Bytes)
    requires forall x, r :: fits(x) ==> read(put(x, r)) == Ok((x, r))
    requires forall x :: x in xs ==> fits(x)
    ensures ReadList(read, |xs|, PutList(put, xs, rest)) == Ok((xs, rest))
  {
    if xs != [] {
      ListRoundTrip(read, put, fits, xs[1..], rest);
      assert xs == [xs[0]] + xs[1..];
    }
  }

  lemma PlayerRoundTrip(p: PlayerState, rest: Bytes)
    requires FitsPlayer(p)
    ensures ReadPlayer(PutPlayer(p, rest)) == Ok((p, rest))
  {
    ListRoundTrip(ReadSegment, PutSegment, FitsSegment, p.segments, rest);
  }

  lemma GameStateRoundTrip(m: Message, rest: Bytes)
    requires m.GameState? && Encodable(m)
    ensures ReadGameState(m.hdr, PutBody(m, rest)) == Ok((m, rest))
  {
    forall p: PlayerState, r: Bytes | FitsPlayer(p)
      ensures ReadPlayer(PutPlayer(p, r)) == Ok((p, r))
    {
      PlayerRoundTrip(p, r);
    }
    ListRoundTrip(ReadPlayer, PutPlayer, FitsPlayer, m.players, rest);
    var s := PutUint32(|m.players|, PutList(PutPlayer, m.players, rest));
    ListRoundTrip(ReadFood, PutFood, FitsFood, m.speedBoosts, s);
    var t := PutUint32(|m.speedBoosts|, PutList(PutFood, m.speedBoosts, s));
    ListRoundTrip(ReadFood, PutFood, FitsFood, m.food, t);
  }

  lemma ServerConfigRoundTrip(m: Message, rest: Bytes)
    requires m.ServerConfig? && Encodable(m)
    ensures ReadServerConfig(m.hdr, PutBody(m, rest)) == Ok((m, rest))
  {
  }

  /** The size that the reader demands of a fixed-size message. */
  function PackedSize(m: Message): nat
    requires !m.GameState?
  {
    match m
    case ServerConfig(_, _, _, _, _, _, _, _, _, _, _) => SERVER_CONFIG_PACKED_SIZE
    case ClientInput(_, _) => CLIENT_INPUT_PACKED_SIZE
    case ClientDisconnect(_) => HEADER_PACKED_SIZE
    case ServerWelcome(_) => HEADER_PACKED_SIZE
    case ClientJoin(_, _) => CLIENT_JOIN_PACKED_SIZE
  }

  lemma FixedSize(m: Message)
    requires !m.GameState?
    requires (m.ServerConfig? ==> |m.speedBoostRatio| == 4) && (m.ClientJoin? ==> |m.username| == USERNAME_SIZE)
    ensures HEADER_PACKED_SIZE + |PutBody(m, [])| == PackedSize(m)
  {
  }

  /** A fixed-size message whose frame has any other size is refused for its size. */
  lemma WrongSize(m: Message, s: Bytes, size: nat)
    requires Encodable(m) && !m.GameState? && size != PackedSize(m)
    ensures DecodeBody(m.hdr, s, size) == Err(UnexpectedSize)
  {
  }

  /** What a GAME_STATE tag makes of a body. */
  lemma DecodesGameState(hdr: Header, s: Bytes, size: nat)
    requires hdr.messageType == GAME_STATE
    ensures ReadGameState(hdr, s).Ok? ==> DecodeBody(hdr, s, size) == Ok(ReadGameState(hdr, s).value.0)
    ensures ReadGameState(hdr, s).Err? ==> DecodeBody(hdr, s, size).Err?
  {
  }

  lemma FixedRoundTrip(m: Message)
    requires Encodable(m) && !m.GameState?
    ensures DecodeBody(m.hdr, PutBody(m, []), PackedSize(m)) == Ok(m)
  {
    if m.ServerConfig? { ServerConfigRoundTrip(m, []); }
  }

  lemma BodyRoundTrip(m: Message)
    requires Encodable(m)
    ensures DecodeBody(m.hdr, PutBody(m, []), HEADER_PACKED_SIZE + |PutBody(m, [])|) == Ok(m)
  {
    if m.GameState? {
      GameStateRoundTrip(m, []);
      DecodesGameState(m.hdr, PutBody(m, []), HEADER_PACKED_SIZE + |PutBody(m, [])|);
    } else {
      FixedSize(m);
      FixedRoundTrip(m);
    }
  }

  /** Every message the types can hold is read back exactly. */
  lemma RoundTrip(m: Message)
    requires Encodable(m)
    ensures Decode(Encode(m)) == Ok(m)
  {
    BodyRoundTrip(m);
  }

  // ---------- a reader looks only at the bytes it consumes ----------

  /** More bytes at the end change nothing but the rest. */
  ghost predicate Local<T(!new)>(read: Bytes -> Reading<T>) {
    forall t: Bytes, u: Bytes :: LocalAt(read, t, u)
  }

  ghost predicate LocalAt<T(!new)>(read: Bytes -> Reading<T>, t: Bytes, u: Bytes) {
    read(t).Ok? ==> read(t + u) == Ok((read(t).value.0, read(t).value.1 + u))
  }

  lemma TakeLocal(t: Bytes, u: Bytes, n: nat)
    requires |t| >= n
    ensures Take(t + u, n) == Ok((t[..n], t[n..] + u))
  {
    assert (t + u)[..n] == t[..n];
    assert (t + u)[n..] == t[n..] + u;
  }

  lemma Int32Local(t: Bytes, u: Bytes)
    ensures LocalAt(ReadInt32, t, u)
  {
    if |t| >= 4 { TakeLocal(t, u, 4); }
  }

  lemma Uint32Local(t: Bytes, u: Bytes)
    ensures LocalAt(ReadUint32, t, u)
  {
    if |t| >= 4 { TakeLocal(t, u, 4); }
  }

  lemma CharLocal(t: Bytes, u: Bytes)
    ensures LocalAt(ReadChar, t, u)
  {
    if |t| >= 1 { TakeLocal(t, u, 1); }
  }

  lemma HeaderLocal(t: Bytes, u: Bytes)
    ensures LocalAt(ReadHeader, t, u)
    ensures ReadHeader(t).Ok? <==> |t| >= HEADER_PACKED_SIZE
  {
    if |t| >= 24 {
      TakeLocal(t, u, 4);
      TakeLocal(t[4..], u, 4);
      TakeLocal(t[4..][4..], u, 8);
      TakeLocal(t[4..][4..][8..], u, 8);
    }
  }

  lemma FoodLocal()
    ensures Local(ReadFood)
  {
    forall t: Bytes, u: Bytes ensures LocalAt(ReadFood, t, u) {
      if ReadFood(t).Ok? {
        Int32Local(t, u);
        var s := ReadInt32(t).value.1;
        CharLocal(s, u);
        s := ReadChar(s).value.1;
        Int32Local(s, u);
        Int32Local(ReadInt32(s).value.1, u);
      }
    }
  }

  lemma SegmentLocal()
    ensures Local(ReadSegment)
  {
    forall t: Bytes, u: Bytes ensures LocalAt(ReadSegment, t, u) {
      if ReadSegment(t).Ok? {
        Int32Local(t, u);
        Int32Local(ReadInt32(t).value.1, u);
      }
    }
  }

  lemma {:induction false} ListLocal<T(!new)>(read: Bytes -> Reading<T>, n: nat, t: Bytes, u: Bytes)
    requires Local(read)
    requires ReadList(read, n, t).Ok?
    ensures ReadList(read, n, t + u) == Ok((ReadList(read, n, t).value.0, ReadList(read, n, t).value.1 + u))
  {
    if n > 0 {
      assert LocalAt(read, t, u);
      ListLocal(read, n - 1, read(t).value.1, u);
    }
  }

  lemma PlayerLocal()
    ensures Local(ReadPlayer)
  {
    SegmentLocal();
    forall t: Bytes, u: Bytes ensures LocalAt(ReadPlayer, t, u) {
      if ReadPlayer(t).Ok? {
        Int32Local(t, u);
        var s := ReadInt32(t).value.1;
        Int32Local(s, u);
        s := ReadInt32(s).value.1;
        CharLocal(s, u);
        s := ReadChar(s).value.1;
        Int32Local(s, u);
        s := ReadInt32(s).value.1;
        TakeLocal(s, u, USERNAME_SIZE);
        s := s[USERNAME_SIZE..];
        Uint32Local(s, u);
        var count := ReadUint32(s).value.0;
        s := ReadUint32(s).value.1;
        ListLocal(ReadSegment, count, s, u);
      }
    }
  }

  lemma GameStateLocal(hdr: Header, t: Bytes, u: Bytes)
    requires ReadGameState(hdr, t).Ok?
    ensures ReadGameState(hdr, t + u) == Ok((ReadGameState(hdr, t).value.0, ReadGameState(hdr, t).value.1 + u))
  {
    FoodLocal();
    PlayerLocal();
    Int32Local(t, u);
    var s := ReadInt32(t).value.1;
    TakeLocal(s, u, USERNAME_SIZE);
    s := s[USERNAME_SIZE..];
    Uint32Local(s, u);
    var n := ReadUint32(s).value.0;
    s := ReadUint32(s).value.1;
    ListLocal(ReadFood, n, s, u);
    s := ReadList(ReadFood, n, s).value.1;
    Uint32Local(s, u);
    n, s := ReadUint32(s).value.0, ReadUint32(s).value.1;
    ListLocal(ReadFood, n, s, u);
    s := ReadList(ReadFood, n, s).value.1;
    Uint32Local(s, u);
    n, s := ReadUint32(s).value.0, ReadUint32(s).value.1;
    ListLocal(ReadPlayer, n, s, u);
  }

  lemma GameStateTruncated(m: Message, s: Bytes)
    requires m.GameState? && Encodable(m)
    requires s < PutBody(m, [])
    ensures ReadGameState(m.hdr, s).Err?
  {
    var u := PutBody(m, [])[|s|..];
    assert PutBody(m, []) == s + u;
    GameStateRoundTrip(m, []);
    if ReadGameState(m.hdr, s).Ok? {
      GameStateLocal(m.hdr, s, u);
    }
  }

  /** A frame cut inside its body is refused. */
  lemma BodyTruncated(m: Message, s: Bytes)
    requires Encodable(m) && s < PutBody(m, [])
    ensures DecodeBody(m.hdr, s, HEADER_PACKED_SIZE + |s|).Err?
  {
    if m.GameState? {
      GameStateTruncated(m, s);
      DecodesGameState(m.hdr, s, HEADER_PACKED_SIZE + |s|);
    } else {
      FixedSize(m);
      WrongSize(m, s, HEADER_PACKED_SIZE + |s|);
    }
  }

  /** A GAME_STATE frame with bytes after its body. */
  lemma GameStateTrailing(m: Message, body: Bytes, u: Bytes, size: nat)
    requires m.hdr.messageType == GAME_STATE
    requires ReadGameState(m.hdr, body) == Ok((m, []))
    ensures DecodeBody(m.hdr, body + u, size) == Ok(m)
  {
    GameStateLocal(m.hdr, body, u);
    assert [] + u == u;
    DecodesGameState(m.hdr, body + u, size);
  }

  /** Decoding splits after the header. */
  lemma DecodeSplit(h: Header, body: Bytes, u: Bytes)
    requires FitsHeader(h)
    ensures Decode(PutHeader(h, body) + u) == DecodeBody(h, body + u, HEADER_PACKED_SIZE + |body| + |u|)
  {
    HeaderLocal(PutHeader(h, body), u);
  }

  /** Cutting a frame cuts its header or its body. */
  lemma HeaderSplit(h: Header, body: Bytes, t: Bytes)
    requires FitsHeader(h) && t <= PutHeader(h, body)
    ensures |t| < HEADER_PACKED_SIZE ==> ReadHeader(t).Err?
    ensures |t| >= HEADER_PACKED_SIZE ==>
      ReadHeader(t).Ok? && ReadHeader(t).value.0 == h && ReadHeader(t).value.1 <= body
      && |t| == HEADER_PACKED_SIZE + |ReadHeader(t).value.1|
  {
    var u := PutHeader(h, body)[|t|..];
    assert PutHeader(h, body) == t + u;
    HeaderLocal(t, u);
  }

  /** No frame that was cut short is accepted: every strict prefix of an encoding is rejected. */
  lemma TruncationRejected(m: Message, t: Bytes)
    requires Encodable(m)
    requires t < Encode(m)
    ensures Decode(t).Err?
  {
    HeaderSplit(m.hdr, PutBody(m, []), t);
    if |t| >= HEADER_PACKED_SIZE {
      BodyTruncated(m, ReadHeader(t).value.1);
    }
  }

  lemma TrailingFixedSize(m: Message, u: Bytes)
    requires Encodable(m) && !m.GameState? && u != []
    ensures Decode(Encode(m) + u) == Err(UnexpectedSize)
  {
    var body := PutBody(m, []);
    DecodeSplit(m.hdr, body, u);
    FixedSize(m);
    WrongSize(m, body + u, HEADER_PACKED_SIZE + |body| + |u|);
  }

  lemma GameStateFrame(m: Message, body: Bytes, u: Bytes)
    requires FitsHeader(m.hdr) && m.hdr.messageType == GAME_STATE
    requires ReadGameState(m.hdr, body) == Ok((m, []))
    ensures Decode(PutHeader(m.hdr, body) + u) == Ok(m)
  {
    GameStateTrailing(m, body, u, HEADER_PACKED_SIZE + |body| + |u|);
    DecodeSplit(m.hdr, body, u);
  }

  lemma TrailingGameState(m: Message, u: Bytes)
    requires Encodable(m) && m.GameState?
    ensures Decode(Encode(m) + u) == Ok(m)
  {
    GameStateRoundTrip(m, []);
    GameStateFrame(m, PutBody(m, []), u);
  }

  /** Bytes after the end of a message are noticed in the five fixed-size messages, and only there. */
  lemma TrailingBytes(m: Message, u: Bytes)
    requires Encodable(m) && u != []
    ensures Decode(Encode(m) + u) == if m.GameState? then Ok(m) else Err(UnexpectedSize)
  {
    if m.GameState? { TrailingGameState(m, u); } else { TrailingFixedSize(m, u); }
  }
}
