/** The protocol's two entry points as loops: an output buffer that grows by appending, and a read
    cursor, kept as the bytes not yet read, that moves forward one field at a time. */
module Serialiser {
  import opened Results
  import opened LittleEndian
  import opened Protocol

  /** Append source to dest. Whatever is still to be written after source keeps its place. */
  method AppendRawBytes(source: Bytes, dest: Bytes, ghost rest: Bytes) returns (buf: Bytes)
    ensures buf == dest + source
    ensures buf + rest == dest + (source + rest)
  {
    buf := dest + source;
  }

  method SerialiseHeader(h: Header, ghost rest: Bytes) returns (buf: Bytes)
    ensures buf + rest == PutHeader(h, rest)
  {
    ghost var afterSequence := PutInt64(h.transactTime, rest);
    ghost var afterClient := PutInt64(h.sequence, afterSequence);
    buf := AppendRawBytes(Int32Bytes(h.messageType), [], PutInt32(h.clientId, afterClient));
    buf := AppendRawBytes(Int32Bytes(h.clientId), buf, afterClient);
    buf := AppendRawBytes(Int64Bytes(h.sequence), buf, afterSequence);
    buf := AppendRawBytes(Int64Bytes(h.transactTime), buf, rest);
  }

  method AppendFoods(start: Bytes, foods: seq<Food>, ghost tail: Bytes) returns (buf: Bytes)
    ensures buf + tail == start + PutList(PutFood, foods, tail)
  {
    buf := start;
    for i := 0 to |foods|
      invariant buf + PutList(PutFood, foods[i..], tail) == start + PutList(PutFood, foods, tail)
    {
      var f := foods[i];
      ghost var rest := PutList(PutFood, foods[i + 1..], tail);
      assert foods[i..][1..] == foods[i + 1..];
      ghost var afterX := PutInt32(f.y, rest);
      ghost var afterIcon := PutInt32(f.x, afterX);
      buf := AppendRawBytes(Int32Bytes(f.color), buf, PutChar(f.icon, afterIcon));
      buf := AppendRawBytes(CharByte(f.icon), buf, afterIcon);
      buf := AppendRawBytes(Int32Bytes(f.x), buf, afterX);
      buf := AppendRawBytes(Int32Bytes(f.y), buf, rest);
    }
  }

  method AppendSegments(start: Bytes, segments: seq<Segment>, ghost tail: Bytes) returns (buf: Bytes)
    ensures buf + tail == start + PutList(PutSegment, segments, tail)
  {
    buf := start;
    for j := 0 to |segments|
      invariant buf + PutList(PutSegment, segments[j..], tail) == start + PutList(PutSegment, segments, tail)
    {
      ghost var rest := PutList(PutSegment, segments[j + 1..], tail);
      assert segments[j..][1..] == segments[j + 1..];
      buf := AppendRawBytes(Int32Bytes(segments[j].x), buf, PutInt32(segments[j].y, rest));
      buf := AppendRawBytes(Int32Bytes(segments[j].y), buf, rest);
    }
  }

  method AppendPlayer(start: Bytes, p: PlayerState, ghost rest: Bytes) returns (buf: Bytes)
    ensures buf + rest == start + PutPlayer(p, rest)
  {
    ghost var segments := PutList(PutSegment, p.segments, rest);
    ghost var afterName := PutUint32(|p.segments|, segments);
    ghost var afterScore := PutRaw(p.username, afterName);
    ghost var afterDirection := PutInt32(p.score, afterScore);
    ghost var afterColor := PutChar(p.direction, afterDirection);
    buf := AppendRawBytes(Int32Bytes(p.clientId), start, PutInt32(p.color, afterColor));
    buf := AppendRawBytes(Int32Bytes(p.color), buf, afterColor);
    buf := AppendRawBytes(CharByte(p.direction), buf, afterDirection);
    buf := AppendRawBytes(Int32Bytes(p.score), buf, afterScore);
    buf := AppendRawBytes(p.username, buf, afterName);
    buf := AppendRawBytes(Uint32Bytes(|p.segments|), buf, segments);
    buf := AppendSegments(buf, p.segments, rest);
  }

  method AppendPlayers(start: Bytes, players: seq<PlayerState>, ghost tail: Bytes) returns (buf: Bytes)
    ensures buf + tail == start + PutList(PutPlayer, players, tail)
  {
    buf := start;
    for i := 0 to |players|
      invariant buf + PutList(PutPlayer, players[i..], tail) == start + PutList(PutPlayer, players, tail)
    {
      assert players[i..][1..] == players[i + 1..];
      buf := AppendPlayer(buf, players[i], PutList(PutPlayer, players[i + 1..], tail));
    }
  }

  method SerialiseGameState(m: Message, start: Bytes) returns (buf: Bytes)
    requires m.GameState?
    ensures buf == start + PutBody(m, [])
  {
    ghost var players := PutList(PutPlayer, m.players, []);
    ghost var afterBoosts := PutUint32(|m.players|, players);
    ghost var boosts := PutList(PutFood, m.speedBoosts, afterBoosts);
    ghost var afterFood := PutUint32(|m.speedBoosts|, boosts);
    ghost var food := PutList(PutFood, m.food, afterFood);
    ghost var afterName := PutUint32(|m.food|, food);
    buf := AppendRawBytes(Int32Bytes(m.highScore), start, PutRaw(m.highScoreUsername, afterName));
    buf := AppendRawBytes(m.highScoreUsername, buf, afterName);
    buf := AppendRawBytes(Uint32Bytes(|m.food|), buf, food);
    buf := AppendFoods(buf, m.food, afterFood);
    buf := AppendRawBytes(Uint32Bytes(|m.speedBoosts|), buf, boosts);
    buf := AppendFoods(buf, m.speedBoosts, afterBoosts);
    buf := AppendRawBytes(Uint32Bytes(|m.players|), buf, players);
    buf := AppendPlayers(buf, m.players, []);
    assert buf == buf + [];
  }

  method SerialiseServerConfig(m: Message, start: Bytes) returns (buf: Bytes)
    requires m.ServerConfig?
    ensures buf == start + PutBody(m, [])
  {
    ghost var afterBoosted := PutInt64(m.boostDurationMs, []);
    ghost var afterMove := PutInt64(m.boostedMovementFrequencyMs, afterBoosted);
    ghost var afterRatio := PutInt64(m.movementFrequencyMs, afterMove);
    ghost var afterBoostP := PutRaw(m.speedBoostRatio, afterRatio);
    ghost var afterFoodP := PutInt32(m.speedBoostProbability, afterBoostP);
    ghost var afterMinFood := PutInt32(m.foodSpawnProbability, afterFoodP);
    ghost var afterSeed := PutInt32(m.minFoodInArena, afterMinFood);
    ghost var afterHeight := PutUint32(m.seed, afterSeed);
    buf := AppendRawBytes(Int32Bytes(m.width), start, PutInt32(m.height, afterHeight));
    buf := AppendRawBytes(Int32Bytes(m.height), buf, afterHeight);
    buf := AppendRawBytes(Uint32Bytes(m.seed), buf, afterSeed);
    buf := AppendRawBytes(Int32Bytes(m.minFoodInArena), buf, afterMinFood);
    buf := AppendRawBytes(Int32Bytes(m.foodSpawnProbability), buf, afterFoodP);
    buf := AppendRawBytes(Int32Bytes(m.speedBoostProbability), buf, afterBoostP);
    buf := AppendRawBytes(m.speedBoostRatio, buf, afterRatio);
    buf := AppendRawBytes(Int64Bytes(m.movementFrequencyMs), buf, afterMove);
    buf := AppendRawBytes(Int64Bytes(m.boostedMovementFrequencyMs), buf, afterBoosted);
    buf := AppendRawBytes(Int64Bytes(m.boostDurationMs), buf, []);
    assert buf == buf + [];
  }

  method Serialise(m: Message) returns (buf: Bytes)
    ensures buf == Encode(m)
  {
    buf := SerialiseHeader(m.hdr, PutBody(m, []));
    match m {
      case ClientJoin(_, username) => buf := AppendRawBytes(username, buf, []);
      case ClientInput(_, input) => buf := AppendRawBytes(CharByte(input), buf, []);
      case ServerConfig(_, _, _, _, _, _, _, _, _, _, _) => buf := SerialiseServerConfig(m, buf);
      case GameState(_, _, _, _, _, _) => buf := SerialiseGameState(m, buf);
      case _ =>
    }
  }

  // ---------- reading ----------

  /** Items already read, followed by the outcome of reading the others. */
  ghost function Resume<T>(done: seq<T>, more: Reading<seq<T>>): Reading<seq<T>> {
    match more
    case Ok((xs, rest)) => Ok((done + xs, rest))
    case Err(e) => Err(e)
  }

  lemma ResumeNil<T>(more: Reading<seq<T>>)
    ensures Resume([], more) == more
  {
    if more.Ok? {
      assert [] + more.value.0 == more.value.0;
    }
  }

  /** One turn of a counted loop. */
  lemma ReadOne<T>(read: Bytes -> Reading<T>, n: nat, s: Bytes, done: seq<T>)
    requires n > 0
    ensures read(s).Err? ==> Resume(done, ReadList(read, n, s)) == Err(read(s).error)
    ensures read(s).Ok? ==>
      Resume(done, ReadList(read, n, s)) == Resume(done + [read(s).value.0], ReadList(read, n - 1, read(s).value.1))
  {
    if read(s).Ok? {
      var x := read(s).value.0;
      var more := ReadList(read, n - 1, read(s).value.1);
      if more.Ok? {
        assert done + ([x] + more.value.0) == done + [x] + more.value.0;
      }
    }
  }

  /** One of the counted loops: read count items, stopping at the first that is truncated. */
  method ReadItems<T>(read: Bytes -> Reading<T>, count: nat, source: Bytes) returns (r: Reading<seq<T>>)
    ensures r == ReadList(read, count, source)
  {
    var raw, items := source, [];
    ResumeNil(ReadList(read, count, source));
    for i := 0 to count
      invariant Resume(items, ReadList(read, count - i, raw)) == ReadList(read, count, source)
    {
      ReadOne(read, count - i, raw, items);
      var item := read(raw);
      if item.Err? {
        return Err(item.error);
      }
      items := items + [item.value.0];
      raw := item.value.1;
    }
    assert items + [] == items;
    return Ok((items, raw));
  }

  /** The outer loop over players, with the loop over segments inside. */
  method ReadPlayers(count: nat, source: Bytes, ghost read: Bytes -> Reading<PlayerState>)
    returns (r: Reading<seq<PlayerState>>)
    requires ReadsPlayers(read)
    ensures r == ReadList(read, count, source)
  {
    var raw, players := source, [];
    ResumeNil(ReadList(read, count, source));
    for i := 0 to count
      invariant Resume(players, ReadList(read, count - i, raw)) == ReadList(read, count, source)
    {
      ReadOne(read, count - i, raw, players);
      var item := DeserialisePlayer(raw, read);
      if item.Err? {
        return Err(item.error);
      }
      players := players + [item.value.0];
      raw := item.value.1;
    }
    assert players + [] == players;
    return Ok((players, raw));
  }

  ghost predicate ReadsPlayers(read: Bytes -> Reading<PlayerState>) {
    forall s: Bytes {:trigger ReadPlayer(s)} :: read(s) == ReadPlayer(s)
  }

  method DeserialisePlayer(source: Bytes, ghost read: Bytes -> Reading<PlayerState>) returns (r: Reading<PlayerState>)
    requires ReadsPlayers(read)
    ensures r == read(source)
  {
    assert read(source) == ReadPlayer(source);
    var clientId :- ReadInt32(source);
    var color :- ReadInt32(clientId.1);
    var direction :- ReadChar(color.1);
    var score :- ReadInt32(direction.1);
    var username :- Take(score.1, USERNAME_SIZE);
    var count :- ReadUint32(username.1);
    var segments :- ReadItems(ReadSegment, count.0, count.1);
    r := Ok((PlayerState(clientId.0, color.0, direction.0, score.0, username.0, segments.0), segments.1));
  }

  method DeserialiseGameState(hdr: Header, source: Bytes) returns (r: Reading<Message>)
    ensures r == ReadGameState(hdr, source)
  {
    var highScore :- ReadInt32(source);
    var name :- Take(highScore.1, USERNAME_SIZE);
    var foodCount :- ReadUint32(name.1);
    var food :- ReadItems(ReadFood, foodCount.0, foodCount.1);
    var boostCount :- ReadUint32(food.1);
    var boosts :- ReadItems(ReadFood, boostCount.0, boostCount.1);
    var playerCount :- ReadUint32(boosts.1);
    var players :- ReadPlayers(playerCount.0, playerCount.1, ReadPlayer);
    r := Ok((GameState(hdr, highScore.0, name.0, food.0, boosts.0, players.0), players.1));
  }

  method DeserialiseHeader(source: Bytes) returns (r: Reading<Header>)
    ensures r == ReadHeader(source)
  {
    var messageType :- ReadInt32(source);
    var clientId :- ReadInt32(messageType.1);
    var sequence :- ReadInt64(clientId.1);
    var transactTime :- ReadInt64(sequence.1);
    r := Ok((Header(messageType.0, clientId.0, sequence.0, transactTime.0), transactTime.1));
  }

  method DeserialiseServerConfig(hdr: Header, source: Bytes) returns (r: Reading<Message>)
    ensures r == ReadServerConfig(hdr, source)
  {
    var width :- ReadInt32(source);
    var height :- ReadInt32(width.1);
    var seed :- ReadUint32(height.1);
    var minFood :- ReadInt32(seed.1);
    var foodP :- ReadInt32(minFood.1);
    var boostP :- ReadInt32(foodP.1);
    var ratio :- Take(boostP.1, 4);
    var move :- ReadInt64(ratio.1);
    var boosted :- ReadInt64(move.1);
    var duration :- ReadInt64(boosted.1);
    r := Ok((ServerConfig(hdr, width.0, height.0, seed.0, minFood.0, foodP.0, boostP.0, ratio.0, move.0, boosted.0,
                          duration.0), duration.1));
  }

  /** A join with the name that was read, or the error. */
  function Named(hdr: Header, username: Reading<Bytes>): Result<Message> {
    var (name, _) :- username;
    Ok(ClientJoin(hdr, name))
  }

  method Deserialise(buf: Bytes) returns (r: Result<Message>)
    ensures r == Decode(buf)
  {
    var header :- DeserialiseHeader(buf);
    var hdr, raw := header.0, header.1;
    if hdr.messageType == CLIENT_JOIN {
      if |buf| != CLIENT_JOIN_PACKED_SIZE {
        return Err(UnexpectedSize);
      }
      return Named(hdr, Take(raw, USERNAME_SIZE));
    } else if hdr.messageType == CLIENT_DISCONNECT {
      if |buf| != HEADER_PACKED_SIZE {
        return Err(UnexpectedSize);
      }
      return Ok(ClientDisconnect(hdr));
    } else if hdr.messageType == SERVER_WELCOME {
      if |buf| != HEADER_PACKED_SIZE {
        return Err(UnexpectedSize);
      }
      return Ok(ServerWelcome(hdr));
    } else if hdr.messageType == CLIENT_INPUT {
      if |buf| != CLIENT_INPUT_PACKED_SIZE {
        return Err(UnexpectedSize);
      }
      var input :- ReadChar(raw);
      return Ok(ClientInput(hdr, input.0));
    } else if hdr.messageType == SERVER_CONFIG {
      if |buf| != SERVER_CONFIG_PACKED_SIZE {
        return Err(UnexpectedSize);
      }
      var config :- DeserialiseServerConfig(hdr, raw);
      return Ok(config.0);
    } else if hdr.messageType == GAME_STATE {
      var state :- DeserialiseGameState(hdr, raw);
      return Ok(state.0);
    }
    return Err(InvalidMessageType);
  }

  /** The server's overload: whatever client id the frame carries is replaced by the connection's. */
  method DeserialiseFrom(buf: Bytes, clientId: Int32) returns (r: Result<Message>)
    ensures r.Ok? <==> Decode(buf).Ok?
    ensures r.Ok? ==> r.value.hdr == Decode(buf).value.hdr.(clientId := clientId)
    ensures r.Ok? ==> r.value == Decode(buf).value.(hdr := r.value.hdr)
  {
    var m :- Deserialise(buf);
    return Ok(m.(hdr := m.hdr.(clientId := clientId)));
  }
}
