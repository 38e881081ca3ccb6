/** Which frames the reader accepts: the encodings, and for GAME_STATE also what starts with one. */
module Acceptance {
  import opened Results
  import opened LittleEndian
  import opened Protocol

  // ---------- what was read can be written back ----------

  lemma Int32Inverse(s: Bytes)
    requires |s| == 4
    ensures Int32Bytes(Int32From(s)) == s
  {
    assert FromBytes(s) < TWO_32 by { Widths(); }
    ToFromBytes(s);
    assert Int32From(s) % TWO_32 == FromBytes(s);
  }

  lemma Int64Inverse(s: Bytes)
    requires |s| == 8
    ensures Int64Bytes(Int64From(s)) == s
  {
    assert FromBytes(s) < TWO_64 by { Widths(); }
    ToFromBytes(s);
    assert Int64From(s) % TWO_64 == FromBytes(s);
  }

  /** A value that fits, in front of the bytes that were not read. */
  ghost predicate Unread<T>(put: (T, Bytes) -> Bytes, fits: T -> bool, r: Reading<T>, s: Bytes) {
    r.Ok? ==> fits(r.value.0) && put(r.value.0, r.value.1) == s
  }

  lemma Int32Unread(s: Bytes)
    ensures ReadInt32(s).Ok? ==> PutInt32(ReadInt32(s).value.0, ReadInt32(s).value.1) == s
    ensures ReadInt32(s).Ok? ==> |ReadInt32(s).value.1| == |s| - 4
    ensures ReadInt32(s).Ok? <==> |s| >= 4
  {
    if |s| >= 4 {
      Int32Inverse(s[..4]);
      assert s[..4] + s[4..] == s;
    }
  }

  lemma Uint32Unread(s: Bytes)
    ensures ReadUint32(s).Ok? ==>
      FitsUint32(ReadUint32(s).value.0) && PutUint32(ReadUint32(s).value.0, ReadUint32(s).value.1) == s
  {
    if |s| >= 4 {
      Uint32Inverse(s[..4]);
      assert s[..4] + s[4..] == s;
    }
  }

  lemma Int64Unread(s: Bytes)
    ensures ReadInt64(s).Ok? ==> PutInt64(ReadInt64(s).value.0, ReadInt64(s).value.1) == s
    ensures ReadInt64(s).Ok? ==> FitsInt64(ReadInt64(s).value.0) && |ReadInt64(s).value.1| == |s| - 8
    ensures ReadInt64(s).Ok? <==> |s| >= 8
  {
    if |s| >= 8 {
      Int64Inverse(s[..8]);
      assert s[..8] + s[8..] == s;
    }
  }

  lemma CharUnread(s: Bytes)
    ensures ReadChar(s).Ok? ==>
      FitsChar(ReadChar(s).value.0) && PutChar(ReadChar(s).value.0, ReadChar(s).value.1) == s
  {
    if |s| >= 1 {
      assert CharByte(s[0] as int as char) == s[..1];
      assert s[..1] + s[1..] == s;
    }
  }

  lemma TakeUnread(s: Bytes, n: nat)
    ensures Take(s, n).Ok? ==> |Take(s, n).value.0| == n && PutRaw(Take(s, n).value.0, Take(s, n).value.1) == s
  {
    if |s| >= n { assert s[..n] + s[n..] == s; }
  }

  lemma {:induction false} ListUnread<T(!new)>(
    read: Bytes -> Reading<T>, put: (T, Bytes) -> Bytes, fits: T -> bool, n: nat, s: Bytes)
    requires forall t: Bytes :: Unread(put, fits, read(t), t)
    ensures var r := ReadList(read, n, s);
      r.Ok? ==> |r.value.0| == n && PutList(put, r.value.0, r.value.1) == s && forall x :: x in r.value.0 ==> fits(x)
  {
    if n > 0 && ReadList(read, n, s).Ok? {
      assert Unread(put, fits, read(s), s);
      var x, t := read(s).value.0, read(s).value.1;
      ListUnread(read, put, fits, n - 1, t);
      var xs := ReadList(read, n - 1, t).value.0;
      assert ([x] + xs)[1..] == xs;
    }
  }

  lemma HeaderUnread(s: Bytes)
    ensures ReadHeader(s).Ok? <==> |s| >= HEADER_PACKED_SIZE
    ensures ReadHeader(s).Err? ==> ReadHeader(s).error == TruncatedFrame
    ensures ReadHeader(s).Ok? ==>
      FitsHeader(ReadHeader(s).value.0) && PutHeader(ReadHeader(s).value.0, ReadHeader(s).value.1) == s
  {
    Int32Unread(s);
    if |s| >= 4 {
      var t := ReadInt32(s).value.1;
      Int32Unread(t);
      if |t| >= 4 {
        var u := ReadInt32(t).value.1;
        Int64Unread(u);
        if |u| >= 8 { Int64Unread(ReadInt64(u).value.1); }
      }
    }
  }

  lemma FoodUnread(s: Bytes)
    ensures Unread(PutFood, FitsFood, ReadFood(s), s)
  {
    if ReadFood(s).Ok? {
      Int32Unread(s);
      var t := ReadInt32(s).value.1;
      CharUnread(t);
      var u := ReadChar(t).value.1;
      Int32Unread(u);
      Int32Unread(ReadInt32(u).value.1);
    }
  }

  lemma SegmentUnread(s: Bytes)
    ensures Unread(PutSegment, FitsSegment, ReadSegment(s), s)
  {
    if ReadSegment(s).Ok? {
      Int32Unread(s);
      Int32Unread(ReadInt32(s).value.1);
    }
  }

  lemma PlayerUnread(s: Bytes)
    ensures Unread(PutPlayer, FitsPlayer, ReadPlayer(s), s)
  {
    if ReadPlayer(s).Ok? {
      Int32Unread(s);
      var t := ReadInt32(s).value.1;
      Int32Unread(t);
      t := ReadInt32(t).value.1;
      CharUnread(t);
      t := ReadChar(t).value.1;
      Int32Unread(t);
      t := ReadInt32(t).value.1;
      TakeUnread(t, USERNAME_SIZE);
      t := Take(t, USERNAME_SIZE).value.1;
      Uint32Unread(t);
      forall u: Bytes ensures Unread(PutSegment, FitsSegment, ReadSegment(u), u) { SegmentUnread(u); }
      ListUnread(ReadSegment, PutSegment, FitsSegment, ReadUint32(t).value.0, ReadUint32(t).value.1);
    }
  }

  /** The body of a GAME_STATE, written back. */
  lemma GameStateUnread(h: Header, s: Bytes)
    requires FitsHeader(h) && h.messageType == GAME_STATE && ReadGameState(h, s).Ok?
    ensures var m := ReadGameState(h, s).value.0;
      m.GameState? && m.hdr == h && Encodable(m) && PutBody(m, ReadGameState(h, s).value.1) == s
  {
    forall u: Bytes ensures Unread(PutFood, FitsFood, ReadFood(u), u) { FoodUnread(u); }
    forall u: Bytes ensures Unread(PutPlayer, FitsPlayer, ReadPlayer(u), u) { PlayerUnread(u); }
    Int32Unread(s);
    var t := ReadInt32(s).value.1;
    TakeUnread(t, USERNAME_SIZE);
    t := Take(t, USERNAME_SIZE).value.1;
    Uint32Unread(t);
    var n := ReadUint32(t).value.0;
    t := ReadUint32(t).value.1;
    ListUnread(ReadFood, PutFood, FitsFood, n, t);
    t := ReadList(ReadFood, n, t).value.1;
    Uint32Unread(t);
    n, t := ReadUint32(t).value.0, ReadUint32(t).value.1;
    ListUnread(ReadFood, PutFood, FitsFood, n, t);
    t := ReadList(ReadFood, n, t).value.1;
    Uint32Unread(t);
    n, t := ReadUint32(t).value.0, ReadUint32(t).value.1;
    ListUnread(ReadPlayer, PutPlayer, FitsPlayer, n, t);
  }

  lemma ServerConfigUnread(h: Header, s: Bytes)
    requires FitsHeader(h) && h.messageType == SERVER_CONFIG && ReadServerConfig(h, s).Ok?
    ensures var m := ReadServerConfig(h, s).value.0;
      m.ServerConfig? && m.hdr == h && Encodable(m) && PutBody(m, ReadServerConfig(h, s).value.1) == s
  {
    Int32Unread(s);
    var t := ReadInt32(s).value.1;
    Int32Unread(t);
    t := ReadInt32(t).value.1;
    Uint32Unread(t);
    t := ReadUint32(t).value.1;
    Int32Unread(t);
    t := ReadInt32(t).value.1;
    Int32Unread(t);
    t := ReadInt32(t).value.1;
    Int32Unread(t);
    t := ReadInt32(t).value.1;
    TakeUnread(t, 4);
    t := Take(t, 4).value.1;
    Int64Unread(t);
    t := ReadInt64(t).value.1;
    Int64Unread(t);
    t := ReadInt64(t).value.1;
    Int64Unread(t);
  }

  // ---------- bytes behind a message ----------

  /** What is written in front of some bytes does not depend on them. */
  ghost predicate Prepends<T(!new)>(put: (T, Bytes) -> Bytes) {
    forall x: T, a: Bytes, b: Bytes :: PrependsAt(put, x, a, b)
  }

  ghost predicate PrependsAt<T>(put: (T, Bytes) -> Bytes, x: T, a: Bytes, b: Bytes) {
    put(x, a) + b == put(x, a + b)
  }

  lemma {:induction false} ListPrepends<T(!new)>(put: (T, Bytes) -> Bytes, xs: seq<T>, a: Bytes, b: Bytes)
    requires Prepends(put)
    ensures PutList(put, xs, a) + b == PutList(put, xs, a + b)
  {
    if xs != [] {
      assert PrependsAt(put, xs[0], PutList(put, xs[1..], a), b);
      ListPrepends(put, xs[1..], a, b);
    }
  }

  lemma BytesPrepend(front: Bytes, a: Bytes, b: Bytes)
    ensures (front + a) + b == front + (a + b)
  {
  }

  lemma FoodPrepends()
    ensures Prepends(PutFood)
  {
    forall f: Food, a: Bytes, b: Bytes ensures PrependsAt(PutFood, f, a, b) {
      BytesPrepend(Int32Bytes(f.y), a, b);
      BytesPrepend(Int32Bytes(f.x), PutInt32(f.y, a), b);
      BytesPrepend(CharByte(f.icon), PutInt32(f.x, PutInt32(f.y, a)), b);
      BytesPrepend(Int32Bytes(f.color), PutChar(f.icon, PutInt32(f.x, PutInt32(f.y, a))), b);
    }
  }

  lemma SegmentPrepends()
    ensures Prepends(PutSegment)
  {
    forall p: Segment, a: Bytes, b: Bytes ensures PrependsAt(PutSegment, p, a, b) {
      BytesPrepend(Int32Bytes(p.y), a, b);
      BytesPrepend(Int32Bytes(p.x), PutInt32(p.y, a), b);
    }
  }

  lemma PlayerPrepends()
    ensures Prepends(PutPlayer)
  {
    SegmentPrepends();
    forall p: PlayerState, a: Bytes, b: Bytes ensures PrependsAt(PutPlayer, p, a, b) {
      var t := PutList(PutSegment, p.segments, a);
      ListPrepends(PutSegment, p.segments, a, b);
      BytesPrepend(Uint32Bytes(|p.segments|), t, b);
      t := PutUint32(|p.segments|, t);
      BytesPrepend(p.username, t, b);
      t := PutRaw(p.username, t);
      BytesPrepend(Int32Bytes(p.score), t, b);
      t := PutInt32(p.score, t);
      BytesPrepend(CharByte(p.direction), t, b);
      t := PutChar(p.direction, t);
      BytesPrepend(Int32Bytes(p.color), t, b);
      t := PutInt32(p.color, t);
      BytesPrepend(Int32Bytes(p.clientId), t, b);
    }
  }

  /** A list behind its count. */
  lemma CountedPrepends<T(!new)>(put: (T, Bytes) -> Bytes, xs: seq<T>, a: Bytes, b: Bytes)
    requires Prepends(put)
    ensures PutUint32(|xs|, PutList(put, xs, a)) + b == PutUint32(|xs|, PutList(put, xs, a + b))
  {
    ListPrepends(put, xs, a, b);
    BytesPrepend(Uint32Bytes(|xs|), PutList(put, xs, a), b);
  }

  lemma GameStatePrepends(m: Message, b: Bytes)
    requires m.GameState?
    ensures PutBody(m, []) + b == PutBody(m, b)
  {
    FoodPrepends();
    PlayerPrepends();
    assert [] + b == b;
    CountedPrepends(PutPlayer, m.players, [], b);
    var t := PutUint32(|m.players|, PutList(PutPlayer, m.players, []));
    CountedPrepends(PutFood, m.speedBoosts, t, b);
    t := PutUint32(|m.speedBoosts|, PutList(PutFood, m.speedBoosts, t));
    CountedPrepends(PutFood, m.food, t, b);
    t := PutUint32(|m.food|, PutList(PutFood, m.food, t));
    BytesPrepend(m.highScoreUsername, t, b);
    BytesPrepend(Int32Bytes(m.highScore), PutRaw(m.highScoreUsername, t), b);
  }

  lemma HeaderPrepends(h: Header, a: Bytes, b: Bytes)
    ensures PutHeader(h, a) + b == PutHeader(h, a + b)
  {
    var t := PutInt64(h.transactTime, a);
    BytesPrepend(Int64Bytes(h.transactTime), a, b);
    BytesPrepend(Int64Bytes(h.sequence), t, b);
    t := PutInt64(h.sequence, t);
    BytesPrepend(Int32Bytes(h.clientId), t, b);
    BytesPrepend(Int32Bytes(h.messageType), PutInt32(h.clientId, t), b);
  }

  // ---------- which frames are accepted ----------

  /** The frame is the encoding of m, or for a GAME_STATE starts with it. */
  ghost predicate IsFrameOf(buf: Bytes, m: Message) {
    Encodable(m) && Encode(m) <= buf && (m.GameState? || |buf| == |Encode(m)|)
  }

  /** A body of a fixed-size message that was accepted. */
  lemma FixedBody(h: Header, s: Bytes)
    requires FitsHeader(h) && h.messageType != GAME_STATE
    requires DecodeBody(h, s, HEADER_PACKED_SIZE + |s|).Ok?
    ensures var m := DecodeBody(h, s, HEADER_PACKED_SIZE + |s|).value;
      !m.GameState? && m.hdr == h && Encodable(m) && PutBody(m, []) == s
  {
    if h.messageType == CLIENT_JOIN {
      TakeUnread(s, USERNAME_SIZE);
      assert s[..USERNAME_SIZE] == s;
    } else if h.messageType == CLIENT_INPUT {
      CharUnread(s);
    } else if h.messageType == SERVER_CONFIG {
      ServerConfigUnread(h, s);
      FixedSize(ReadServerConfig(h, s).value.0);
      ConfigConsumed(ReadServerConfig(h, s).value.0, ReadServerConfig(h, s).value.1);
    }
  }

  /** A configuration of the right size leaves nothing. */
  lemma ConfigConsumed(m: Message, rest: Bytes)
    requires m.ServerConfig? && |m.speedBoostRatio| == 4
    ensures |PutBody(m, rest)| == SERVER_CONFIG_PACKED_SIZE - HEADER_PACKED_SIZE + |rest|
  {
  }

  /** An accepted frame is one of the message that it was decoded to. */
  lemma AcceptedIsFrame(buf: Bytes)
    requires Decode(buf).Ok?
    ensures IsFrameOf(buf, Decode(buf).value)
  {
    HeaderUnread(buf);
    var h, s := ReadHeader(buf).value.0, ReadHeader(buf).value.1;
    var m := Decode(buf).value;
    assert |buf| == HEADER_PACKED_SIZE + |s|;
    if h.messageType == GAME_STATE {
      GameStateUnread(h, s);
      var rest := ReadGameState(h, s).value.1;
      GameStatePrepends(m, rest);
      HeaderPrepends(h, PutBody(m, []), rest);
    } else {
      FixedBody(h, s);
    }
  }

  lemma FixedIsAccepted(m: Message, buf: Bytes)
    requires Encodable(m) && buf == Encode(m)
    ensures Decode(buf) == Ok(m)
  {
    RoundTrip(m);
  }

  lemma LongerIsAccepted(m: Message, buf: Bytes, u: Bytes)
    requires Encodable(m) && m.GameState? && buf == Encode(m) + u && u != []
    ensures Decode(buf) == Ok(m)
  {
    TrailingBytes(m, u);
  }

  lemma Behind(buf: Bytes, e: Bytes)
    requires e <= buf
    ensures buf == e + buf[|e|..] && (|buf| == |e| ==> buf == e)
  {
  }

  lemma FrameOfIsAccepted(buf: Bytes, m: Message, e: Bytes)
    requires IsFrameOf(buf, m) && e == Encode(m)
    ensures Decode(buf) == Ok(m)
  {
    Behind(buf, e);
    if |buf| == |e| {
      FixedIsAccepted(m, buf);
    } else {
      LongerIsAccepted(m, buf, buf[|e|..]);
    }
  }

  /** A frame is decoded to a message if and only if it is a frame of that message. */
  lemma AcceptedExactlyWhen(buf: Bytes, m: Message)
    ensures Decode(buf) == Ok(m) <==> IsFrameOf(buf, m)
  {
    if Decode(buf) == Ok(m) { AcceptedIsFrame(buf); }
    if IsFrameOf(buf, m) { FrameOfIsAccepted(buf, m, Encode(m)); }
  }

  /** The size of a frame of a fixed-size type. */
  function FrameSize(tag: int): nat {
    if tag == SERVER_CONFIG then SERVER_CONFIG_PACKED_SIZE
    else if tag == CLIENT_JOIN then CLIENT_JOIN_PACKED_SIZE
    else if tag == CLIENT_INPUT then CLIENT_INPUT_PACKED_SIZE
    else HEADER_PACKED_SIZE
  }

  /** Every received frame: too short for a header, of an unknown type, of a fixed-size type and then
      accepted exactly if it has that size, or a GAME_STATE and then only refused for being cut short. */
  lemma RefusedExactlyWhen(buf: Bytes)
    ensures |buf| < HEADER_PACKED_SIZE ==> Decode(buf) == Err(TruncatedFrame)
    ensures |buf| >= HEADER_PACKED_SIZE ==> ReadHeader(buf).Ok?
    ensures |buf| >= HEADER_PACKED_SIZE ==>
      var tag := ReadHeader(buf).value.0.messageType;
      if !(0 <= tag <= 5) then Decode(buf) == Err(InvalidMessageType)
      else if tag == GAME_STATE then Decode(buf).Err? ==> Decode(buf).error == TruncatedFrame
      else if |buf| == FrameSize(tag) then Decode(buf).Ok? else Decode(buf) == Err(UnexpectedSize)
  {
    HeaderUnread(buf);
    if |buf| >= HEADER_PACKED_SIZE {
      var h, s := ReadHeader(buf).value.0, ReadHeader(buf).value.1;
      BodyRefused(h, s);
    }
  }

  lemma BodyRefused(h: Header, s: Bytes)
    ensures var d := DecodeBody(h, s, HEADER_PACKED_SIZE + |s|);
      if !(0 <= h.messageType <= 5) then d == Err(InvalidMessageType)
      else if h.messageType == GAME_STATE then d.Err? ==> d.error == TruncatedFrame
      else if HEADER_PACKED_SIZE + |s| == FrameSize(h.messageType) then d.Ok? else d == Err(UnexpectedSize)
  {
    if h.messageType == GAME_STATE { GameStateError(h, s); }
  }

  lemma {:induction false} ListError<T(!new)>(read: Bytes -> Reading<T>, n: nat, s: Bytes)
    requires forall t: Bytes :: Truncates(read(t))
    ensures Truncates(ReadList(read, n, s))
  {
    if n > 0 && read(s).Ok? {
      ListError(read, n - 1, read(s).value.1);
    } else if n > 0 {
      assert Truncates(read(s));
    }
  }

  /** The only error of a reader of fields. */
  predicate Truncates<T>(r: Reading<T>) {
    r.Err? ==> r.error == TruncatedFrame
  }

  lemma GameStateError(h: Header, s: Bytes)
    ensures Truncates(ReadGameState(h, s))
  {
    forall t: Bytes ensures Truncates(ReadFood(t)) {}
    forall t: Bytes ensures Truncates(ReadPlayer(t)) { PlayerError(t); }
    forall n: nat, t: Bytes ensures Truncates(ReadList(ReadFood, n, t)) { ListError(ReadFood, n, t); }
    forall n: nat, t: Bytes ensures Truncates(ReadList(ReadPlayer, n, t)) { ListError(ReadPlayer, n, t); }
  }

  lemma PlayerError(s: Bytes)
    ensures Truncates(ReadPlayer(s))
  {
    forall t: Bytes ensures Truncates(ReadSegment(t)) {}
    forall n: nat, t: Bytes ensures Truncates(ReadList(ReadSegment, n, t)) { ListError(ReadSegment, n, t); }
  }
}
