/** From a client's messages to the server's queue and back: what arrives of what was sent, in messages. */
module Delivery {
  import opened Results
  import opened Sequences
  import opened LittleEndian
  import opened Protocol
  import opened Serialiser
  import opened Framing
  import opened NetworkServer
  import opened NetworkClient

  // ---------- messages as frames ----------

  function Map<T, U>(f: T -> U, xs: seq<T>): (r: seq<U>)
    ensures |r| == |xs|
  {
    if xs == [] then [] else [f(xs[0])] + Map(f, xs[1..])
  }

  lemma {:induction false} MapAt<T, U>(f: T -> U, xs: seq<T>, i: nat)
    requires i < |xs|
    ensures Map(f, xs)[i] == f(xs[i])
  {
    if i > 0 { MapAt(f, xs[1..], i - 1); }
  }

  lemma MapSlice<T, U>(f: T -> U, xs: seq<T>, i: nat, j: nat)
    requires i <= j <= |xs|
    ensures Map(f, xs)[i..j] == Map(f, xs[i..j])
  {
    forall k | 0 <= k < j - i ensures Map(f, xs)[i..j][k] == Map(f, xs[i..j])[k] {
      MapAt(f, xs, i + k);
      MapAt(f, xs[i..j], k);
    }
  }

  function EncodeAll(ms: seq<Message>): seq<Bytes> {
    Map(Encode, ms)
  }

  /** A message as it is read on a connection: the identifier is the connection's, whatever the sender wrote. */
  function Readdressed(m: Message, id: Int32): Message {
    m.(hdr := m.hdr.(clientId := id))
  }

  function ReaddressedAll(ms: seq<Message>, id: Int32): seq<Message> {
    Map((m: Message) => Readdressed(m, id), ms)
  }

  function DecodeFrom(frame: Bytes, id: Int32): Result<Message> {
    var m :- Decode(frame);
    Ok(Readdressed(m, id))
  }

  /** How the frames of one connection are read. */
  function Reader(id: Int32): Bytes -> Result<Message> {
    (frame: Bytes) => DecodeFrom(frame, id)
  }

  function Each<T, U>(read: T -> Result<U>, xs: seq<T>): Result<seq<U>> {
    if xs == [] then Ok([])
    else
      var m :- read(xs[0]);
      var more :- Each(read, xs[1..]);
      Ok([m] + more)
  }

  /** What a client of this game sends. */
  predicate FromClient(m: Message) {
    Encodable(m) && (m.ClientJoin? || m.ClientInput? || m.ClientDisconnect?)
  }

  lemma SizeOfFixed(m: Message)
    requires Encodable(m) && !m.GameState?
    ensures |Encode(m)| ==
      if m.ServerConfig? then 76 else if m.ClientJoin? then 40 else if m.ClientInput? then 25 else 24
  {
    FixedSize(m);
  }

  ghost predicate AllFromClient(ms: seq<Message>) {
    forall i :: 0 <= i < |ms| ==> FromClient(ms[i])
  }

  /** The server refuses this frame. */
  predicate Refused(b: Bytes) {
    Parse(Frame(b), SERVER_RECV_MAX_MESSAGE_SIZE).oversized
  }

  lemma RefusedForSize(b: Bytes)
    requires |b| < 4294967296
    ensures Refused(b) <==> 64 < |b|
  {
    FirstLength(b);
    assert |b| % TWO_32 == |b| && Length(Frame(b)) == |b| && |Frame(b)| == 4 + |b|;
    assert Frame(b)[4 + |b|..] == [];
    assert !Parse([], SERVER_RECV_MAX_MESSAGE_SIZE).oversized;
  }

  lemma FixedIsRefused(m: Message)
    requires Encodable(m) && !m.GameState?
    ensures Refused(Encode(m)) <==> m.ServerConfig?
  {
    SizeOfFixed(m);
    RefusedForSize(Encode(m));
  }

  /** No message of a client is too large for the server. Of all messages that the length can tell the size of,
      only SERVER_CONFIGs and long GAME_STATEs are. */
  lemma ServerTakesExactly(m: Message)
    requires Encodable(m) && |Encode(m)| < 4294967296
    ensures Refused(Encode(m)) <==> m.ServerConfig? || (m.GameState? && 64 < |Encode(m)|)
  {
    if m.GameState? { RefusedForSize(Encode(m)); } else { FixedIsRefused(m); }
  }

  lemma FirstLength(b: Bytes)
    ensures |Frame(b)| >= 4 && Length(Frame(b)) == |b| % TWO_32
  {
    Uint32RoundTrip(|b| % TWO_32);
    assert Frame(b)[..4] == Uint32Bytes(|b|);
  }

  /** What is written is read again, as after says. */
  ghost predicate ReadBack<T(!new), U>(write: T -> Bytes, read: Bytes -> Result<U>, after: T -> U, x: T) {
    read(write(x)) == Ok(after(x))
  }

  lemma {:induction false} AllReadBack<T(!new), U>(
    write: T -> Bytes, read: Bytes -> Result<U>, after: T -> U, xs: seq<T>)
    requires forall i :: 0 <= i < |xs| ==> ReadBack(write, read, after, xs[i])
    ensures Each(read, Map(write, xs)) == Ok(Map(after, xs))
  {
    if xs != [] {
      assert ReadBack(write, read, after, xs[0]);
      AllReadBack(write, read, after, xs[1..]);
      assert Map(write, xs)[1..] == Map(write, xs[1..]);
    }
  }

  // ---------- a client and the server ----------

  /** However a stream is cut up and wherever it stops: the frames so far are the first of those sent, none
      is refused, and when all has arrived nothing waits. */
  lemma PrefixArrives(frames: seq<Bytes>, chunks: seq<Bytes>, max: nat)
    requires max < TWO_32 && forall f :: f in frames ==> |f| <= max
    requires Concat(chunks) <= Stream(frames)
    ensures var p := Feed([], chunks, max);
      && !p.oversized && p.frames <= frames
      && (Concat(chunks) == Stream(frames) ==> p.frames == frames && p.rest == [])
  {
    var b, all := Concat(chunks), Stream(frames);
    ChunkingIrrelevant(chunks, max);
    StreamParses(frames, max);
    ParseResumes(b, all[|b|..], max);
    assert b + all[|b|..] == all;
  }

  lemma {:induction false} FeedConcat(buffer: Bytes, x: seq<Bytes>, y: seq<Bytes>, max: nat)
    ensures var p := Feed(buffer, x, max);
      var q := Feed(p.rest, y, max);
      Feed(buffer, x + y, max) == Parsed(p.frames + q.frames, q.rest, p.oversized || q.oversized)
    decreases |x|
  {
    if x == [] {
      var q := Feed(buffer, y, max);
      assert x + y == y && [] + q.frames == q.frames;
    } else {
      var now := Parse(buffer + x[0], max);
      var p := Feed(now.rest, x[1..], max);
      assert (x + y)[1..] == x[1..] + y;
      FeedConcat(now.rest, x[1..], y, max);
      Associate(now.frames, p.frames, Feed(p.rest, y, max).frames);
    }
  }

  lemma Continued(frames: seq<Bytes>, p: Parsed, q: Parsed, i: nat, j: nat)
    requires p.frames + q.frames <= frames && i == |p.frames| && j == i + |q.frames|
    ensures j <= |frames| && q.frames == frames[i..j]
  {
    assert q.frames == (p.frames + q.frames)[i..];
  }

  /** The frames of a stream that one poll delivers are the next ones. */
  lemma NextFrames(
    frames: seq<Bytes>, earlier: seq<Bytes>, now: seq<Bytes>, p: Parsed, q: Parsed, i: nat, j: nat, max: nat)
    requires max < TWO_32 && forall f :: f in frames ==> |f| <= max
    requires Concat(earlier + now) <= Stream(frames)
    requires p == Feed([], earlier, max) && q == Feed(p.rest, now, max)
    requires i == |p.frames| && j == i + |q.frames|
    ensures !p.oversized && !q.oversized && j <= |frames| && q.frames == frames[i..j]
    ensures Concat(earlier + now) == Stream(frames) ==> j == |frames| && q.rest == []
  {
    PrefixArrives(frames, earlier + now, max);
    FeedConcat([], earlier, now, max);
    Continued(frames, p, q, i, j);
  }

  /** Some of what was written, read again. */
  lemma SliceReadBack<T(!new), U>(
    write: T -> Bytes, read: Bytes -> Result<U>, after: T -> U, xs: seq<T>, i: nat, j: nat)
    requires i <= j <= |xs| && forall k :: 0 <= k < |xs| ==> ReadBack(write, read, after, xs[k])
    ensures Each(read, Map(write, xs)[i..j]) == Ok(Map(after, xs[i..j]))
  {
    MapSlice(write, xs, i, j);
    AllReadBack(write, read, after, xs[i..j]);
  }

  lemma {:induction false} AllSmall(ms: seq<Message>)
    requires AllFromClient(ms)
    ensures forall f :: f in EncodeAll(ms) ==> |f| <= SERVER_RECV_MAX_MESSAGE_SIZE
  {
    forall f | f in EncodeAll(ms) ensures |f| <= SERVER_RECV_MAX_MESSAGE_SIZE {
      var k :| 0 <= k < |ms| && EncodeAll(ms)[k] == f;
      MapAt(Encode, ms, k);
      SizeOfFixed(ms[k]);
    }
  }

  /** On connection id these frames are read as these messages. */
  predicate ReadAs(frames: seq<Bytes>, ms: seq<Message>, id: Int32) {
    Each(Reader(id), frames) == Ok(ReaddressedAll(ms, id))
  }

  lemma ReadOnConnection(ms: seq<Message>, i: nat, j: nat, frames: seq<Bytes>, id: Int32)
    requires AllFromClient(ms) && i <= j <= |ms| && frames == EncodeAll(ms)[i..j]
    ensures ReadAs(frames, ms[i..j], id)
  {
    var after := (m: Message) => Readdressed(m, id);
    forall k | 0 <= k < |ms| ensures ReadBack(Encode, Reader(id), after, ms[k]) { RoundTrip(ms[k]); }
    SliceReadBack(Encode, Reader(id), after, ms, i, j);
  }

  lemma ClientFrames(
    ms: seq<Message>, earlier: seq<Bytes>, now: seq<Bytes>, p: Parsed, q: Parsed, i: nat, j: nat)
    requires AllFromClient(ms) && Concat(earlier + now) <= Stream(EncodeAll(ms))
    requires p == Feed([], earlier, SERVER_RECV_MAX_MESSAGE_SIZE)
    requires q == Feed(p.rest, now, SERVER_RECV_MAX_MESSAGE_SIZE)
    requires i == |p.frames| && j == i + |q.frames|
    ensures !p.oversized && !q.oversized && j <= |EncodeAll(ms)| && q.frames == EncodeAll(ms)[i..j]
  {
    AllSmall(ms);
    NextFrames(EncodeAll(ms), earlier, now, p, q, i, j, SERVER_RECV_MAX_MESSAGE_SIZE);
  }

  /** A client sends joins, inputs and disconnects, and nothing else. Of this some has been read in earlier
      polls and some is read in this one, in any pieces. Then this poll delivers exactly the next messages of
      the client, the i-th to the j-th, with the connection's identifier, and does not mark the connection. */
  lemma ClientIsServed(
    ms: seq<Message>, earlier: seq<Bytes>, now: seq<Bytes>, p: Parsed, q: Parsed, i: nat, j: nat, id: Int32)
    requires AllFromClient(ms) && Concat(earlier + now) <= Stream(EncodeAll(ms))
    requires p == Feed([], earlier, SERVER_RECV_MAX_MESSAGE_SIZE)
    requires q == Feed(p.rest, now, SERVER_RECV_MAX_MESSAGE_SIZE)
    requires i == |p.frames| && j == i + |q.frames|
    ensures !p.oversized && !q.oversized && j <= |ms| && ReadAs(q.frames, ms[i..j], id)
  {
    ClientFrames(ms, earlier, now, p, q, i, j);
    ReadOnConnection(ms, i, j, q.frames, id);
  }

  /** After the last byte all have been delivered and nothing waits. */
  lemma ClientIsServedFully(ms: seq<Message>, earlier: seq<Bytes>, now: seq<Bytes>, p: Parsed, q: Parsed)
    requires AllFromClient(ms) && Concat(earlier + now) == Stream(EncodeAll(ms))
    requires p == Feed([], earlier, SERVER_RECV_MAX_MESSAGE_SIZE)
    requires q == Feed(p.rest, now, SERVER_RECV_MAX_MESSAGE_SIZE)
    ensures |p.frames| + |q.frames| == |ms| && q.rest == []
  {
    var i, j := |p.frames|, |p.frames| + |q.frames|;
    AllSmall(ms);
    NextFrames(EncodeAll(ms), earlier, now, p, q, i, j, SERVER_RECV_MAX_MESSAGE_SIZE);
  }

  // ---------- the server and a client ----------

  /** A stream up to its first frame that is too large. */
  lemma {:induction false} StreamStops(frames: seq<Bytes>, i: nat, max: nat)
    requires i < |frames| && max < |frames[i]| < TWO_32 && max < TWO_32
    requires forall k :: 0 <= k < i ==> |frames[k]| <= max
    ensures Parse(Stream(frames), max).oversized && Parse(Stream(frames), max).frames == frames[..i]
    decreases i
  {
    FirstOfStream(frames[0], Stream(frames[1..]));
    if i > 0 {
      StreamStops(frames[1..], i - 1, max);
      assert frames[..i] == [frames[0]] + frames[1..][..i - 1];
    }
  }

  ghost predicate AllEncodable(ms: seq<Message>) {
    forall i :: 0 <= i < |ms| ==> Encodable(ms[i])
  }

  /** A broadcast that a client's receive buffer takes. */
  predicate ForClient(m: Message) {
    |Encode(m)| <= 32768
  }

  /** If the server sends only what a client can take, all of it arrives; else the client stops. */
  lemma StreamToClient(ms: seq<Message>)
    requires forall i :: 0 <= i < |ms| ==> |Encode(ms[i])| < TWO_32
    ensures var p := Parse(Stream(EncodeAll(ms)), CLIENT_RECV_MAX_MESSAGE_SIZE);
      && (p.oversized <==> exists i :: 0 <= i < |ms| && !ForClient(ms[i]))
      && (!p.oversized ==> p.frames == EncodeAll(ms))
  {
    if i :| 0 <= i < |ms| && !ForClient(ms[i]) {
      FirstTooLarge(ms, i);
    } else {
      forall f | f in EncodeAll(ms) ensures |f| <= CLIENT_RECV_MAX_MESSAGE_SIZE {
        var k :| 0 <= k < |ms| && EncodeAll(ms)[k] == f;
        MapAt(Encode, ms, k);
      }
      StreamParses(EncodeAll(ms), CLIENT_RECV_MAX_MESSAGE_SIZE);
    }
  }

  lemma {:induction false} FirstTooLarge(ms: seq<Message>, i: nat)
    requires i < |ms| && !ForClient(ms[i]) && forall k :: 0 <= k < |ms| ==> |Encode(ms[k])| < TWO_32
    ensures Parse(Stream(EncodeAll(ms)), CLIENT_RECV_MAX_MESSAGE_SIZE).oversized
    decreases i
  {
    if k :| 0 <= k < i && !ForClient(ms[k]) {
      FirstTooLarge(ms, k);
    } else {
      forall k | 0 <= k <= i ensures EncodeAll(ms)[k] == Encode(ms[k]) { MapAt(Encode, ms, k); }
      StreamStops(EncodeAll(ms), i, CLIENT_RECV_MAX_MESSAGE_SIZE);
    }
  }

  lemma {:induction false} MapSame<T>(f: T -> T, xs: seq<T>)
    requires forall x :: f(x) == x
    ensures Map(f, xs) == xs
  {
    if xs != [] { MapSame(f, xs[1..]); }
  }

  lemma AllDecode(ms: seq<Message>)
    requires AllEncodable(ms)
    ensures Each(Decode, EncodeAll(ms)) == Ok(ms)
  {
    var same := (m: Message) => m;
    forall k | 0 <= k < |ms| ensures ReadBack(Encode, Decode, same, ms[k]) { RoundTrip(ms[k]); }
    AllReadBack(Encode, Decode, same, ms);
    MapSame(same, ms);
  }

  method DecodeEach(frames: seq<Bytes>) returns (r: Result<seq<Message>>)
    ensures Each(Decode, frames).Ok? ==> r == Each(Decode, frames)
  {
    var messages, later := [], frames;
    while later != []
      invariant Each(Decode, frames).Ok? ==>
        Each(Decode, later).Ok? && Each(Decode, frames).value == messages + Each(Decode, later).value
      decreases |later|
    {
      var m :- Deserialise(later[0]);
      messages, later := messages + [m], later[1..];
    }
    assert messages + [] == messages;
    return Ok(messages);
  }

  /** What the server sends, in any pieces: the client reads exactly those messages, unless one is longer
      than 32768 bytes. Then it stops with an error. */
  method ClientHears(client: NetworkClient, chunks: seq<Bytes>, ghost ms: seq<Message>)
    returns (r: Result<seq<Message>>)
    requires client.messageBuffer == [] && AllEncodable(ms) && Concat(chunks) == Stream(EncodeAll(ms))
    requires forall i :: 0 <= i < |ms| ==> |Encode(ms[i])| < TWO_32
    modifies client
    ensures r == if forall i :: 0 <= i < |ms| ==> ForClient(ms[i]) then Ok(ms) else Err(OversizedFrame)
  {
    StreamToClient(ms);
    AllDecode(ms);
    var frames :- client.ReceiveAll(chunks);
    r := DecodeEach(frames);
  }
}
