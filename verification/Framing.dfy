/** Length-prefixed frames over a byte stream: what a rolling buffer delivers, whatever the chunks. */
module Framing {
  import opened Sequences
  import opened LittleEndian

  /** What a sender puts on the wire for one message. The length is a uint32_t. */
  function Frame(b: Bytes): Bytes {
    Uint32Bytes(|b|) + b
  }

  function Stream(frames: seq<Bytes>): Bytes {
    if frames == [] then [] else Frame(frames[0]) + Stream(frames[1..])
  }

  /** The frames at the front of a buffer, the bytes left over, and whether parsing stopped because
      the next length is above the limit. */
  datatype Parsed = Parsed(frames: seq<Bytes>, rest: Bytes, oversized: bool)

  function Parse(b: Bytes, max: nat): Parsed {
    if |b| < 4 then Parsed([], b, false)
    else
      var len := Length(b);
      if len > max then Parsed([], b, true)
      else if |b| < 4 + len then Parsed([], b, false)
      else
        var more := Parse(b[4 + len..], max);
        Parsed([b[4..4 + len]] + more.frames, more.rest, more.oversized)
  }

  /** The length at the front of a buffer. */
  function Length(b: Bytes): nat
    requires |b| >= 4
  {
    Uint32From(b[..4])
  }

  /** Appending changes nothing at the front. */
  lemma FrontKept(b: Bytes, c: Bytes)
    requires |b| >= 4
    ensures Length(b + c) == Length(b)
    ensures |b| >= 4 + Length(b) ==> (b + c)[4..4 + Length(b)] == b[4..4 + Length(b)]
    ensures |b| >= 4 + Length(b) ==> (b + c)[4 + Length(b)..] == b[4 + Length(b)..] + c
  {
    assert (b + c)[..4] == b[..4];
  }

  function Concat(chunks: seq<Bytes>): Bytes {
    if chunks == [] then [] else chunks[0] + Concat(chunks[1..])
  }

  /** Receiving chunks one after another, the buffer carried over from each to the next. */
  function Feed(buffer: Bytes, chunks: seq<Bytes>, max: nat): Parsed
    decreases |chunks|
  {
    if chunks == [] then Parsed([], buffer, false)
    else
      var now := Parse(buffer + chunks[0], max);
      var later := Feed(now.rest, chunks[1..], max);
      Parsed(now.frames + later.frames, later.rest, now.oversized || later.oversized)
  }

  /** In the middle of parsing a buffer: the frames taken so far, and the bytes still to be looked at. */
  ghost predicate Parsing(whole: Parsed, frames: seq<Bytes>, b: Bytes, max: nat) {
    var p := Parse(b, max);
    whole == p.(frames := frames + p.frames)
  }

  lemma ParsingStarts(b: Bytes, max: nat)
    ensures Parsing(Parse(b, max), [], b, max)
  {
  }

  lemma ParsingNext(whole: Parsed, frames: seq<Bytes>, b: Bytes, max: nat)
    requires Parsing(whole, frames, b, max) && |b| >= 4 && Length(b) <= max && |b| >= 4 + Length(b)
    ensures Parsing(whole, frames + [b[4..4 + Length(b)]], b[4 + Length(b)..], max)
  {
    Associate(frames, [b[4..4 + Length(b)]], Parse(b[4 + Length(b)..], max).frames);
  }

  lemma ParsingEnds(whole: Parsed, frames: seq<Bytes>, b: Bytes, max: nat)
    requires Parsing(whole, frames, b, max) && (|b| < 4 || Length(b) > max || |b| < 4 + Length(b))
    ensures whole == Parsed(frames, b, |b| >= 4 && Length(b) > max)
  {
    assert frames + [] == frames;
  }

  /** Parsing what has arrived and then the rest is parsing everything at once. */
  lemma {:induction false} ParseResumes(b: Bytes, c: Bytes, max: nat)
    ensures var p, q := Parse(b, max), Parse(Parse(b, max).rest + c, max);
      Parse(b + c, max) == Parsed(p.frames + q.frames, q.rest, q.oversized) && (p.oversized ==> q.oversized)
    decreases |b|
  {
    if |b| >= 4 && Length(b) > max {
      FrontKept(b, c);
    } else if |b| >= 4 && |b| >= 4 + Length(b) {
      var frame, later := b[4..4 + Length(b)], b[4 + Length(b)..];
      FrameInFront(b, c, max);
      ParseResumes(later, c, max);
      Prefixed(frame, Parse(later, max), Parse(Parse(later, max).rest + c, max), Parse(later + c, max));
    } else {
      NothingInFront(b, c, max);
    }
  }

  lemma NothingInFront(b: Bytes, c: Bytes, max: nat)
    requires Parse(b, max) == Parsed([], b, false)
    ensures var p, q := Parse(b, max), Parse(Parse(b, max).rest + c, max);
      Parse(b + c, max) == Parsed(p.frames + q.frames, q.rest, q.oversized)
  {
    assert [] + Parse(b + c, max).frames == Parse(b + c, max).frames;
  }

  /** A complete frame in front, with or without more bytes behind. */
  lemma FrameInFront(b: Bytes, c: Bytes, max: nat)
    requires |b| >= 4 && Length(b) <= max && |b| >= 4 + Length(b)
    ensures Parse(b, max) == AddFrame(b[4..4 + Length(b)], Parse(b[4 + Length(b)..], max))
    ensures Parse(b + c, max) == AddFrame(b[4..4 + Length(b)], Parse(b[4 + Length(b)..] + c, max))
  {
    FrontKept(b, c);
  }

  function AddFrame(frame: Bytes, p: Parsed): Parsed {
    p.(frames := [frame] + p.frames)
  }

  lemma Prefixed(frame: Bytes, p: Parsed, q: Parsed, whole: Parsed)
    requires whole == Parsed(p.frames + q.frames, q.rest, q.oversized)
    ensures AddFrame(frame, whole) == Parsed(AddFrame(frame, p).frames + q.frames, q.rest, q.oversized)
  {
    assert [frame] + (p.frames + q.frames) == ([frame] + p.frames) + q.frames;
  }

  /** The buffer left by a call is one on which another call would deliver nothing. */
  lemma {:induction false} RestIsSettled(b: Bytes, max: nat)
    ensures Parse(Parse(b, max).rest, max) == Parsed([], Parse(b, max).rest, Parse(b, max).oversized)
    decreases |b|
  {
    if |b| >= 4 {
      var len := Length(b);
      if len <= max && |b| >= 4 + len {
        RestIsSettled(b[4 + len..], max);
      }
    }
  }

  /** For any bytes at all, the split into chunks has no influence on the frames delivered, on the
      bytes left over, or on whether the stream is rejected. */
  lemma ChunkingIrrelevant(chunks: seq<Bytes>, max: nat)
    ensures Feed([], chunks, max) == Parse(Concat(chunks), max)
  {
    FeedIsParse([], chunks, max);
    assert [] + Concat(chunks) == Concat(chunks);
  }

  lemma {:induction false} FeedIsParse(buffer: Bytes, chunks: seq<Bytes>, max: nat)
    requires Parse(buffer, max) == Parsed([], buffer, Parse(buffer, max).oversized)
    ensures Feed(buffer, chunks, max).frames == Parse(buffer + Concat(chunks), max).frames
    ensures Feed(buffer, chunks, max).rest == Parse(buffer + Concat(chunks), max).rest
    ensures chunks != [] || !Parse(buffer, max).oversized ==>
      Feed(buffer, chunks, max).oversized == Parse(buffer + Concat(chunks), max).oversized
    decreases |chunks|
  {
    if chunks == [] {
      assert buffer + Concat(chunks) == buffer;
    } else {
      var b, later := buffer + chunks[0], Concat(chunks[1..]);
      RestIsSettled(b, max);
      FeedIsParse(Parse(b, max).rest, chunks[1..], max);
      ParseResumes(b, later, max);
      Associate(buffer, chunks[0], later);
    }
  }

  /** One more chunk. */
  lemma {:induction false} FeedMore(buffer: Bytes, chunks: seq<Bytes>, c: Bytes, max: nat)
    ensures var p := Feed(buffer, chunks, max);
      var q := Parse(p.rest + c, max);
      Feed(buffer, chunks + [c], max) == Parsed(p.frames + q.frames, q.rest, p.oversized || q.oversized)
    decreases |chunks|
  {
    if chunks == [] {
      var q := Parse(buffer + c, max);
      assert [] + [c] == [c] && [c][1..] == [] && q.frames + [] == q.frames && [] + q.frames == q.frames;
    } else {
      var now := Parse(buffer + chunks[0], max);
      assert (chunks + [c])[1..] == chunks[1..] + [c];
      FeedMore(now.rest, chunks[1..], c, max);
      var later := Feed(now.rest, chunks[1..], max);
      Associate(now.frames, later.frames, Parse(later.rest + c, max).frames);
    }
  }

  /** An encoded list of frames, none above the limit, parses to exactly those frames. */
  lemma {:induction false} StreamParses(frames: seq<Bytes>, max: nat)
    requires max < TWO_32
    requires forall f :: f in frames ==> |f| <= max
    ensures Parse(Stream(frames), max) == Parsed(frames, [], false)
  {
    if frames != [] {
      FirstOfStream(frames[0], Stream(frames[1..]));
      StreamParses(frames[1..], max);
      assert frames == [frames[0]] + frames[1..];
    }
  }

  /** An encoded frame in front of anything. */
  lemma FirstOfStream(f: Bytes, rest: Bytes)
    requires |f| < TWO_32
    ensures var s := Frame(f) + rest;
      |s| >= 4 + |f| && Length(s) == |f| && s[4..4 + |f|] == f && s[4 + |f|..] == rest
  {
    Uint32RoundTrip(|f|);
    var s := Frame(f) + rest;
    assert s[..4] == Uint32Bytes(|f|);
  }

  /** The sender's frames arrive, in order, however the stream is cut up. */
  lemma FramesArrive(frames: seq<Bytes>, chunks: seq<Bytes>, max: nat)
    requires max < TWO_32
    requires forall f :: f in frames ==> |f| <= max
    requires Concat(chunks) == Stream(frames)
    ensures Feed([], chunks, max) == Parsed(frames, [], false)
  {
    ChunkingIrrelevant(chunks, max);
    StreamParses(frames, max);
  }

  lemma StreamCons(f: Bytes, frames: seq<Bytes>)
    ensures Stream([f] + frames) == Frame(f) + Stream(frames)
  {
    assert ([f] + frames)[1..] == frames;
  }

  /** A buffer that holds a complete frame starts with that frame's encoding. */
  lemma FrontFrame(b: Bytes)
    requires |b| >= 4 && |b| >= 4 + Length(b)
    ensures Frame(b[4..4 + Length(b)]) + b[4 + Length(b)..] == b
  {
    Uint32Inverse(b[..4]);
  }

  /** No byte is lost, invented or moved: the frames and the leftover are the input. */
  lemma {:induction false} ParseConserves(b: Bytes, max: nat)
    requires max < TWO_32
    ensures Stream(Parse(b, max).frames) + Parse(b, max).rest == b
    ensures forall f :: f in Parse(b, max).frames ==> |f| <= max
    decreases |b|
  {
    if |b| >= 4 {
      var len := Length(b);
      if len <= max && |b| >= 4 + len {
        var f, more := b[4..4 + len], Parse(b[4 + len..], max);
        ParseConserves(b[4 + len..], max);
        FrontFrame(b);
        StreamCons(f, more.frames);
        Associate(Frame(f), Stream(more.frames), more.rest);
      }
    }
  }

  /** What waits in an accepted buffer is always less than one maximal frame. */
  lemma {:induction false} LeftoverBound(b: Bytes, max: nat)
    requires !Parse(b, max).oversized
    ensures |Parse(b, max).rest| < 4 + max
    decreases |b|
  {
    if |b| >= 4 {
      var len := Length(b);
      if len <= max && |b| >= 4 + len {
        LeftoverBound(b[4 + len..], max);
      }
    }
  }
}

/** The client's receiving side. */
module NetworkClient {
  import opened Results
  import opened Sequences
  import opened LittleEndian
  import opened Framing

  const CLIENT_RECV_MAX_MESSAGE_SIZE: nat := 32768

  /** What one more chunk adds to what has been seen, and what it leaves for the chunks after it. */
  lemma OneChunk(seen: Bytes, chunks: seq<Bytes>, i: nat, max: nat)
    requires i < |chunks|
    ensures seen + chunks[i] + Concat(chunks[i + 1..]) == seen + Concat(chunks[i..])
    ensures var p, q := Parse(seen, max), Parse(Parse(seen, max).rest + chunks[i], max);
      && Parse(seen + chunks[i], max) == Parsed(p.frames + q.frames, q.rest, q.oversized)
      && (q.oversized ==> Parse(seen + Concat(chunks[i..]), max).oversized)
  {
    assert chunks[i..][1..] == chunks[i + 1..] && chunks[i..][0] == chunks[i];
    ParseResumes(seen, chunks[i], max);
    OversizedStays(seen + chunks[i], Concat(chunks[i + 1..]), max);
    Associate(seen, chunks[i], Concat(chunks[i + 1..]));
  }

  lemma OversizedStays(b: Bytes, c: Bytes, max: nat)
    ensures Parse(b, max).oversized ==> Parse(b + c, max).oversized
  {
    ParseResumes(b, c, max);
  }

  class NetworkClient {
    var messageBuffer: Bytes

    constructor ()
      ensures messageBuffer == []
    {
      messageBuffer := [];
    }

    /** Append one received chunk and take every complete frame out of the buffer. A length above the
        limit aborts the client. */
    method ParseReceivedPacket(input: Bytes) returns (r: Result<seq<Bytes>>)
      modifies this
      ensures var p := Parse(old(messageBuffer) + input, CLIENT_RECV_MAX_MESSAGE_SIZE);
        messageBuffer == p.rest && r == if p.oversized then Err(OversizedFrame) else Ok(p.frames)
    {
      var frames: seq<Bytes> := [];
      messageBuffer := messageBuffer + input;
      ghost var whole := Parse(messageBuffer, CLIENT_RECV_MAX_MESSAGE_SIZE);
      ParsingStarts(messageBuffer, CLIENT_RECV_MAX_MESSAGE_SIZE);
      while |messageBuffer| >= 4
        invariant Parsing(whole, frames, messageBuffer, CLIENT_RECV_MAX_MESSAGE_SIZE)
        decreases |messageBuffer|
      {
        var len := Length(messageBuffer);
        if len > CLIENT_RECV_MAX_MESSAGE_SIZE {
          ParsingEnds(whole, frames, messageBuffer, CLIENT_RECV_MAX_MESSAGE_SIZE);
          return Err(OversizedFrame);
        }
        if |messageBuffer| < 4 + len {
          break;
        }
        ParsingNext(whole, frames, messageBuffer, CLIENT_RECV_MAX_MESSAGE_SIZE);
        frames := frames + [messageBuffer[4..4 + len]];
        messageBuffer := messageBuffer[4 + len..];
      }
      ParsingEnds(whole, frames, messageBuffer, CLIENT_RECV_MAX_MESSAGE_SIZE);
      return Ok(frames);
    }

    /** Receive chunk after chunk, as the client's loop does, until one is refused. */
    method ReceiveAll(chunks: seq<Bytes>) returns (r: Result<seq<Bytes>>)
      requires messageBuffer == []
      modifies this
      ensures var p := Parse(Concat(chunks), CLIENT_RECV_MAX_MESSAGE_SIZE);
        r == if p.oversized then Err(OversizedFrame) else Ok(p.frames)
      ensures r.Ok? ==> |messageBuffer| < 4 + CLIENT_RECV_MAX_MESSAGE_SIZE
    {
      var frames: seq<Bytes> := [];
      var max := CLIENT_RECV_MAX_MESSAGE_SIZE;
      ghost var seen: Bytes := [];
      assert chunks[0..] == chunks;
      assert seen + Concat(chunks) == Concat(chunks);
      for i := 0 to |chunks|
        invariant seen + Concat(chunks[i..]) == Concat(chunks)
        invariant Parse(seen, max) == Parsed(frames, messageBuffer, false)
      {
        OneChunk(seen, chunks, i, max);
        var more :- ParseReceivedPacket(chunks[i]);
        frames := frames + more;
        seen := seen + chunks[i];
      }
      assert seen + [] == seen;
      LeftoverBound(seen, max);
      return Ok(frames);
    }
  }
}

/** The server's connection table and the receiving side of every connection. */
module NetworkServer {
  import opened LittleEndian
  import opened Framing
  import opened Sockets

  const SERVER_RECV_MAX_MESSAGE_SIZE: nat := 64

  class NetworkServer {
    var nextClientId: nat
    var fdToClientIdMap: map<nat, nat>
    var clientIdToFdMap: map<nat, nat>
    var fdToBufferMap: map<nat, Bytes>
    var fdsToDisconnect: set<nat>

    ghost var issued: set<nat>            // every identifier ever handed out

    /** The two identifier maps are each other's inverse, every connection has a buffer, and every
        identifier ever handed out is below the next one. */
    ghost predicate Valid()
      reads this
    {
      && (forall fd :: fd in fdToClientIdMap ==>
            fdToClientIdMap[fd] in clientIdToFdMap && clientIdToFdMap[fdToClientIdMap[fd]] == fd)
      && (forall id :: id in clientIdToFdMap ==>
            && id in issued && clientIdToFdMap[id] in fdToClientIdMap
            && fdToClientIdMap[clientIdToFdMap[id]] == id)
      && (forall id :: id in issued ==> 1 <= id < nextClientId)
      && (forall fd :: fd in fdToClientIdMap ==> fd in fdToBufferMap)
      && nextClientId >= 1
    }

    constructor ()
      ensures Valid() && nextClientId == 1
      ensures fdToClientIdMap == map[] && fdToBufferMap == map[] && fdsToDisconnect == {} && issued == {}
    {
      nextClientId := 1;
      fdToClientIdMap, clientIdToFdMap, fdToBufferMap, fdsToDisconnect := map[], map[], map[], {};
      issued := {};
    }

    /** A connection accepted on a descriptor that is not open: it gets an identifier never used before. */
    method AcceptNewClient(clientFd: nat)
      requires Valid()
      requires clientFd !in fdToClientIdMap
      modifies this
      ensures Valid() && nextClientId == old(nextClientId) + 1
      ensures old(nextClientId) !in old(issued) && issued == old(issued) + {old(nextClientId)}
      ensures fdToClientIdMap == old(fdToClientIdMap)[clientFd := old(nextClientId)]
      ensures clientIdToFdMap == old(clientIdToFdMap)[old(nextClientId) := clientFd]
      ensures fdToBufferMap == old(fdToBufferMap)[clientFd := []]
      ensures fdsToDisconnect == old(fdsToDisconnect)
    {
      var clientId := nextClientId;
      issued := issued + {clientId};
      nextClientId := nextClientId + 1;
      fdToClientIdMap := fdToClientIdMap[clientFd := clientId];
      clientIdToFdMap := clientIdToFdMap[clientId := clientFd];
      fdToBufferMap := fdToBufferMap[clientFd := []];
    }

    method DisconnectClient(fd: nat)
      requires Valid()
      requires fd in fdToClientIdMap
      modifies this
      ensures Valid()
      ensures fdToClientIdMap == old(fdToClientIdMap) - {fd}
      ensures clientIdToFdMap == old(clientIdToFdMap) - {old(fdToClientIdMap[fd])}
      ensures fdToBufferMap == old(fdToBufferMap) - {fd}
      ensures nextClientId == old(nextClientId) && fdsToDisconnect == old(fdsToDisconnect) && issued == old(issued)
    {
      clientIdToFdMap := clientIdToFdMap - {fdToClientIdMap[fd]};
      fdToClientIdMap := fdToClientIdMap - {fd};
      fdToBufferMap := fdToBufferMap - {fd};
    }

    /** Close every connection marked for it. Each such client is reported exactly once, no other
        client is reported, and no other connection is touched. The set's order is not specified. */
    method DrainDisconnects() returns (clientIds: seq<nat>)
      requires Valid()
      modifies this
      ensures Valid() && fdsToDisconnect == {} && nextClientId == old(nextClientId) && issued == old(issued)
      ensures fdToClientIdMap == old(fdToClientIdMap) - old(fdsToDisconnect)
      ensures fdToBufferMap == old(fdToBufferMap) - old(fdsToDisconnect) * old(fdToClientIdMap).Keys
      ensures forall id :: id in clientIds <==>
        id in old(clientIdToFdMap) && old(clientIdToFdMap)[id] in old(fdsToDisconnect)
      ensures forall i, j :: 0 <= i < j < |clientIds| ==> clientIds[i] != clientIds[j]
    {
      clientIds := [];
      var waiting := fdsToDisconnect;
      while waiting != {}
        invariant Valid() && nextClientId == old(nextClientId) && issued == old(issued)
        invariant fdsToDisconnect == old(fdsToDisconnect)
        invariant waiting <= fdsToDisconnect
        invariant fdToClientIdMap == old(fdToClientIdMap) - (fdsToDisconnect - waiting)
        invariant fdToBufferMap == old(fdToBufferMap) - (fdsToDisconnect - waiting) * old(fdToClientIdMap).Keys
        invariant forall id :: id in clientIds <==>
          id in old(clientIdToFdMap) && old(clientIdToFdMap)[id] in fdsToDisconnect - waiting
        invariant forall i, j :: 0 <= i < j < |clientIds| ==> clientIds[i] != clientIds[j]
        decreases waiting
      {
        var fd :| fd in waiting;
        waiting := waiting - {fd};
        if fd in fdToClientIdMap {
          clientIds := clientIds + [fdToClientIdMap[fd]];
          DisconnectClient(fd);
        }
      }
      fdsToDisconnect := {};
    }

    /** The connections as they are. */
    ghost function State(): Connections
      reads this
    {
      Connections(fdToClientIdMap, fdToBufferMap, fdsToDisconnect)
    }

    ghost predicate Polled(start: Connections, done: seq<Event>, messages: seq<(nat, Bytes)>)
      reads this
    {
      Valid() && ServedAll(start, done, messages, State(), SERVER_RECV_MAX_MESSAGE_SIZE)
    }

    method Connect(fd: nat, messages: seq<(nat, Bytes)>, ghost start: Connections, ghost done: seq<Event>)
      requires Polled(start, done, messages) && fd !in fdToClientIdMap
      modifies this
      ensures Polled(start, done + [Connecting(fd)], messages)
      ensures fdToClientIdMap.Keys == old(fdToClientIdMap).Keys + {fd}
      ensures issued >= old(issued) && nextClientId == old(nextClientId) + 1
    {
      ghost var now, id := State(), nextClientId;
      NewIdentifier();
      ConnectingServes(start, done, messages, now, fd, id, SERVER_RECV_MAX_MESSAGE_SIZE);
      AcceptNewClient(fd);
      assert State() == AfterConnecting(now, fd, id);
    }

    /** The next identifier is nobody's. */
    lemma NewIdentifier()
      requires Valid()
      ensures nextClientId !in fdToClientIdMap.Values
    {
    }

    lemma IdentifiersDiffer()
      requires Valid()
      ensures Different(fdToClientIdMap)
    {
    }

    method ReceiveFromClient(fd: nat, bytes: Bytes, messages: seq<(nat, Bytes)>, ghost start: Connections,
      ghost done: seq<Event>) returns (after: seq<(nat, Bytes)>)
      requires Polled(start, done, messages) && fd in fdToClientIdMap
      modifies this`fdToBufferMap, this`fdsToDisconnect
      ensures Polled(start, done + [Arrived(fd, bytes)], after)
    {
      ghost var now := State();
      IdentifiersDiffer();
      ArrivalServes(start, done, messages, now, fd, bytes, SERVER_RECV_MAX_MESSAGE_SIZE);
      var frames := ParseReceivedPacket(fd, bytes);
      after := messages + From(fdToClientIdMap[fd], frames);
      assert State() == AfterArrival(now, fd, bytes, SERVER_RECV_MAX_MESSAGE_SIZE);
    }

    method Mark(fd: nat, messages: seq<(nat, Bytes)>, ghost start: Connections, ghost done: seq<Event>)
      requires Polled(start, done, messages) && fd in fdToClientIdMap
      modifies this`fdsToDisconnect
      ensures Polled(start, done + [Ended(fd)], messages)
    {
      ghost var now := State();
      EndServes(start, done, messages, now, fd, SERVER_RECV_MAX_MESSAGE_SIZE);
      fdsToDisconnect := fdsToDisconnect + {fd};
      assert State() == AfterEnd(now, fd);
    }

    method PollOne(e: Event, messages: seq<(nat, Bytes)>, ghost start: Connections, ghost done: seq<Event>)
      returns (after: seq<(nat, Bytes)>)
      requires Polled(start, done, messages)
      requires if e.Connecting? then e.fd !in fdToClientIdMap else e.fd in fdToClientIdMap
      modifies this
      ensures Polled(start, done + [e], after)
      ensures fdToClientIdMap.Keys == old(fdToClientIdMap).Keys + if e.Connecting? then {e.fd} else {}
      ensures issued >= old(issued) && nextClientId == old(nextClientId) + if e.Connecting? then 1 else 0
    {
      after := messages;
      match e {
        case Connecting(fd) => Connect(fd, messages, start, done);
        case Arrived(fd, bytes) => after := ReceiveFromClient(fd, bytes, messages, start, done);
        case Ended(fd) => Mark(fd, messages, start, done);
      }
    }

    /** One poll: whatever order the events of the connections come in, every connection has its own bytes
        parsed, and every frame comes with the identifier of its connection. */
    method PollMessages(events: seq<Event>) returns (messages: seq<(nat, Bytes)>)
      requires Valid() && fdsToDisconnect == {} && Plausible(fdToClientIdMap.Keys, events)
      modifies this
      ensures Polled(old(State()), events, messages)
      ensures fdToClientIdMap.Keys == Opened(old(fdToClientIdMap).Keys, events) && issued >= old(issued)
      ensures nextClientId <= old(nextClientId) + |events|
    {
      messages := [];
      ghost var start := State();
      ghost var open := fdToClientIdMap.Keys;
      NothingServed(start, SERVER_RECV_MAX_MESSAGE_SIZE);
      assert events[..0] == [] && events[0..] == events;
      for i := 0 to |events|
        invariant Polled(start, events[..i], messages)
        invariant Plausible(fdToClientIdMap.Keys, events[i..])
        invariant Opened(fdToClientIdMap.Keys, events[i..]) == Opened(open, events)
        invariant issued >= old(issued) && nextClientId <= old(nextClientId) + i
      {
        NextEvent(fdToClientIdMap.Keys, events, i);
        messages := PollOne(events[i], messages, start, events[..i]);
        assert events[..i] + [events[i]] == events[..i + 1];
      }
      assert events[..|events|] == events;
    }

    /** Append one received chunk to the connection's buffer and take every complete frame out of it.
        A length above the limit marks the connection for disconnection and keeps the frames so far. */
    method ParseReceivedPacket(fd: nat, input: Bytes) returns (frames: seq<Bytes>)
      requires Valid()
      modifies this`fdToBufferMap, this`fdsToDisconnect
      ensures Valid()
      ensures var b := if fd in old(fdToBufferMap) then old(fdToBufferMap)[fd] else [];
        var p := Parse(b + input, SERVER_RECV_MAX_MESSAGE_SIZE);
        && frames == p.frames
        && fdToBufferMap == old(fdToBufferMap)[fd := p.rest]
        && fdsToDisconnect == old(fdsToDisconnect) + (if p.oversized then {fd} else {})
    {
      frames := [];
      var fdBuffer := (if fd in fdToBufferMap then fdToBufferMap[fd] else []) + input;
      ghost var whole := Parse(fdBuffer, SERVER_RECV_MAX_MESSAGE_SIZE);
      ParsingStarts(fdBuffer, SERVER_RECV_MAX_MESSAGE_SIZE);
      while |fdBuffer| >= 4
        invariant fdToBufferMap == old(fdToBufferMap) && fdsToDisconnect == old(fdsToDisconnect)
        invariant Parsing(whole, frames, fdBuffer, SERVER_RECV_MAX_MESSAGE_SIZE)
        decreases |fdBuffer|
      {
        var len := Length(fdBuffer);
        if len > SERVER_RECV_MAX_MESSAGE_SIZE {
          fdsToDisconnect := fdsToDisconnect + {fd};
          fdToBufferMap := fdToBufferMap[fd := fdBuffer];
          ParsingEnds(whole, frames, fdBuffer, SERVER_RECV_MAX_MESSAGE_SIZE);
          return;
        }
        if |fdBuffer| < 4 + len {
          break;
        }
        ParsingNext(whole, frames, fdBuffer, SERVER_RECV_MAX_MESSAGE_SIZE);
        frames := frames + [fdBuffer[4..4 + len]];
        fdBuffer := fdBuffer[4 + len..];
      }
      fdToBufferMap := fdToBufferMap[fd := fdBuffer];
      ParsingEnds(whole, frames, fdBuffer, SERVER_RECV_MAX_MESSAGE_SIZE);
    }
  }
}