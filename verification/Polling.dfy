/** One poll of a live server: from the events on its sockets to the messages of a tick. */
module Polling {
  import opened Results
  import opened Sequences
  import opened LittleEndian
  import opened Protocol
  import opened Serialiser
  import opened Framing
  import opened Sockets
  import opened NetworkServer
  import opened Delivery

  /** An identifier as a C++ int. */
  function AsInt(id: nat): Int32 {
    (id + TWO_31) % TWO_32 - TWO_31
  }

  lemma SmallInt(id: nat)
    requires id < TWO_31
    ensures AsInt(id) == id
  {
  }

  /** How a frame is read that came from this client. */
  function ReaderOf(): nat -> Bytes -> Result<Message> {
    (id: nat) => Reader(AsInt(id))
  }

  /** The frames of all connections, in the order in which they arrived, read one by one. */
  function EachPair(read: nat -> Bytes -> Result<Message>, pairs: seq<(nat, Bytes)>): Result<seq<Message>> {
    if pairs == [] then Ok([])
    else
      var m :- read(pairs[0].0)(pairs[0].1);
      var more :- EachPair(read, pairs[1..]);
      Ok([m] + more)
  }

  /** The messages of one client. */
  function MessagesOf(ms: seq<Message>, id: int): seq<Message> {
    if ms == [] then [] else (if ms[0].hdr.clientId == id then [ms[0]] else []) + MessagesOf(ms[1..], id)
  }

  lemma {:induction false} MessagesOfConcat(a: seq<Message>, b: seq<Message>, id: int)
    ensures MessagesOf(a + b, id) == MessagesOf(a, id) + MessagesOf(b, id)
  {
    if a == [] {
      assert a + b == b;
    } else {
      var first := if a[0].hdr.clientId == id then [a[0]] else [];
      assert (a + b)[1..] == a[1..] + b;
      MessagesOfConcat(a[1..], b, id);
      Associate(first, MessagesOf(a[1..], id), MessagesOf(b, id));
    }
  }

  predicate InRange(pairs: seq<(nat, Bytes)>) {
    forall i :: 0 <= i < |pairs| ==> pairs[i].0 < TWO_31
  }

  /** A message that was read carries the client's identifier. */
  ghost predicate Signs(read: nat -> Bytes -> Result<Message>, id: nat, frame: Bytes) {
    id < TWO_31 && read(id)(frame).Ok? ==> read(id)(frame).value.hdr.clientId == id
  }

  /** A client's frames are read as its messages, whatever comes between them. */
  lemma {:induction false} PairsOf(read: nat -> Bytes -> Result<Message>, pairs: seq<(nat, Bytes)>, id: nat)
    requires InRange(pairs) && EachPair(read, pairs).Ok? && forall i, f :: Signs(read, i, f)
    ensures Each(read(id), FramesOf(pairs, id)) == Ok(MessagesOf(EachPair(read, pairs).value, id))
  {
    if pairs != [] {
      var m, more := read(pairs[0].0)(pairs[0].1).value, EachPair(read, pairs[1..]).value;
      PairsOf(read, pairs[1..], id);
      assert Signs(read, pairs[0].0, pairs[0].1);
      assert ([m] + more)[1..] == more && [] + MessagesOf(more, id) == MessagesOf(more, id);
      var later := FramesOf(pairs[1..], id);
      assert FramesOf(pairs, id) == (if pairs[0].0 == id then [pairs[0].1] else []) + later;
      if pairs[0].0 == id {
        assert ([pairs[0].1] + later)[1..] == later;
      } else {
        assert [] + later == later;
      }
    }
  }

  /** If reading fails, it fails on a frame of some client. */
  lemma {:induction false} PairsFail(read: nat -> Bytes -> Result<Message>, pairs: seq<(nat, Bytes)>)
    returns (id: nat)
    requires EachPair(read, pairs).Err?
    ensures exists i :: 0 <= i < |pairs| && pairs[i].0 == id
    ensures Each(read(id), FramesOf(pairs, id)).Err?
  {
    if read(pairs[0].0)(pairs[0].1).Err? {
      id := pairs[0].0;
    } else {
      id := PairsFail(read, pairs[1..]);
      var i :| 0 <= i < |pairs[1..]| && pairs[1..][i].0 == id;
      assert pairs[i + 1].0 == id;
      var later := FramesOf(pairs[1..], id);
      assert FramesOf(pairs, id) == (if pairs[0].0 == id then [pairs[0].1] else []) + later;
      if pairs[0].0 == id {
        assert ([pairs[0].1] + later)[1..] == later;
      } else {
        assert [] + later == later;
      }
    }
  }

  /** The message that the server makes for a client that is gone: it has no number and no time yet. */
  function Gone(id: Int32): Message {
    ClientDisconnect(Header(CLIENT_DISCONNECT, id, -1, -1))
  }

  function GoneAll(ids: seq<nat>): seq<Message>
    requires forall i :: 0 <= i < |ids| ==> ids[i] < TWO_31
  {
    if ids == [] then [] else [Gone(ids[0])] + GoneAll(ids[1..])
  }

  lemma {:induction false} GoneOf(ids: seq<nat>, id: nat)
    requires forall i :: 0 <= i < |ids| ==> ids[i] < TWO_31
    requires forall i, j :: 0 <= i < j < |ids| ==> ids[i] != ids[j]
    requires id < TWO_31
    ensures MessagesOf(GoneAll(ids), id) == if id in ids then [Gone(id)] else []
  {
    if ids != [] {
      GoneOf(ids[1..], id);
      assert GoneAll(ids)[1..] == GoneAll(ids[1..]);
      if ids[0] == id {
        assert id !in ids[1..];
      } else {
        assert id in ids <==> id in ids[1..];
      }
    }
  }

  lemma {:induction false} GoneMore(ids: seq<nat>, id: nat)
    requires (forall i :: 0 <= i < |ids| ==> ids[i] < TWO_31) && id < TWO_31
    ensures GoneAll(ids + [id]) == GoneAll(ids) + [Gone(id)]
  {
    if ids == [] {
      assert [] + [id] == [id] && [id][1..] == [];
    } else {
      assert (ids + [id])[1..] == ids[1..] + [id];
      GoneMore(ids[1..], id);
    }
  }

  // ---------- the poll ----------

  /** What one connection brings to a poll. */
  function Heard(start: Connections, events: seq<Event>, fd: nat): Parsed {
    Feed(StartBuffer(start, fd), ChunksOf(events, fd), SERVER_RECV_MAX_MESSAGE_SIZE)
  }

  predicate Lost(start: Connections, events: seq<Event>, fd: nat) {
    Heard(start, events, fd).oversized || EndedIn(events, fd)
  }

  /** Read from the i-th frame on, with these messages read before. */
  predicate Reading(pairs: seq<(nat, Bytes)>, later: seq<(nat, Bytes)>, messages: seq<Message>) {
    var all, rest := EachPair(ReaderOf(), pairs), EachPair(ReaderOf(), later);
    (all.Ok? <==> rest.Ok?) && (all.Ok? ==> all.value == messages + rest.value)
  }

  lemma ReadingNext(pairs: seq<(nat, Bytes)>, later: seq<(nat, Bytes)>, messages: seq<Message>, m: Message)
    requires later != [] && Reading(pairs, later, messages) && ReaderOf()(later[0].0)(later[0].1) == Ok(m)
    ensures Reading(pairs, later[1..], messages + [m])
  {
    var rest := EachPair(ReaderOf(), later[1..]);
    if rest.Ok? { assert messages + ([m] + rest.value) == messages + [m] + rest.value; }
  }

  method DecodeFrames(pairs: seq<(nat, Bytes)>) returns (r: Result<seq<Message>>)
    ensures r.Ok? <==> EachPair(ReaderOf(), pairs).Ok?
    ensures r.Ok? ==> r == EachPair(ReaderOf(), pairs)
  {
    var messages, later := [], pairs;
    while later != []
      invariant Reading(pairs, later, messages)
      decreases |later|
    {
      var m := DeserialiseFrom(later[0].1, AsInt(later[0].0));
      if m.Err? {
        return Err(m.error);
      }
      ReadingNext(pairs, later, messages, m.value);
      messages, later := messages + [m.value], later[1..];
    }
    assert messages + [] == messages;
    return Ok(messages);
  }

  /** The identifiers handed out by the end of the poll are C++ ints. */
  lemma PairsInRange(start: Connections, events: seq<Event>, pairs: seq<(nat, Bytes)>, end: Connections, max: nat)
    requires ServedAll(start, events, pairs, end, max) && forall fd :: fd in end.ids ==> end.ids[fd] < TWO_31
    ensures InRange(pairs)
  {
    forall i | 0 <= i < |pairs| ensures pairs[i].0 < TWO_31 {
      assert pairs[i] in pairs;
      var fd :| fd in end.ids && end.ids[fd] == pairs[i].0;
    }
  }

  /** What the poll reads of one client. */
  function ReadOf(start: Connections, events: seq<Event>, end: Connections, fd: nat): Result<seq<Message>>
    requires fd in end.ids
  {
    Each(ReaderOf()(end.ids[fd]), Heard(start, events, fd).frames)
  }

  lemma ReadersSign(id: nat, frame: Bytes)
    ensures Signs(ReaderOf(), id, frame)
  {
    if id < TWO_31 { SmallInt(id); }
  }

  lemma FramesHeard(
    start: Connections, events: seq<Event>, pairs: seq<(nat, Bytes)>, end: Connections, fd: nat, id: nat)
    requires fd in end.ids && end.ids[fd] == id
    requires ServedOne(start, events, pairs, end, fd, SERVER_RECV_MAX_MESSAGE_SIZE)
    ensures FramesOf(pairs, id) == Heard(start, events, fd).frames
    ensures fd in end.marks <==> Lost(start, events, fd)
  {
  }

  lemma OneClient(start: Connections, events: seq<Event>, pairs: seq<(nat, Bytes)>, end: Connections, fd: nat, id: nat)
    requires fd in end.ids && end.ids[fd] == id && InRange(pairs)
    requires ServedOne(start, events, pairs, end, fd, SERVER_RECV_MAX_MESSAGE_SIZE)
    requires EachPair(ReaderOf(), pairs).Ok?
    ensures ReadOf(start, events, end, fd) == Ok(MessagesOf(EachPair(ReaderOf(), pairs).value, id))
    ensures fd in end.marks <==> Lost(start, events, fd)
  {
    forall i: nat, f ensures Signs(ReaderOf(), i, f) { ReadersSign(i, f); }
    PairsOf(ReaderOf(), pairs, id);
    FramesHeard(start, events, pairs, end, fd, id);
  }

  lemma SomeClientFails(start: Connections, events: seq<Event>, pairs: seq<(nat, Bytes)>, end: Connections)
    returns (fd: nat)
    requires ServedAll(start, events, pairs, end, SERVER_RECV_MAX_MESSAGE_SIZE)
    requires EachPair(ReaderOf(), pairs).Err?
    ensures fd in end.ids && ReadOf(start, events, end, fd).Err?
  {
    var id := PairsFail(ReaderOf(), pairs);
    var i :| 0 <= i < |pairs| && pairs[i].0 == id;
    assert pairs[i] in pairs;
    fd :| fd in end.ids && end.ids[fd] == id;
    assert ServedOne(start, events, pairs, end, fd, SERVER_RECV_MAX_MESSAGE_SIZE);
  }

  /** The tick of a live server is given what its clients sent, each client's messages in order and with its
      own identifier, and at the end of them its disconnect if it is gone. */
  ghost predicate Given(start: Connections, events: seq<Event>, end: Connections, messages: seq<Message>) {
    forall fd :: fd in end.ids ==> GivenOne(start, events, end, messages, fd)
  }

  predicate GivenOne(start: Connections, events: seq<Event>, end: Connections, messages: seq<Message>, fd: nat)
    requires fd in end.ids
  {
    var r, id := ReadOf(start, events, end, fd), AsInt(end.ids[fd]);
    r.Ok? && MessagesOf(messages, id) == r.value + if Lost(start, events, fd) then [Gone(id)] else []
  }

  predicate Distinct(ids: seq<nat>) {
    && (forall i :: 0 <= i < |ids| ==> ids[i] < TWO_31)
    && (forall i, j :: 0 <= i < j < |ids| ==> ids[i] != ids[j])
  }

  /** What was read of a client and perhaps its disconnect at the end. */
  lemma EndOfMessages(read: seq<Message>, ids: seq<nat>, id: nat)
    requires Distinct(ids) && id < TWO_31
    ensures MessagesOf(read + GoneAll(ids), AsInt(id))
      == MessagesOf(read, id) + if id in ids then [Gone(AsInt(id))] else []
  {
    SmallInt(id);
    MessagesOfConcat(read, GoneAll(ids), id);
    GoneOf(ids, id);
  }

  lemma OneGiven(
    start: Connections, events: seq<Event>, pairs: seq<(nat, Bytes)>, end: Connections, ids: seq<nat>, fd: nat, id: nat)
    requires fd in end.ids && end.ids[fd] == id && id < TWO_31 && InRange(pairs)
    requires ServedOne(start, events, pairs, end, fd, SERVER_RECV_MAX_MESSAGE_SIZE)
    requires EachPair(ReaderOf(), pairs).Ok? && Distinct(ids) && (id in ids <==> fd in end.marks)
    ensures GivenOne(start, events, end, EachPair(ReaderOf(), pairs).value + GoneAll(ids), fd)
  {
    OneClient(start, events, pairs, end, fd, id);
    EndOfMessages(EachPair(ReaderOf(), pairs).value, ids, id);
  }

  lemma AllGiven(start: Connections, events: seq<Event>, pairs: seq<(nat, Bytes)>, end: Connections, ids: seq<nat>)
    requires ServedAll(start, events, pairs, end, SERVER_RECV_MAX_MESSAGE_SIZE)
    requires forall fd :: fd in end.ids ==> end.ids[fd] < TWO_31
    requires EachPair(ReaderOf(), pairs).Ok? && Distinct(ids)
    requires forall fd :: fd in end.ids ==> (end.ids[fd] in ids <==> fd in end.marks)
    ensures Given(start, events, end, EachPair(ReaderOf(), pairs).value + GoneAll(ids))
  {
    PairsInRange(start, events, pairs, end, SERVER_RECV_MAX_MESSAGE_SIZE);
    var messages := EachPair(ReaderOf(), pairs).value + GoneAll(ids);
    forall fd | fd in end.ids ensures GivenOne(start, events, end, messages, fd) {
      assert ServedOne(start, events, pairs, end, fd, SERVER_RECV_MAX_MESSAGE_SIZE);
      OneGiven(start, events, pairs, end, ids, fd, end.ids[fd]);
    }
  }

  /** The frames of the sockets as messages, and a disconnect for every connection that is gone. One frame
      that cannot be read ends the server. */
  method PollMessages(net: NetworkServer, events: seq<Event>) returns (r: Result<seq<Message>>, ghost end: Connections)
    requires net.Valid() && net.fdsToDisconnect == {} && Plausible(net.fdToClientIdMap.Keys, events)
    requires net.nextClientId + |events| <= TWO_31
    modifies net
    ensures forall fd :: fd in old(net.fdToClientIdMap) ==> fd in end.ids && end.ids[fd] == old(net.fdToClientIdMap)[fd]
    ensures end.ids.Keys == Opened(old(net.fdToClientIdMap).Keys, events)
    ensures r.Ok? <==> forall fd :: fd in end.ids ==> ReadOf(old(net.State()), events, end, fd).Ok?
    ensures r.Ok? ==> Given(old(net.State()), events, end, r.value)
    ensures r.Ok? ==> net.Valid() && net.fdsToDisconnect == {}
    ensures r.Ok? ==> forall fd :: fd in net.fdToClientIdMap <==> fd in end.ids && !Lost(old(net.State()), events, fd)
    ensures r.Ok? ==> forall fd :: fd in net.fdToClientIdMap ==>
      && net.fdToClientIdMap[fd] == end.ids[fd] && fd in net.fdToBufferMap
      && net.fdToBufferMap[fd] == Heard(old(net.State()), events, fd).rest
  {
    ghost var start := net.State();
    var pairs := net.PollMessages(events);
    end := net.State();
    SmallIdentifiers(net, end);
    r := DecodeFrames(pairs);
    if r.Err? {
      ghost var fd := SomeClientFails(start, events, pairs, end);
      return;
    }
    var messages := r.value;
    var ids := Drain(net, end);
    AllGiven(start, events, pairs, end, ids);
    KeptConnections(start, events, pairs, end);
    messages := AppendGone(messages, ids);
    r := Ok(messages);
  }

  lemma SmallIdentifiers(net: NetworkServer, end: Connections)
    requires net.Valid() && net.State() == end && net.nextClientId <= TWO_31
    ensures forall fd :: fd in end.ids ==> end.ids[fd] < TWO_31
  {
  }

  /** The connections that are left, and what waits in their buffers. */
  lemma KeptConnections(start: Connections, events: seq<Event>, pairs: seq<(nat, Bytes)>, end: Connections)
    requires ServedAll(start, events, pairs, end, SERVER_RECV_MAX_MESSAGE_SIZE)
    ensures var left, buffers := end.ids - end.marks, end.buffers - end.marks * end.ids.Keys;
      && (forall fd :: fd in left <==> fd in end.ids && !Lost(start, events, fd))
      && (forall fd :: fd in left ==> fd in buffers && buffers[fd] == Heard(start, events, fd).rest)
  {
    forall fd | fd in end.ids
      ensures fd in end.marks <==> Lost(start, events, fd)
      ensures fd in end.buffers && end.buffers[fd] == Heard(start, events, fd).rest
    {
      assert ServedOne(start, events, pairs, end, fd, SERVER_RECV_MAX_MESSAGE_SIZE);
    }
  }

  /** The marked clients, each once. */
  method Drain(net: NetworkServer, ghost end: Connections) returns (ids: seq<nat>)
    requires net.Valid() && net.State() == end && net.nextClientId <= TWO_31
    modifies net
    ensures net.Valid() && net.fdsToDisconnect == {} && Distinct(ids)
    ensures forall fd :: fd in end.ids ==> (end.ids[fd] in ids <==> fd in end.marks)
    ensures net.fdToClientIdMap == end.ids - end.marks && net.fdToBufferMap == end.buffers - end.marks * end.ids.Keys
  {
    ghost var back := net.clientIdToFdMap;
    forall fd | fd in end.ids ensures end.ids[fd] in back && back[end.ids[fd]] == fd { }
    assert forall id :: id in back ==> id < TWO_31;
    ids := net.DrainDisconnects();
    forall i | 0 <= i < |ids| ensures ids[i] < TWO_31 { assert ids[i] in ids; }
  }

  method AppendGone(messages: seq<Message>, ids: seq<nat>) returns (r: seq<Message>)
    requires forall i :: 0 <= i < |ids| ==> ids[i] < TWO_31
    ensures r == messages + GoneAll(ids)
  {
    r := messages;
    for i := 0 to |ids|
      invariant r == messages + GoneAll(ids[..i])
    {
      assert ids[..i] + [ids[i]] == ids[..i + 1];
      GoneMore(ids[..i], ids[i]);
      r := r + [Gone(ids[i])];
    }
    assert ids[..|ids|] == ids;
  }

  /** The whole way: a client sends joins, inputs and disconnects, in any pieces over any number of polls, between
      any events of others. This poll's tick is given exactly the client's next messages, the i-th to the j-th,
      with the connection's identifier, and the connection stays open. */
  lemma ClientPlays(
    start: Connections, events: seq<Event>, end: Connections, messages: seq<Message>, fd: nat, id: nat,
    ms: seq<Message>, earlier: seq<Bytes>, p: Parsed, q: Parsed, i: nat, j: nat)
    requires Given(start, events, end, messages) && fd in end.ids && end.ids[fd] == id && id < TWO_31
    requires !EndedIn(events, fd)
    requires AllFromClient(ms) && Concat(earlier + ChunksOf(events, fd)) <= Stream(EncodeAll(ms))
    requires p == Feed([], earlier, SERVER_RECV_MAX_MESSAGE_SIZE) && StartBuffer(start, fd) == p.rest
    requires q == Heard(start, events, fd) && i == |p.frames| && j == i + |q.frames|
    ensures !Lost(start, events, fd) && j <= |ms|
    ensures MessagesOf(messages, id) == ReaddressedAll(ms[i..j], id)
  {
    assert GivenOne(start, events, end, messages, fd);
    SmallInt(id);
    ClientIsServed(ms, earlier, ChunksOf(events, fd), p, q, i, j, id);
    assert MessagesOf(messages, id) + [] == MessagesOf(messages, id);
  }
}
