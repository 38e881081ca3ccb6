/** What happens on a server's sockets during a poll, and what it leaves of every connection. */
module Sockets {
  import opened LittleEndian
  import opened Framing
  import opened Sequences

  /** A client connects, bytes of a client arrive, or its connection ends or fails. */
  datatype Event = Connecting(fd: nat) | Arrived(fd: nat, bytes: Bytes) | Ended(fd: nat)

  /** New clients come on descriptors that are not open, everything else on descriptors that are. */
  predicate Plausible(open: set<nat>, events: seq<Event>)
    decreases |events|
  {
    events == [] ||
    match events[0]
    case Connecting(fd) => fd !in open && Plausible(open + {fd}, events[1..])
    case Arrived(fd, _) => fd in open && Plausible(open, events[1..])
    case Ended(fd) => fd in open && Plausible(open, events[1..])
  }

  /** The descriptors open afterwards. */
  function Opened(open: set<nat>, events: seq<Event>): set<nat>
    decreases |events|
  {
    if events == [] then open
    else Opened(if events[0].Connecting? then open + {events[0].fd} else open, events[1..])
  }

  /** One event more. */
  lemma NextEvent(open: set<nat>, events: seq<Event>, i: nat)
    requires i < |events| && Plausible(open, events[i..])
    ensures if events[i].Connecting? then events[i].fd !in open else events[i].fd in open
    ensures var next := open + if events[i].Connecting? then {events[i].fd} else {};
      Plausible(next, events[i + 1..]) && Opened(next, events[i + 1..]) == Opened(open, events[i..])
  {
    assert events[i..][0] == events[i] && events[i..][1..] == events[i + 1..];
    assert open + {} == open;
  }

  /** What one connection received. */
  function ChunksOf(events: seq<Event>, fd: nat): seq<Bytes> {
    if events == [] then []
    else (if events[0].Arrived? && events[0].fd == fd then [events[0].bytes] else []) + ChunksOf(events[1..], fd)
  }

  predicate EndedIn(events: seq<Event>, fd: nat) {
    Ended(fd) in events
  }

  /** The frames of one client. */
  function FramesOf(messages: seq<(nat, Bytes)>, id: nat): seq<Bytes> {
    if messages == [] then []
    else (if messages[0].0 == id then [messages[0].1] else []) + FramesOf(messages[1..], id)
  }

  /** Frames with the client they come from. */
  function From(id: nat, frames: seq<Bytes>): (r: seq<(nat, Bytes)>)
    ensures |r| == |frames| && forall i :: 0 <= i < |r| ==> r[i] == (id, frames[i])
  {
    if frames == [] then [] else [(id, frames[0])] + From(id, frames[1..])
  }

  /** The identifiers, buffers and marks of the open connections. */
  datatype Connections = Connections(ids: map<nat, nat>, buffers: map<nat, Bytes>, marks: set<nat>)

  predicate Different(ids: map<nat, nat>) {
    forall a, b :: a in ids && b in ids && ids[a] == ids[b] ==> a == b
  }

  /** What a connection has to show for the events so far: its frames, what waits in its buffer, its mark. */
  predicate Served(
    start: Bytes, done: seq<Event>, fd: nat, frames: seq<Bytes>, buffer: Bytes, marked: bool, max: nat)
  {
    var p := Feed(start, ChunksOf(done, fd), max);
    frames == p.frames && buffer == p.rest && (marked <==> p.oversized || EndedIn(done, fd))
  }

  function StartBuffer(c: Connections, fd: nat): Bytes {
    if fd in c.ids && fd in c.buffers then c.buffers[fd] else []
  }

  /** Every message comes from an open connection, and marks are on open connections that have buffers. */
  ghost predicate Tidy(done: seq<Event>, messages: seq<(nat, Bytes)>, now: Connections) {
    && now.marks <= now.ids.Keys <= now.buffers.Keys
    && (forall e :: e in done ==> e.fd in now.ids)
    && (forall m :: m in messages ==> m.0 in now.ids.Values)
  }

  /** Every open connection has been served its own events; those of others have had no influence on it. */
  ghost predicate ServedAll(
    start: Connections, done: seq<Event>, messages: seq<(nat, Bytes)>, now: Connections, max: nat)
  {
    && Tidy(done, messages, now)
    && (forall fd :: fd in start.ids ==> fd in now.ids && now.ids[fd] == start.ids[fd])
    && (forall fd {:trigger ServedOne(start, done, messages, now, fd, max)} ::
          fd in now.ids ==> ServedOne(start, done, messages, now, fd, max))
  }

  predicate ServedOne(
    start: Connections, done: seq<Event>, messages: seq<(nat, Bytes)>, now: Connections, fd: nat, max: nat)
    requires fd in now.ids
  {
    && fd in now.buffers
    && Served(StartBuffer(start, fd), done, fd, FramesOf(messages, now.ids[fd]), now.buffers[fd], fd in now.marks, max)
  }

  // ---------- filters ----------

  lemma {:induction false} ChunksOfMore(events: seq<Event>, e: Event, fd: nat)
    ensures ChunksOf(events + [e], fd)
      == ChunksOf(events, fd) + if e.Arrived? && e.fd == fd then [e.bytes] else []
  {
    if events == [] {
      assert [] + [e] == [e] && [e][1..] == [];
    } else {
      assert (events + [e])[1..] == events[1..] + [e];
      ChunksOfMore(events[1..], e, fd);
    }
  }

  lemma {:induction false} NoChunks(done: seq<Event>, fd: nat)
    requires forall e :: e in done ==> e.fd != fd
    ensures ChunksOf(done, fd) == []
  {
    if done != [] {
      assert done[0] in done;
      NoChunks(done[1..], fd);
    }
  }

  lemma {:induction false} FramesOfConcat(a: seq<(nat, Bytes)>, b: seq<(nat, Bytes)>, id: nat)
    ensures FramesOf(a + b, id) == FramesOf(a, id) + FramesOf(b, id)
  {
    if a == [] {
      assert a + b == b;
    } else {
      var first := if a[0].0 == id then [a[0].1] else [];
      assert (a + b)[1..] == a[1..] + b;
      FramesOfConcat(a[1..], b, id);
      Associate(first, FramesOf(a[1..], id), FramesOf(b, id));
    }
  }

  lemma {:induction false} NoFrames(messages: seq<(nat, Bytes)>, id: nat)
    requires forall m :: m in messages ==> m.0 != id
    ensures FramesOf(messages, id) == []
  {
    if messages != [] {
      assert messages[0] in messages;
      NoFrames(messages[1..], id);
    }
  }

  lemma {:induction false} FramesOfFrom(id: nat, frames: seq<Bytes>, other: nat)
    ensures FramesOf(From(id, frames), other) == if id == other then frames else []
  {
    if frames != [] {
      FramesOfFrom(id, frames[1..], other);
      assert frames == [frames[0]] + frames[1..];
    }
  }

  lemma FromConcat(messages: seq<(nat, Bytes)>, id: nat, frames: seq<Bytes>, other: nat)
    ensures FramesOf(messages + From(id, frames), other)
      == FramesOf(messages, other) + if id == other then frames else []
  {
    FramesOfConcat(messages, From(id, frames), other);
    FramesOfFrom(id, frames, other);
  }

  // ---------- one connection ----------

  lemma ServedArrival(
    start: Bytes, done: seq<Event>, fd: nat, frames: seq<Bytes>, buffer: Bytes, marked: bool, c: Bytes, max: nat)
    requires Served(start, done, fd, frames, buffer, marked, max)
    ensures var q := Parse(buffer + c, max);
      Served(start, done + [Arrived(fd, c)], fd, frames + q.frames, q.rest, marked || q.oversized, max)
  {
    ChunksOfMore(done, Arrived(fd, c), fd);
    FeedMore(start, ChunksOf(done, fd), c, max);
  }

  lemma ServedEnd(start: Bytes, done: seq<Event>, fd: nat, frames: seq<Bytes>, buffer: Bytes, marked: bool, max: nat)
    requires Served(start, done, fd, frames, buffer, marked, max)
    ensures Served(start, done + [Ended(fd)], fd, frames, buffer, true, max)
  {
    ChunksOfMore(done, Ended(fd), fd);
    assert ChunksOf(done, fd) + [] == ChunksOf(done, fd);
    assert Ended(fd) in done + [Ended(fd)];
  }

  /** What happens to others is nothing to a connection. */
  lemma ServedOther(
    start: Bytes, done: seq<Event>, e: Event, fd: nat, frames: seq<Bytes>, buffer: Bytes, marked: bool, max: nat)
    requires Served(start, done, fd, frames, buffer, marked, max) && e.fd != fd
    ensures Served(start, done + [e], fd, frames, buffer, marked, max)
  {
    ChunksOfMore(done, e, fd);
    assert ChunksOf(done, fd) + [] == ChunksOf(done, fd);
    assert Ended(fd) in done + [e] <==> Ended(fd) in done;
  }

  /** A connection that nothing was heard of. */
  lemma ServedNothing(start: Bytes, done: seq<Event>, fd: nat, max: nat)
    requires forall e :: e in done ==> e.fd != fd
    ensures Served(start, done, fd, [], start, false, max)
  {
    NoChunks(done, fd);
  }

  // ---------- one event ----------

  lemma NothingServed(start: Connections, max: nat)
    requires start.marks == {} && start.ids.Keys <= start.buffers.Keys
    ensures ServedAll(start, [], [], start, max)
  {
    forall fd | fd in start.ids ensures ServedOne(start, [], [], start, fd, max) {
      ServedNothing(start.buffers[fd], [], fd, max);
    }
  }

  /** What parsing one more chunk leaves. */
  function AfterArrival(now: Connections, fd: nat, c: Bytes, max: nat): Connections
    requires fd in now.buffers
  {
    var q := Parse(now.buffers[fd] + c, max);
    Connections(now.ids, now.buffers[fd := q.rest], now.marks + if q.oversized then {fd} else {})
  }

  function ArrivalFrames(now: Connections, fd: nat, c: Bytes, max: nat): seq<(nat, Bytes)>
    requires fd in now.ids && fd in now.buffers
  {
    From(now.ids[fd], Parse(now.buffers[fd] + c, max).frames)
  }

  lemma ArrivalServesOne(
    start: Connections, done: seq<Event>, messages: seq<(nat, Bytes)>, now: Connections, fd: nat, c: Bytes, x: nat,
    max: nat)
    requires fd in now.ids && fd in now.buffers && Different(now.ids)
    requires x in now.ids && ServedOne(start, done, messages, now, x, max)
    ensures ServedOne(start, done + [Arrived(fd, c)], messages + ArrivalFrames(now, fd, c, max),
                      AfterArrival(now, fd, c, max), x, max)
  {
    var q := Parse(now.buffers[fd] + c, max);
    FromConcat(messages, now.ids[fd], q.frames, now.ids[x]);
    var b, frames := StartBuffer(start, x), FramesOf(messages, now.ids[x]);
    if x == fd {
      ServedArrival(b, done, fd, frames, now.buffers[fd], fd in now.marks, c, max);
    } else {
      assert now.ids[x] != now.ids[fd] && frames + [] == frames;
      ServedOther(b, done, Arrived(fd, c), x, frames, now.buffers[x], x in now.marks, max);
    }
  }

  lemma ArrivalTidy(done: seq<Event>, messages: seq<(nat, Bytes)>, now: Connections, fd: nat, c: Bytes, max: nat)
    requires Tidy(done, messages, now) && fd in now.ids
    ensures Tidy(done + [Arrived(fd, c)], messages + ArrivalFrames(now, fd, c, max), AfterArrival(now, fd, c, max))
  {
  }

  lemma ArrivalServes(
    start: Connections, done: seq<Event>, messages: seq<(nat, Bytes)>, now: Connections, fd: nat, c: Bytes, max: nat)
    requires ServedAll(start, done, messages, now, max) && fd in now.ids && Different(now.ids)
    ensures fd in now.buffers
    ensures ServedAll(start, done + [Arrived(fd, c)], messages + ArrivalFrames(now, fd, c, max),
                      AfterArrival(now, fd, c, max), max)
  {
    ArrivalTidy(done, messages, now, fd, c, max);
    forall x | x in now.ids
      ensures ServedOne(start, done + [Arrived(fd, c)], messages + ArrivalFrames(now, fd, c, max),
                        AfterArrival(now, fd, c, max), x, max)
    {
      assert ServedOne(start, done, messages, now, x, max);
      ArrivalServesOne(start, done, messages, now, fd, c, x, max);
    }
  }

  function AfterEnd(now: Connections, fd: nat): Connections {
    now.(marks := now.marks + {fd})
  }

  lemma EndServesOne(
    start: Connections, done: seq<Event>, messages: seq<(nat, Bytes)>, now: Connections, fd: nat, x: nat, max: nat)
    requires x in now.ids && ServedOne(start, done, messages, now, x, max)
    ensures ServedOne(start, done + [Ended(fd)], messages, AfterEnd(now, fd), x, max)
  {
    var b, frames := StartBuffer(start, x), FramesOf(messages, now.ids[x]);
    if x == fd {
      ServedEnd(b, done, fd, frames, now.buffers[fd], fd in now.marks, max);
    } else {
      ServedOther(b, done, Ended(fd), x, frames, now.buffers[x], x in now.marks, max);
    }
  }

  lemma EndServes(
    start: Connections, done: seq<Event>, messages: seq<(nat, Bytes)>, now: Connections, fd: nat, max: nat)
    requires ServedAll(start, done, messages, now, max) && fd in now.ids
    ensures ServedAll(start, done + [Ended(fd)], messages, AfterEnd(now, fd), max)
  {
    forall x | x in now.ids ensures ServedOne(start, done + [Ended(fd)], messages, AfterEnd(now, fd), x, max) {
      assert ServedOne(start, done, messages, now, x, max);
      EndServesOne(start, done, messages, now, fd, x, max);
    }
  }

  function AfterConnecting(now: Connections, fd: nat, id: nat): Connections {
    Connections(now.ids[fd := id], now.buffers[fd := []], now.marks)
  }

  lemma ConnectingTidy(done: seq<Event>, messages: seq<(nat, Bytes)>, now: Connections, fd: nat, id: nat)
    requires Tidy(done, messages, now) && fd !in now.ids && id !in now.ids.Values
    ensures Tidy(done + [Connecting(fd)], messages, AfterConnecting(now, fd, id))
    ensures FramesOf(messages, id) == []
  {
    forall m | m in messages ensures m.0 in AfterConnecting(now, fd, id).ids.Values && m.0 != id {
      var x :| x in now.ids && now.ids[x] == m.0;
      assert AfterConnecting(now, fd, id).ids[x] == m.0;
    }
    NoFrames(messages, id);
  }

  lemma NewcomerServed(done: seq<Event>, fd: nat, max: nat)
    requires forall e :: e in done ==> e.fd != fd
    ensures Served([], done + [Connecting(fd)], fd, [], [], false, max)
  {
    ServedNothing([], done, fd, max);
    ChunksOfMore(done, Connecting(fd), fd);
    assert ChunksOf(done, fd) + [] == ChunksOf(done, fd);
    assert Ended(fd) !in done + [Connecting(fd)];
  }

  lemma ConnectingServes(
    start: Connections, done: seq<Event>, messages: seq<(nat, Bytes)>, now: Connections, fd: nat, id: nat, max: nat)
    requires ServedAll(start, done, messages, now, max) && fd !in now.ids && id !in now.ids.Values
    ensures ServedAll(start, done + [Connecting(fd)], messages, AfterConnecting(now, fd, id), max)
  {
    var after := AfterConnecting(now, fd, id);
    ConnectingTidy(done, messages, now, fd, id);
    NewcomerServed(done, fd, max);
    forall x | x in after.ids ensures ServedOne(start, done + [Connecting(fd)], messages, after, x, max) {
      if x in now.ids {
        assert ServedOne(start, done, messages, now, x, max);
        ServedOther(StartBuffer(start, x), done, Connecting(fd), x, FramesOf(messages, now.ids[x]), now.buffers[x],
                    x in now.marks, max);
      }
    }
  }
}
