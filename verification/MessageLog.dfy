/** The message log on disk: length-prefixed records, and a reader that hands them out in batches. */
module MessageLog {
  import opened Sequences
  import opened Results
  import opened LittleEndian
  import opened Protocol
  import opened Serialiser
  import opened Batching
  import opened Framing

  /** What the writer appends for one record. The length is a uint32_t, and only that many bytes of
      the record are written. */
  function LogRecord(b: Bytes): Bytes {
    Uint32Bytes(|b|) + b[..|b| % TWO_32]
  }

  function LogBytes(log: seq<Message>): Bytes {
    if log == [] then [] else LogRecord(Encode(log[0])) + LogBytes(log[1..])
  }

  lemma {:induction false} LogBytesConcat(a: seq<Message>, b: seq<Message>)
    ensures LogBytes(a + b) == LogBytes(a) + LogBytes(b)
  {
    if a == [] {
      assert a + b == b;
    } else {
      assert (a + b)[1..] == a[1..] + b;
      LogBytesConcat(a[1..], b);
      Associate(LogRecord(Encode(a[0])), LogBytes(a[1..]), LogBytes(b));
    }
  }

  class MessageLogWriter {
    var out: Bytes

    constructor ()
      ensures out == []
    {
      out := [];
    }

    method Log(msg: Bytes)
      modifies this
      ensures out == old(out) + LogRecord(msg)
    {
      var len := |msg| % TWO_32;
      out := out + Uint32Bytes(len);
      out := out + msg[..len];
      SameLength(|msg|);
    }
  }

  lemma SameLength(n: nat)
    ensures Uint32Bytes(n % TWO_32) == Uint32Bytes(n)
  {
  }

  // ---------- reading the bytes ----------

  /** How a file ends: where no further length can be read, or in an error. */
  datatype End = Clean | Broken(error: Error)

  /** The records that can be read from some bytes, and how the bytes end. */
  datatype Contents = Contents(records: seq<Message>, end: End)

  function ReadAll(s: Bytes): Contents
    decreases |s|
  {
    if |s| < 4 then Contents([], Clean)
    else if |s| < 4 + Length(s) then Contents([], Broken(TruncatedRecord))
    else match Decode(s[4..4 + Length(s)])
      case Err(e) => Contents([], Broken(e))
      case Ok(m) =>
        var more := ReadAll(s[4 + Length(s)..]);
        Contents([m] + more.records, more.end)
  }

  /** A written log reads back as exactly its records. */
  lemma LogReadsBack(log: seq<Message>)
    requires forall m :: m in log ==> Encodable(m) && |Encode(m)| < TWO_32
    ensures ReadAll(LogBytes(log)) == Contents(log, Clean)
  {
    var good := (m: Message) => Decode(Encode(m)) == Ok(m) && |Encode(m)| < TWO_32;
    forall m | m in log ensures good(m) { RoundTrip(m); }
    GoodRecordsReadBack(log, good);
  }

  /** Every good record reads back. */
  ghost predicate ReadsBack(good: Message -> bool) {
    forall m {:trigger Decode(Encode(m))} :: good(m) ==> Decode(Encode(m)) == Ok(m) && |Encode(m)| < TWO_32
  }

  lemma {:induction false} GoodRecordsReadBack(log: seq<Message>, good: Message -> bool)
    requires ReadsBack(good) && forall m :: m in log ==> good(m)
    ensures ReadAll(LogBytes(log)) == Contents(log, Clean)
  {
    if log != [] {
      assert log[0] in log;
      GoodRecordsReadBack(log[1..], good);
      GoodRecordInFront(log[0], log[1..], good);
    }
  }

  lemma GoodRecordInFront(m: Message, log: seq<Message>, good: Message -> bool)
    requires ReadsBack(good) && good(m) && ReadAll(LogBytes(log)) == Contents(log, Clean)
    ensures ReadAll(LogRecord(Encode(m)) + LogBytes(log)) == Contents([m] + log, Clean)
  {
    assert Decode(Encode(m)) == Ok(m);
    OneMoreReadsBack(Encode(m), m, log, LogBytes(log));
  }

  lemma OneMoreReadsBack(b: Bytes, m: Message, log: seq<Message>, rest: Bytes)
    requires |b| < TWO_32 && Decode(b) == Ok(m) && ReadAll(rest) == Contents(log, Clean)
    ensures ReadAll(LogRecord(b) + rest) == Contents([m] + log, Clean)
  {
    OneReadsBack(b, m, rest);
  }

  lemma OneReadsBack(b: Bytes, m: Message, rest: Bytes)
    requires |b| < TWO_32 && Decode(b) == Ok(m)
    ensures ReadAll(LogRecord(b) + rest) == Contents([m] + ReadAll(rest).records, ReadAll(rest).end)
  {
    RecordInFront(b, rest);
  }

  lemma RecordInFront(b: Bytes, rest: Bytes)
    requires |b| < TWO_32
    ensures var s := LogRecord(b) + rest;
      |s| >= 4 && Length(s) == |b| && |s| >= 4 + |b| && s[4..4 + |b|] == b && s[4 + |b|..] == rest
  {
    FirstOfStream(b, rest);
    assert LogRecord(b) == Frame(b);
  }

  // ---------- one call of the reader ----------

  /** The outcome of a call: a batch, the record read too far, the time remembered, what is left. */
  datatype Gathered =
    | Gathered(batch: seq<Message>, lookahead: Option<Message>, time: int, left: seq<Message>)
    | Failed(error: Error)

  /** The loop, with batch collected so far and time as the remembered transact time, 0 for none. */
  function Gather(batch: seq<Message>, time: int, records: seq<Message>, end: End): Gathered
    decreases |records|
  {
    if records == [] then
      match end
      case Clean => Gathered(batch, None, time, [])
      case Broken(e) => Failed(e)
    else
      var m := records[0];
      if time == 0 then Gather(batch + [m], TimeOf(m), records[1..], end)
      else if TimeOf(m) == time then Gather(batch + [m], time, records[1..], end)
      else if TimeOf(m) > time then Gathered(batch, Some(m), TimeOf(m), records[1..])
      else Failed(TimeWentBack)
  }

  /** A call as a function of the reader's state. */
  function Call(lookahead: Option<Message>, time: int, records: seq<Message>, end: End): Gathered {
    match lookahead
    case Some(m) => Gather([m], TimeOf(m), records, end)
    case None => Gather([], time, records, end)
  }

  class MessageLogReader {
    var rest: Bytes                       // the bytes of the file not yet read
    var currentTransactTime: int
    var outputBuffer: Option<Message>

    constructor (file: Bytes)
      ensures rest == file && currentTransactTime == 0 && outputBuffer == None
    {
      rest, currentTransactTime, outputBuffer := file, 0, None;
    }

    /** What calls from here on will return. */
    ghost function Calls(): Result<seq<Batch>>
      reads this
    {
      var c := ReadAll(rest);
      AllCalls(outputBuffer, currentTransactTime, c.records, c.end)
    }

    /** How many records are still to come, the one read too far included. */
    ghost function Remaining(): nat
      reads this
    {
      |ReadAll(rest).records| + if outputBuffer.Some? then 1 else 0
    }

    /** Read one record, or nothing where no length is left. */
    method ReadRecord() returns (r: Result<Option<Message>>)
      modifies this`rest
      ensures var c := ReadAll(old(rest));
        if c.records != [] then r == Ok(Some(c.records[0])) && ReadAll(rest) == Contents(c.records[1..], c.end)
        else match c.end
          case Clean => r == Ok(None) && ReadAll(rest) == c
          case Broken(e) => r == Err(e)
      ensures |rest| < |old(rest)| || rest == []
    {
      if |rest| < 4 {
        rest := [];
        return Ok(None);
      }
      var len := Length(rest);
      if |rest| < 4 + len {
        rest := [];
        return Err(TruncatedRecord);
      }
      var msg := rest[4..4 + len];
      rest := rest[4 + len..];
      var m :- Deserialise(msg);
      return Ok(Some(m));
    }

    /** The first record, which a replay uses for its configuration. */
    method First() returns (r: Result<Option<Message>>)
      modifies this`rest
      ensures var c := ReadAll(old(rest));
        if c.records != [] then r == Ok(Some(c.records[0])) && ReadAll(rest) == Contents(c.records[1..], c.end)
        else match c.end
          case Clean => r == Ok(None) && ReadAll(rest) == c
          case Broken(e) => r == Err(e)
    {
      r := ReadRecord();
    }

    /** The next records of one transact time. A record of a later time is kept for the next call. */
    method NextBatch() returns (r: Result<seq<Message>>)
      modifies this
      ensures var c := ReadAll(old(rest));
        match Call(old(outputBuffer), old(currentTransactTime), c.records, c.end)
        case Gathered(batch, lookahead, time, left) =>
          && r == Ok(batch) && outputBuffer == lookahead && currentTransactTime == time
          && ReadAll(rest) == Contents(left, c.end)
        case Failed(e) => r == Err(e)
      ensures match r
        case Err(e) => old(Calls()) == Err(e)
        case Ok(batch) =>
          && (batch == [] ==> old(Calls()) == Ok([]))
          && (batch != [] ==> Remaining() < old(Remaining()) && old(Calls()) == match Calls()
                case Ok(batches) => Ok([batch] + batches)
                case Err(e) => Err(e))
    {
      CallShrinks(outputBuffer, currentTransactTime, ReadAll(rest).records, ReadAll(rest).end);
      var output: seq<Message> := [];
      ghost var c := ReadAll(rest);
      ghost var goal := Call(outputBuffer, currentTransactTime, c.records, c.end);
      if outputBuffer.Some? {
        output := [outputBuffer.value];
        currentTransactTime := TimeOf(outputBuffer.value);
        outputBuffer := None;
      }
      var more := true;
      while more
        invariant outputBuffer == None
        invariant more ==> Gather(output, currentTransactTime, ReadAll(rest).records, c.end) == goal
        invariant ReadAll(rest).end == c.end
        invariant !more ==> goal == Gathered(output, None, currentTransactTime, []) && ReadAll(rest).records == []
        decreases more, |ReadAll(rest).records|
      {
        var record :- ReadRecord();
        match record {
          case None =>
            more := false;
          case Some(m) =>
            if currentTransactTime == 0 {
              output := output + [m];
              currentTransactTime := TimeOf(m);
            } else if TimeOf(m) == currentTransactTime {
              output := output + [m];
            } else if TimeOf(m) > currentTransactTime {
              outputBuffer := Some(m);
              currentTransactTime := TimeOf(m);
              return Ok(output);
            } else {
              return Err(TimeWentBack);
            }
        }
      }
      return Ok(output);
    }
  }

  // ---------- all calls together ----------

  /** Call after call, until an empty batch or an error. */
  function AllCalls(lookahead: Option<Message>, time: int, records: seq<Message>, end: End): Result<seq<Batch>>
    decreases |records| + if lookahead.Some? then 1 else 0
  {
    match Call(lookahead, time, records, end)
    case Failed(e) => Err(e)
    case Gathered(batch, next, t, left) =>
      if batch == [] then Ok([])
      else
        CallShrinks(lookahead, time, records, end);
        var later :- AllCalls(next, t, left, end);
        Ok([batch] + later)
  }

  /** Each nonempty batch leaves fewer records, the one read too far included. */
  lemma {:induction false} GatherShrinks(batch: seq<Message>, time: int, records: seq<Message>, end: End)
    ensures match Gather(batch, time, records, end)
      case Failed(_) => true
      case Gathered(out, next, _, left) =>
        |out| + |left| + (if next.Some? then 1 else 0) == |batch| + |records| && |out| >= |batch|
    decreases |records|
  {
    if records != [] {
      var m := records[0];
      if time == 0 || TimeOf(m) == time {
        GatherShrinks(batch + [m], TimeOf(m), records[1..], end);
      }
    }
  }

  lemma CallShrinks(lookahead: Option<Message>, time: int, records: seq<Message>, end: End)
    ensures match Call(lookahead, time, records, end)
      case Failed(_) => true
      case Gathered(out, next, _, left) =>
        |out| + |left| + (if next.Some? then 1 else 0) == |records| + if lookahead.Some? then 1 else 0
  {
    match lookahead {
      case Some(m) => GatherShrinks([m], TimeOf(m), records, end);
      case None => GatherShrinks([], time, records, end);
    }
  }

  /** Time 0 is the reader's mark for "no time yet": no other time may follow it. */
  predicate NoTimeAfterZero(log: seq<Message>) {
    forall i :: 1 <= i < |log| && TimeOf(log[i - 1]) == 0 ==> TimeOf(log[i]) == 0
  }

  lemma NoTimeAfterZeroSplit(a: seq<Message>, b: seq<Message>)
    requires NoTimeAfterZero(a + b)
    ensures NoTimeAfterZero(b)
  {
    forall i | 1 <= i < |b| && TimeOf(b[i - 1]) == 0 ensures TimeOf(b[i]) == 0 {
      assert (a + b)[|a| + i - 1] == b[i - 1] && (a + b)[|a| + i] == b[i];
    }
  }

  /** From the middle of a call on: the batch being collected and everything after it, grouped. */
  lemma {:induction false} CallsGroup(batch: Batch, records: seq<Message>)
    requires OneTime(batch) && NoTimeAfterZero(batch + records)
    ensures match Gather(batch, BatchTime(batch), records, Clean)
      case Failed(e) => e == TimeWentBack && !NondecreasingTimes(batch + records)
      case Gathered(out, next, t, left) =>
        && out != []
        && (AllCalls(next, t, left, Clean).Ok? <==> NondecreasingTimes(batch + records))
        && (AllCalls(next, t, left, Clean).Ok? ==>
              [out] + AllCalls(next, t, left, Clean).value == GroupByTime(batch + records))
        && (AllCalls(next, t, left, Clean).Err? ==> AllCalls(next, t, left, Clean).error == TimeWentBack)
    decreases |records|
  {
    var all := batch + records;
    if records == [] {
      assert all == batch && batch + [] == batch;
      GroupPrepend(batch, []);
      UniformIsNondecreasing(batch);
    } else {
      var m, n := records[0], |batch|;
      assert all[n - 1] == batch[n - 1] && all[n] == m && batch[n - 1] in batch;
      if TimeOf(m) == BatchTime(batch) {
        assert batch + [m] + records[1..] == all;
        CallsGroup(batch + [m], records[1..]);
      } else if TimeOf(m) > BatchTime(batch) {
        assert [m] + records[1..] == records;
        NoTimeAfterZeroSplit(batch, records);
        CallsGroup([m], records[1..]);
        GroupPrepend(batch, records);
        NondecreasingSplit(batch, records);
        UniformIsNondecreasing(batch);
      }
    }
  }

  lemma UniformIsNondecreasing(batch: Batch)
    requires OneTime(batch)
    ensures NondecreasingTimes(batch)
  {
    forall i | 1 <= i < |batch| ensures TimeOf(batch[i - 1]) <= TimeOf(batch[i]) {
      assert batch[i - 1] in batch && batch[i] in batch;
    }
  }

  lemma NondecreasingSplit(batch: Batch, records: seq<Message>)
    requires OneTime(batch) && records != [] && TimeOf(records[0]) > BatchTime(batch)
    ensures NondecreasingTimes(batch + records) <==> NondecreasingTimes(records)
  {
    var all, n := batch + records, |batch|;
    if NondecreasingTimes(all) {
      forall i | 1 <= i < |records| ensures TimeOf(records[i - 1]) <= TimeOf(records[i]) {
        assert all[n + i - 1] == records[i - 1] && all[n + i] == records[i];
      }
    }
    if NondecreasingTimes(records) {
      UniformIsNondecreasing(batch);
      forall i | 1 <= i < |all| ensures TimeOf(all[i - 1]) <= TimeOf(all[i]) {
        if i < n {
          assert all[i - 1] == batch[i - 1] && all[i] == batch[i];
        } else if i == n {
          assert all[i - 1] in batch && all[i] == records[0];
        } else {
          assert all[i - 1] == records[i - n - 1] && all[i] == records[i - n];
        }
      }
    }
  }

  /** If no other time follows time 0, the batches of a reader are the log grouped by time, and some call
      fails exactly when a time decreases. */
  lemma BatchingIsFaithful(log: seq<Message>)
    requires NoTimeAfterZero(log)
    ensures AllCalls(None, 0, log, Clean) ==
      if NondecreasingTimes(log) then Ok(GroupByTime(log)) else Err(TimeWentBack)
  {
    if log != [] {
      assert [log[0]] + log[1..] == log;
      assert [] + [log[0]] == [log[0]];
      CallsGroup([log[0]], log[1..]);
      assert Call(None, 0, log, Clean) == Gather([log[0]], TimeOf(log[0]), log[1..], Clean);
    }
  }

  // ---------- time 0 ----------

  /** A call keeps what it has collected. */
  lemma {:induction false} GatherExtends(batch: seq<Message>, time: int, records: seq<Message>, end: End)
    ensures match Gather(batch, time, records, end)
      case Failed(_) => true
      case Gathered(out, _, _, _) => batch <= out
    decreases |records|
  {
    if records != [] {
      var m := records[0];
      if time == 0 || TimeOf(m) == time { GatherExtends(batch + [m], TimeOf(m), records[1..], end); }
    }
  }

  predicate AllOneTime(batches: seq<Batch>) {
    forall b :: b in batches ==> OneTime(b)
  }

  /** A batch with a record of time 0 and a record after it that is swallowed has two times. */
  lemma {:induction false} OneTimeCalls(batch: Batch, records: seq<Message>)
    requires OneTime(batch)
    requires match Gather(batch, BatchTime(batch), records, Clean)
      case Failed(_) => false
      case Gathered(out, next, t, left) =>
        && out != [] && OneTime(out)
        && AllCalls(next, t, left, Clean).Ok? && AllOneTime(AllCalls(next, t, left, Clean).value)
    ensures NoTimeAfterZero(batch + records)
    decreases |records|
  {
    var all, n, time := batch + records, |batch|, BatchTime(batch);
    if records == [] {
      assert all == batch;
      forall i | 1 <= i < n && TimeOf(batch[i - 1]) == 0 ensures TimeOf(batch[i]) == 0 {
        assert batch[i - 1] in batch && batch[i] in batch;
      }
    } else {
      var m := records[0];
      if time == 0 || TimeOf(m) == time {
        OneTimeExtends(batch, m, records[1..]);
        assert batch + [m] + records[1..] == all;
        OneTimeCalls(batch + [m], records[1..]);
      } else {
        assert [m] + records[1..] == records;
        LaterOneTime(m, records[1..]);
        OneTimeCalls([m], records[1..]);
        ZeroFreeInFront(batch, records);
      }
    }
  }

  lemma OneTimeExtends(batch: Batch, m: Message, later: seq<Message>)
    requires OneTime(batch)
    requires var g := Gather(batch + [m], TimeOf(m), later, Clean); g.Gathered? && g.batch != [] && OneTime(g.batch)
    ensures TimeOf(m) == BatchTime(batch) && OneTime(batch + [m])
  {
    var out := Gather(batch + [m], TimeOf(m), later, Clean).batch;
    GatherExtends(batch + [m], TimeOf(m), later, Clean);
    assert out[|batch|] == m && out[0] == batch[0];
    assert m in out;
  }

  /** The next call starts with the record read too far. */
  lemma LaterOneTime(m: Message, left: seq<Message>)
    requires AllCalls(Some(m), TimeOf(m), left, Clean).Ok?
    requires AllOneTime(AllCalls(Some(m), TimeOf(m), left, Clean).value)
    ensures var g := Gather([m], TimeOf(m), left, Clean);
      && g.Gathered? && g.batch != [] && OneTime(g.batch)
      && AllCalls(g.lookahead, g.time, g.left, Clean).Ok?
      && AllOneTime(AllCalls(g.lookahead, g.time, g.left, Clean).value)
  {
    var g, all := Gather([m], TimeOf(m), left, Clean), AllCalls(Some(m), TimeOf(m), left, Clean);
    GatherExtends([m], TimeOf(m), left, Clean);
    var later := AllCalls(g.lookahead, g.time, g.left, Clean);
    assert all.value == [g.batch] + later.value;
    assert all.value[0] in all.value;
    forall b | b in later.value ensures OneTime(b) { assert b in all.value; }
  }

  lemma ZeroFreeInFront(batch: Batch, records: seq<Message>)
    requires OneTime(batch) && BatchTime(batch) != 0 && NoTimeAfterZero(records)
    ensures NoTimeAfterZero(batch + records)
  {
    var all, n := batch + records, |batch|;
    forall j | 0 <= j < n ensures TimeOf(all[j]) != 0 {
      assert all[j] == batch[j] && batch[j] in batch;
    }
    forall i | 1 <= i < |all| && TimeOf(all[i - 1]) == 0 ensures TimeOf(all[i]) == 0 {
      assert i > n && all[i - 1] == records[i - n - 1] && all[i] == records[i - n];
    }
  }

  /** For any log: the batches of a reader are the log grouped by time exactly when the times never
      decrease and no other time follows time 0. */
  lemma FaithfulExactlyWhen(log: seq<Message>)
    ensures AllCalls(None, 0, log, Clean) == Ok(GroupByTime(log))
      <==> NondecreasingTimes(log) && NoTimeAfterZero(log)
  {
    var all := AllCalls(None, 0, log, Clean);
    if NoTimeAfterZero(log) { BatchingIsFaithful(log); }
    if all == Ok(GroupByTime(log)) && log != [] {
      GroupsAreTheLog(log);
      assert [log[0]] + log[1..] == log && [] + [log[0]] == [log[0]];
      assert Call(None, 0, log, Clean) == Call(Some(log[0]), TimeOf(log[0]), log[1..], Clean);
      assert AllCalls(Some(log[0]), TimeOf(log[0]), log[1..], Clean) == all;
      LaterOneTime(log[0], log[1..]);
      OneTimeCalls([log[0]], log[1..]);
    }
  }

  /** For example, a record of time 0 swallows a later one. */
  lemma TimeZeroIsSwallowed(a: Message, b: Message)
    requires TimeOf(a) == 0 && TimeOf(b) > 0
    ensures Call(None, 0, [a, b], Clean) == Gathered([a, b], None, TimeOf(b), [])
    ensures GroupByTime([a, b]) == [[a], [b]]
  {
    assert [a, b][1..] == [b] && [b][1..] == [];
    assert [] + [a] == [a] && [a] + [b] == [a, b];
    assert Gather([a, b], TimeOf(b), [], Clean) == Gathered([a, b], None, TimeOf(b), []);
    assert Gather([a], 0, [b], Clean) == Gather([a, b], TimeOf(b), [], Clean);
    assert GroupByTime([b]) == [[b]];
  }
}
