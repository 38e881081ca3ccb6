/** A recording from end to end: the bytes a live server wrote, read back and replayed by a new one. */
module Recording {
  import opened Results
  import opened LittleEndian
  import opened Protocol
  import opened Batching
  import opened MessageLog
  import opened Engine
  import opened Invariants
  import opened Replay
  import opened SnakeServer
  import opened Writability
  import opened Layout

  lemma NewGameIsGood(cfg: Config, seed: nat)
    ensures GoodGame(cfg, NewGame(seed))
  {
  }

  // ---------- files ----------

  lemma FittingReadsBack(log: seq<Message>)
    requires forall m :: m in log ==> Carriable(m)
    ensures ReadAll(LogBytes(log)) == Contents(log, Clean)
  {
    LogReadsBack(log);
  }

  /** Different logs have different bytes. */
  lemma LogBytesInjective(a: seq<Message>, b: seq<Message>)
    requires AllFit(a) && AllFit(b)
    ensures LogBytes(a) == LogBytes(b) <==> a == b
  {
    FittingReadsBack(a);
    FittingReadsBack(b);
  }

  /** The calls of a reader over such a log, as polls of the engine. */
  lemma ReaderFeeds(log: seq<Message>)
    requires AllFit(log) && NondecreasingTimes(log)
    ensures var calls := AllCalls(None, 0, log, Clean);
      calls.Ok? && PollsOf(calls.value) == ReplayPolls(log)
  {
    assert NoTimeAfterZero(log);
    BatchingIsFaithful(log);
    GroupsAreTheLog(log);
    PollsOfOneTime(GroupByTime(log));
  }

  lemma SeedIsNatural(buf: Bytes)
    ensures Decode(buf).Ok? && Decode(buf).value.ServerConfig? ==> Decode(buf).value.seed >= 0
  {
  }

  /** The seed that a file gives to a replay: that of its first record, or a spare one if it has none. */
  function Opening(file: Bytes, spare: nat): Result<nat> {
    var c := ReadAll(file);
    if c.records == [] then
      match c.end
      case Clean => Ok(spare)
      case Broken(e) => Err(e)
    else if c.records[0].ServerConfig? then
      SeedIsNatural(file[4..4 + Framing.Length(file)]);
      Ok(c.records[0].seed)
    else Err(NotAConfiguration)
  }

  /** What the calls of a reader return after the first record. */
  function CallsAfterFirst(file: Bytes): Result<seq<Batch>> {
    var c := ReadAll(file);
    AllCalls(None, 0, if c.records == [] then [] else c.records[1..], c.end)
  }

  /** Open any file for a replay. */
  method OpenRecording(file: Bytes, spare: nat) returns (r: Result<nat>, reader: MessageLogReader)
    ensures fresh(reader) && r == Opening(file, spare)
    ensures r.Ok? ==> reader.Calls() == CallsAfterFirst(file)
  {
    reader := new MessageLogReader(file);
    var first := reader.First();
    if first.Err? {
      return Err(first.error), reader;
    }
    match first.value {
      case None =>
        r := Ok(spare);
      case Some(m) =>
        if m.ServerConfig? {
          SeedIsNatural(file[4..4 + Framing.Length(file)]);
          r := Ok(m.seed);
        } else {
          r := Err(NotAConfiguration);
        }
    }
  }

  // ---------- servers ----------

  /** A server that has written its own configuration record. */
  method StartServer(cfg: Config, seed: nat, now: int) returns (server: SnakeServer)
    requires Paced(cfg)
    ensures fresh(server) && fresh(server.msgLogWriter) && fresh(server.occupiedCellsBodies)
    ensures server.Valid() && server.cfg == cfg && server.State() == NewGame(seed)
    ensures server.log == Number([ConfigRecord(cfg, seed, now)], 0)
  {
    server := new SnakeServer(cfg, seed, now);
    ghost var records := Number([ConfigRecord(cfg, seed, now)], 0);
    server.RecordServerConfig();
    assert [] + records == records;
  }

  /** The log of a server that has been fed these polls from its start on. */
  ghost function ServerLog(cfg: Config, seed: nat, now: int, polls: seq<Poll>): seq<Message> {
    Number([ConfigRecord(cfg, seed, now)], 0) + LogOf(cfg, seed, polls)
  }

  lemma HeadInFront(head: Message, rest: seq<Message>)
    requires head.hdr.sequence == 0 && forall i :: 0 <= i < |rest| ==> rest[i].hdr.sequence == 1 + i
    requires NondecreasingTimes(rest) && (rest == [] || TimeOf(head) <= TimeOf(rest[0]))
    ensures var log := [head] + rest;
      NondecreasingTimes(log) && forall i :: 0 <= i < |log| ==> log[i].hdr.sequence == i
  {
    var log := [head] + rest;
    forall i | 1 <= i < |log| ensures TimeOf(log[i - 1]) <= TimeOf(log[i]) {
      assert log[i] == rest[i - 1] && (i > 1 ==> log[i - 1] == rest[i - 2]);
    }
  }

  lemma FirstLogTime(cfg: Config, seed: nat, polls: seq<Poll>)
    requires Ordered(polls) && LogOf(cfg, seed, polls) != []
    ensures polls != [] && polls[0].at <= TimeOf(LogOf(cfg, seed, polls)[0])
  {
    var run := Run(cfg, NewGame(seed), polls).1;
    RunTimes(cfg, NewGame(seed), polls);
    FirstNumbered(run, LogOf(cfg, seed, polls));
    assert run[0] in run;
  }

  lemma FirstNumbered(run: seq<Message>, log: seq<Message>)
    requires log == Number(run, 1) && log != []
    ensures run != [] && TimeOf(log[0]) == TimeOf(run[0])
  {
    NumberAt(run, 1, 0);
  }

  /** The whole log of a server that starts no later than its first poll: record i has number i, the
      configuration included, and the times never decrease. */
  lemma ServerLogIsGapFree(cfg: Config, seed: nat, now: int, polls: seq<Poll>)
    requires Ordered(polls) && (polls == [] || now <= polls[0].at)
    ensures var log := ServerLog(cfg, seed, now, polls);
      NondecreasingTimes(log) && forall i :: 0 <= i < |log| ==> log[i].hdr.sequence == i
  {
    var head, rest := ConfigRecord(cfg, seed, now), LogOf(cfg, seed, polls);
    assert Number([head], 0) == [head];
    LogIsGapFree(cfg, seed, polls);
    if rest != [] { FirstLogTime(cfg, seed, polls); }
    HeadInFront(head, rest);
  }

  /** Replay any file, as the program does when it is given one: the first record gives the seed, the
      batches of the others are run. A file that cannot be read to its end is an error, before the server
      is there or while it runs. */
  method ReplayFile(cfg: Config, now: int, file: Bytes, spare: nat) returns (r: Result<nat>, server: SnakeServer?)
    requires Fair(cfg) && Paced(cfg)
    ensures Opening(file, spare).Err? ==> r == Err(Opening(file, spare).error) && server == null
    ensures Opening(file, spare).Ok? ==> server != null && server.Valid() && server.cfg == cfg
    ensures Opening(file, spare).Ok? ==>
      match CallsAfterFirst(file)
      case Err(e) => r == Err(e)
      case Ok(batches) =>
        r == Ok(|batches|) && server.log == ServerLog(cfg, Opening(file, spare).value, now, PollsOf(batches))
  {
    var seed, reader := OpenRecording(file, spare);
    if seed.Err? {
      return seed, null;
    }
    NewGameIsGood(cfg, seed.value);
    var started := StartServer(cfg, seed.value, now);
    r := started.RunReplay(reader);
    server := started;
  }

  /** The first record of a server's log file, in bytes: the settings, the seed, six pieces of food, odds of one
      in three and of one in eighty, and 1.5 as a float. */
  lemma FirstRecordLayout(cfg: Config, seed: nat, now: int, polls: seq<Poll>, file: Bytes)
    requires file == LogBytes(ServerLog(cfg, seed, now, polls)) && Encodable(ConfigRecord(cfg, seed, now))
    ensures |file| >= 80 && Field(file, 0, FourBytes(76))
    ensures LaidOut(file[4..80], ServerConfig(Header(0, -1, 0, now), cfg.width, cfg.height, seed, 6, 3, 80,
      [0, 0, 192, 63], cfg.movementFrequencyMs, cfg.boostedMovementFrequencyMs, cfg.boostDurationMs))
  {
    var head := ConfigRecord(cfg, seed, now);
    assert Number([head], 0) == [head];
    EncodedConfigSize(head);
    FirstRecordFile(head, LogOf(cfg, seed, polls), Encode(head), file);
    EncodingIsLayout(Encode(head), head);
  }

  lemma FirstRecordFile(head: Message, rest: seq<Message>, b: Bytes, file: Bytes)
    requires b == Encode(head) && |b| == 76 && file == LogBytes([head] + rest)
    ensures |file| >= 80 && Field(file, 0, FourBytes(76)) && file[4..80] == b
  {
    assert ([head] + rest)[0] == head && ([head] + rest)[1..] == rest;
    RecordInFile(b, LogBytes(rest));
  }

  lemma RecordInFile(b: Bytes, rest: Bytes)
    requires |b| == 76
    ensures var file := LogRecord(b) + rest;
      |file| >= 80 && Field(file, 0, FourBytes(76)) && file[4..80] == b
  {
    Int32Is(76);
    assert b[..|b| % TWO_32] == b;
    assert LogRecord(b) == FourBytes(76) + b;
  }

  // ---------- the circle ----------

  const CONFIG_RECORD_SIZE: nat := 80

  /** The first record of every log takes 80 bytes. */
  lemma FirstRecordSize(head: Message, log: seq<Message>)
    requires head.ServerConfig? && |head.speedBoostRatio| == 4
    ensures |LogBytes([head] + log)| >= CONFIG_RECORD_SIZE
    ensures LogBytes([head] + log)[CONFIG_RECORD_SIZE..] == LogBytes(log)
  {
    ConfigSize(head);
    LogBytesConcat([head], log);
    assert LogBytes([head]) == LogRecord(Encode(head)) + [];
    DropFront(LogRecord(Encode(head)), LogBytes(log));
  }

  lemma ConfigSize(head: Message)
    requires head.ServerConfig? && |head.speedBoostRatio| == 4
    ensures |LogRecord(Encode(head))| == CONFIG_RECORD_SIZE
  {
    EncodedConfigSize(head);
    RecordSize(Encode(head));
  }

  lemma EncodedConfigSize(head: Message)
    requires head.ServerConfig? && |head.speedBoostRatio| == 4
    ensures |Encode(head)| == SERVER_CONFIG_PACKED_SIZE
  {
    FixedSize(head);
  }

  lemma RecordSize(b: Bytes)
    requires |b| < TWO_32
    ensures |LogRecord(b)| == 4 + |b|
  {
  }

  lemma DropFront(a: Bytes, b: Bytes)
    ensures (a + b)[|a|..] == b
  {
  }

  lemma FileOpens(file: Bytes, head: Message, log: seq<Message>, spare: nat)
    requires head.ServerConfig? && Carriable(head) && AllFit(log) && NondecreasingTimes(log)
    requires file == LogBytes([head] + log)
    ensures head.seed >= 0 && Opening(file, spare) == Ok(head.seed)
    ensures CallsAfterFirst(file).Ok? && PollsOf(CallsAfterFirst(file).value) == ReplayPolls(log)
  {
    FittingReadsBack([head] + log);
    assert ([head] + log)[0] == head && ([head] + log)[1..] == log;
    ReaderFeeds(log);
  }

  /** The part of the log of a server after its configuration. */
  lemma ServerLogRest(cfg: Config, seed: nat, now: int, polls: seq<Poll>)
    ensures var log := ServerLog(cfg, seed, now, polls);
      && log != [] && log[1..] == LogOf(cfg, seed, polls)
      && |LogBytes(log)| >= CONFIG_RECORD_SIZE
      && LogBytes(log)[CONFIG_RECORD_SIZE..] == LogBytes(LogOf(cfg, seed, polls))
  {
    var head := ConfigRecord(cfg, seed, now);
    assert Number([head], 0) == [head];
    FirstRecordSize(head, LogOf(cfg, seed, polls));
  }

  /** The log of a live run and the log of its replay: as records they are the same under the condition,
      and then so are their bytes. Where the records of both fit, the bytes are the same only then. */
  lemma SameBytesExactlyWhen(cfg: Config, seed: nat, polls: seq<Poll>)
    requires Fair(cfg) && Ordered(polls)
    ensures var live := LogOf(cfg, seed, polls);
      var again := LogOf(cfg, seed, ReplayPolls(live));
      && (again == live <==> Injected(polls) == 0 && Closed(live))
      && (Injected(polls) == 0 && Closed(live) ==> LogBytes(again) == LogBytes(live))
      && (AllFit(live) && AllFit(again) ==>
            (LogBytes(again) == LogBytes(live) <==> Injected(polls) == 0 && Closed(live)))
  {
    var live := LogOf(cfg, seed, polls);
    var again := LogOf(cfg, seed, ReplayPolls(live));
    ReplayReproducesExactlyWhen(cfg, seed, polls);
    if AllFit(live) && AllFit(again) { LogBytesInjective(again, live); }
  }

  /** So the bytes are the same exactly under the condition as long as there is room for the ticks that do
      something. */
  lemma SameBytesInRoom(cfg: Config, seed: nat, polls: seq<Poll>)
    requires Fair(cfg) && Paced(cfg) && Ordered(polls) && Receivable(polls)
    requires Roomy(cfg, Loud(cfg, NewGame(seed), polls))
    ensures var live := LogOf(cfg, seed, polls);
      LogBytes(LogOf(cfg, seed, ReplayPolls(live))) == LogBytes(live) <==> Injected(polls) == 0 && Closed(live)
  {
    LoudLogsFit(cfg, seed, polls);
    SameBytesExactlyWhen(cfg, seed, polls);
  }

  /** Replaying the file of a live run whose records fit. The replay's log is the live one if and only if
      the clients sent nothing of the server's own output types and no record has the time of a GAME_STATE
      before it. Then the file that the replay writes has the same bytes after its first record, and only
      then if the replay's records fit. */
  method ReplayRecording(cfg: Config, now: int, file: Bytes, ghost head: Message, ghost polls: seq<Poll>)
    returns (r: Result<nat>, server: SnakeServer?)
    requires Fair(cfg) && Paced(cfg)
    requires head.ServerConfig? && Carriable(head) && head.seed >= 0
    requires Ordered(polls) && AllFit(LogOf(cfg, head.seed, polls))
    requires file == LogBytes([head] + LogOf(cfg, head.seed, polls))
    ensures r.Ok? && server != null && server.Valid() && server.log != []
    ensures server.log[1..] == LogOf(cfg, head.seed, ReplayPolls(LogOf(cfg, head.seed, polls)))
    ensures server.log[1..] == LogOf(cfg, head.seed, polls)
      <==> Injected(polls) == 0 && Closed(LogOf(cfg, head.seed, polls))
    ensures |file| >= CONFIG_RECORD_SIZE && |server.msgLogWriter.out| >= CONFIG_RECORD_SIZE
    ensures Injected(polls) == 0 && Closed(LogOf(cfg, head.seed, polls)) ==>
      server.msgLogWriter.out[CONFIG_RECORD_SIZE..] == file[CONFIG_RECORD_SIZE..]
    ensures AllFit(server.log[1..]) ==>
      (server.msgLogWriter.out[CONFIG_RECORD_SIZE..] == file[CONFIG_RECORD_SIZE..]
       <==> Injected(polls) == 0 && Closed(LogOf(cfg, head.seed, polls)))
  {
    ghost var live := LogOf(cfg, head.seed, polls);
    LogIsGapFree(cfg, head.seed, polls);
    FileOpens(file, head, live, 0);
    FirstRecordSize(head, live);
    r, server := ReplayFile(cfg, now, file, 0);
    ServerLogRest(cfg, head.seed, now, ReplayPolls(live));
    SameBytesExactlyWhen(cfg, head.seed, polls);
  }

  /** A live server and what it has written. */
  method RunServer(cfg: Config, seed: nat, now: int, polls: seq<Poll>) returns (server: SnakeServer)
    requires Fair(cfg) && Paced(cfg)
    ensures server.Valid() && server.log == ServerLog(cfg, seed, now, polls)
  {
    server := StartServer(cfg, seed, now);
    NewGameIsGood(cfg, seed);
    server.RunPolls(polls);
  }

  /** The whole circle: a live server, its file, and a second server that replays that file into another.
      If the live records fit, the logs after the first record are the same exactly under the condition, and
      with them the bytes; if the replayed records fit as well, the bytes are the same only then. */
  method RecordAndReplay(cfg: Config, seed: nat, now: int, later: int, polls: seq<Poll>)
    returns (live: SnakeServer, r: Result<nat>, replayed: SnakeServer?)
    requires Fair(cfg) && Paced(cfg) && Carriable(ConfigRecord(cfg, seed, now))
    requires Ordered(polls) && AllFit(LogOf(cfg, seed, polls))
    ensures live.Valid() && live.log == ServerLog(cfg, seed, now, polls)
    ensures r.Ok? && replayed != null && replayed.Valid()
    ensures live.log != [] && replayed.log != []
    ensures replayed.log[1..] == live.log[1..] <==> Injected(polls) == 0 && Closed(live.log)
    ensures |live.msgLogWriter.out| >= CONFIG_RECORD_SIZE && |replayed.msgLogWriter.out| >= CONFIG_RECORD_SIZE
    ensures Injected(polls) == 0 && Closed(live.log) ==>
      replayed.msgLogWriter.out[CONFIG_RECORD_SIZE..] == live.msgLogWriter.out[CONFIG_RECORD_SIZE..]
    ensures AllFit(replayed.log[1..]) ==>
      (replayed.msgLogWriter.out[CONFIG_RECORD_SIZE..] == live.msgLogWriter.out[CONFIG_RECORD_SIZE..]
       <==> Injected(polls) == 0 && Closed(live.log))
    ensures Receivable(polls) && Roomy(cfg, Loud(cfg, NewGame(seed), polls)) ==> AllFit(replayed.log[1..])
  {
    live := RunServer(cfg, seed, now, polls);
    ghost var head := ConfigRecord(cfg, seed, now);
    assert Number([head], 0) == [head];
    ClosedAfterConfig(head, LogOf(cfg, seed, polls));
    r, replayed := ReplayRecording(cfg, later, live.msgLogWriter.out, head, polls);
    if Receivable(polls) && Roomy(cfg, Loud(cfg, NewGame(seed), polls)) { LoudLogsFit(cfg, seed, polls); }
  }

  /** The configuration record in front does not matter to whether a log is closed. */
  lemma ClosedAfterConfig(head: Message, log: seq<Message>)
    requires head.ServerConfig?
    ensures Closed([head] + log) <==> Closed(log)
  {
    var all := [head] + log;
    if Closed(all) { ClosedSplit([head], log); }
    if Closed(log) { ClosedConcat([head], log); }
  }
}
