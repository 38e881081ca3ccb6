# Verification of the multiplayer snake server and its bot

A Dafny model of a real-time multiplayer snake game: the server's engine, its message log and the
deterministic replay of that log, the wire protocol and its framing, and the path-finding bot. Code that
changes state is modelled by classes and loops; each method is tied to a function that says what it does,
and the properties are proved of those functions.

Check it with `dafny verify dfyconfig.toml`.

## What is modelled

| file | what it holds |
|---|---|
| `LittleEndian.dfy`, `Protocol.dfy`, `Serialiser.dfy`, `Acceptance.dfy` | the six messages, their bytes, the bounds-checked reader, the growing buffer, and which bytes are accepted |
| `Layout.dfy` | which bytes are on the wire, by offset and value |
| `Framing.dfy`, `Sockets.dfy` | length-prefixed frames, the client's and the server's rolling buffers, the server's connection maps and a poll over many connections |
| `Delivery.dfy`, `Polling.dfy` | what arrives of what was sent, in messages, in both directions; one poll of a live server |
| `Chains.dfy`, `Lives.dfy` | a snake's chain of nodes as a value and as linked objects; what a life of moves and growths does to it |
| `Tables.dfy`, `Engine.dfy` | the server's hash maps and the engine as a function of game, time and messages |
| `Collisions.dfy`, `Survivors.dfy`, `Orders.dfy` | what a collision check decides; who is left, and where; that iteration orders have no influence on it |
| `Clients.dfy`, `Keys.dfy`, `Attendance.dfy` | what clients' messages do: who plays, which way snakes turn, and both over whole runs |
| `Draws.dfy`, `Ticks.dfy` | what is drawn from the random source, when, and what comes of it |
| `Broadcasts.dfy` | what the GAME_STATEs in a log say |
| `Invariants.dfy`, `Chronicles.dfy` | what every reachable game satisfies, and what an onlooker notes of each snake during a run |
| `Batching.dfy`, `MessageLog.dfy` | the log's bytes, its reader and the grouping of records into batches |
| `Replay.dfy`, `Writability.dfy`, `Recording.dfy` | when a replay reproduces a log, as records and as bytes |
| `SnakeServer.dfy` | the engine as an object whose fields change, refining `Engine.dfy` |
| `Mazes.dfy`, `Steering.dfy`, `Pathfinder.dfy`, `Bot.dfy` | shortest paths, the search, the choice of a move, and a bot in a reachable game |
| `Fairness.dfy` | the assumption about the random source can be met |
| `Results.dfy`, `Arithmetic.dfy`, `Sequences.dfy` | outcomes, and facts about numbers and sequences |

The main results:

- **Replay.** A replayed log comes out identical exactly when no client sent a message of the server's own
  two output types and no record in the log has the time of a GAME_STATE before it
  (`ReplayReproducesExactlyWhen`). `RecordAndReplay` says the same of the two servers and their files, byte for
  byte after the first record, whenever the live records fit the fields they are written to; that different
  logs have different bytes also needs the replayed ones to fit. The repository promises it without conditions; `InjectionBreaksReplay` and
  `EqualTimesBreakReplay` are the two ways in which it fails. Ticks that are not logged do change the game,
  but the next tick absorbs what they did (`SilentAbsorbed`, `QuietTicksCanGo`).
- **Collisions.** The outcome of a check does not depend on the orders of the hash maps, neither in the check's
  own loop nor inside it, and a player survives exactly when its head is in the arena, on no body, and first in
  its cell.
- **Runs.** An onlooker who looks at the players after every message, every movement and every check notes
  where each head is seen and when it moves or grows. In every run these notes explain the snakes: a body
  follows its head's noted cells, and noted moves are no closer than the interval allows. All stay in the
  arena, and no snake that has moved is on its own body while it has fewer than five segments.
- **Clients.** After a run exactly those play who joined, were not disconnected since and were spared by every
  check since (`PlayersAreThoseWhoAttend`). Every move goes the way of the last key since the last move that
  does not point backwards (`MovesFollowKeys`).
- **Broadcasts.** Every GAME_STATE in a log shows the game after its tick, cell by cell and segment by segment,
  with the best score seen at any check so far and the name of a player who had it (`LogTells`).
- **Bytes.** A message's encoding is exactly the bytes that lie at the stated offsets (`EncodingIsLayout`).
  Encoding and decoding are inverse in both directions, every truncation is refused, and the way a stream is cut
  into chunks has no influence on the frames delivered. What a client sends reaches the engine as the same
  messages with the connection's identifier, whatever other connections do (`ClientPlays`), and what the server
  sends reaches the client unless a message is longer than 32768 bytes (`ClientHears`).
- **Bot.** The search leaves exact distances, within a bounded number of steps, and greedy descent from any
  reachable game arrives in exactly the number of moves the map shows.

Assumptions, stated as preconditions where they are used:

- The random source is any function from its state and a range to a number in the range and a next state.
  `Fair` says of it that refilling food ends; without that the server's own loop may not end.
- The arena is at least 12 by 12, so that the spawn range is not empty, and its area is below `INT_MAX`
  where the bot's distances need it.
- Iterating over a hash map visits its keys in insertion order. Collision checks are proved for every order, in
  every place where they iterate.
- `Paced`: boosted snakes are not slower than others.
- `AllFit`: every record of a log fits the fields it is written to and has a positive time. This follows from
  `Receivable` (what was received was read from frames, at positive times) and `Roomy` of the run without its
  quiet ticks: a broadcast with one player for every join, each grown in every tick, takes less than 2^31
  bytes, and the records can be numbered. For the recording kept with the tests (`tests/data/test_replay.bin`,
  a 40 by 40 arena with 171 joins and 40002 logged tick times) that broadcast has 54750616 bytes.

The repository's README describes newline-delimited JSON (`README.md:26`). The code exchanges
length-prefixed binary frames (`src/snake_client/NetworkClient.cpp:99`), and so does the model.

## Model

| member | source | states |
|---|---|---|
| LittleEndian.Int32RoundTrip | include/common/Protocol.h:161-187 | a 32-bit signed value written as little-endian bytes reads back as itself |
| LittleEndian.Uint32RoundTrip | include/common/Protocol.h:161-187 | so does an unsigned count or length |
| LittleEndian.Uint32Inverse | include/common/MessageLogReader.h:23 | four bytes read as a length and written again are the same bytes |
| LittleEndian.Int64RoundTrip | include/common/Protocol.h:161-187 | so does a 64-bit signed value |
| Protocol.RoundTrip | include/common/Protocol.h:211-406 | every message of all six types that the C++ types can hold is read back exactly |
| Protocol.TruncationRejected | include/common/Protocol.h:162-170 | every strict prefix of an encoding is refused |
| Protocol.TrailingBytes | include/common/Protocol.h:297-405 | bytes after the end are refused for the five fixed-size messages and ignored for GAME_STATE |
| Acceptance.AcceptedExactlyWhen | include/common/Protocol.h:291-406 | any bytes are decoded to a message if and only if they are its encoding, or for GAME_STATE start with it |
| Acceptance.RefusedExactlyWhen | include/common/Protocol.h:291-406 | any received frame: which of the three errors, or accepted; a fixed-size frame exactly if it has its size |
| Protocol.GameStateRoundTrip | include/common/Protocol.h:242-281 | the nested lists of a GAME_STATE are read back, and the reader stops exactly at its end |
| Protocol.GameStateLocal | include/common/Protocol.h:350-401 | reading a GAME_STATE never looks beyond its last player |
| Layout.EncodingIsLayout | include/common/Protocol.h:20-151 | bytes are a message's encoding if and only if type number, header fields, fixed fields, counts and list items are at their offsets, least significant byte first |
| Layout.DecodesExactlyWhen | include/common/Protocol.h:291-406 | bytes are decoded to a message if and only if they are laid out as that message, or for GAME_STATE start so |
| Layout.FrameLayout | src/snake_client/NetworkClient.cpp:61-66 | a frame is the length in four bytes, least significant first, and then the message |
| Serialiser.SerialiseHeader | include/common/Protocol.h:189-198 | the header's four fields, in order, in front of whatever follows |
| Serialiser.SerialiseGameState | include/common/Protocol.h:242-281 | the loops append exactly the encoding of the nested lists |
| Serialiser.Serialise | include/common/Protocol.h:211-289 | the appending writer produces the encoding of the message |
| Serialiser.ReadItems | include/common/Protocol.h:356-378 | a counted loop reads the items in order or stops at the first truncated one |
| Serialiser.ReadPlayers | include/common/Protocol.h:380-400 | the loop over players with the loop over segments inside does the same |
| Serialiser.DeserialiseHeader | include/common/Protocol.h:200-209 | the four fields in order, or the truncation |
| Serialiser.DeserialiseServerConfig | include/common/Protocol.h:336-348 | the ten fields in order, or the truncation |
| Serialiser.Deserialise | include/common/Protocol.h:291-406 | the moving cursor decodes the frame, or reports the first error |
| Serialiser.DeserialiseFrom | include/common/Protocol.h:408-412 | the server's overload changes the client id and nothing else |
| Framing.ParseResumes | src/snake_client/NetworkClient.cpp:94-117 | parsing what has arrived and then the rest is parsing everything at once |
| Framing.ChunkingIrrelevant | src/snake_client/NetworkClient.cpp:94-117 | for any bytes and any split into chunks, frames, leftover and refusal are the same |
| Framing.FramesArrive | src/snake_server/NetworkServer.cpp:212-217 | frames within the limit, encoded and cut in any way, arrive in order with nothing left over |
| Framing.ParseConserves | src/snake_server/NetworkServer.cpp:173-200 | delivered frames, encoded again, and the leftover are the received bytes |
| Framing.LeftoverBound | src/snake_server/NetworkServer.cpp:179-194 | an accepted leftover is shorter than four bytes more than the limit |
| Framing.RestIsSettled | src/snake_server/NetworkServer.cpp:179-198 | a call leaves nothing that another call would deliver |
| NetworkClient.NetworkClient.constructor | src/snake_client/NetworkClient.cpp:13 | the buffer starts empty |
| NetworkClient.NetworkClient.ParseReceivedPacket | src/snake_client/NetworkClient.cpp:94-117 | one chunk: the frames of buffer and chunk, the new buffer, or the refusal |
| NetworkClient.NetworkClient.ReceiveAll | src/snake_client/NetworkClient.cpp:77-92 | chunk after chunk delivers the frames of the whole stream, with a bounded buffer |
| NetworkServer.NetworkServer.constructor | src/snake_server/NetworkServer.cpp:14-23 | no connections, first identifier 1 |
| NetworkServer.NetworkServer.AcceptNewClient | src/snake_server/NetworkServer.cpp:133-136 | a new connection gets an identifier that was never handed out before; the two maps stay inverse |
| NetworkServer.NetworkServer.DisconnectClient | src/snake_server/NetworkServer.cpp:142-152 | removes exactly this connection from all three maps |
| NetworkServer.NetworkServer.DrainDisconnects | src/snake_server/NetworkServer.cpp:88-98 | reports every marked connected client once and no other, closes exactly those and erases exactly their buffers |
| NetworkServer.NetworkServer.PollMessages | src/snake_server/NetworkServer.cpp:68-86 | events of many connections in any order: each connection's own bytes are parsed, each frame comes with its connection's identifier, and exactly failed, ended or oversized connections are marked |
| Delivery.ServerTakesExactly | src/snake_server/NetworkServer.cpp:182-189 | no message of a client is refused for its size: only SERVER_CONFIGs and GAME_STATEs of more than 64 bytes are |
| Delivery.ClientIsServed | src/snake_server/NetworkServer.cpp:154-200 | joins, inputs and disconnects of a client, in any pieces over several polls: a poll delivers exactly the next of them, with the connection's identifier, and marks nothing |
| Delivery.ClientIsServedFully | src/snake_server/NetworkServer.cpp:154-200 | after the last byte all have been delivered and nothing waits |
| Delivery.ClientHears | src/snake_client/NetworkClient.cpp:77-117 | the client reads exactly what the server sent, or stops with an error if and only if some message is longer than 32768 bytes |
| Polling.PollMessages | src/snake_server/SnakeServer.cpp:116-127 | a live poll: each client's messages in order, then its disconnect if it is gone; fails if and only if some client's frame cannot be read |
| Polling.ClientPlays | src/snake_server/SnakeServer.cpp:116-127 | between any events of others, a tick is given exactly a client's next messages, and its connection stays open |
| NetworkServer.NetworkServer.ParseReceivedPacket | src/snake_server/NetworkServer.cpp:173-200 | frames and new buffer of one connection; an oversized length marks that connection only |
| Chains.MoveToAt | include/snake_server/Player.h:32-40 | after a step every node is where the one before it was |
| Chains.GrowAt | include/snake_server/Player.h:42-48 | growth adds one node, at the end, where the last node was before its last step |
| PlayerNodes.PlayerNode.constructor | include/snake_server/Player.h:26 | one node that has not moved |
| PlayerNodes.PlayerNode.Move | include/snake_server/Player.h:28-30 | the linked chain after a relative move |
| PlayerNodes.PlayerNode.MoveTo | include/snake_server/Player.h:32-40 | the linked nodes, updated in place, are the moved chain; no node is added |
| PlayerNodes.PlayerNode.Grow | include/snake_server/Player.h:42-48 | the linked nodes are the grown chain; only new objects are added |
| PlayerNodes.PlayerNode.GetSegments | include/snake_server/Player.h:50-55 | appends all positions from the head on |
| Lives.BodyFollowsHead | include/snake_server/Player.h:28-55 | each segment is where the head was, at moments that start at the latest and fall by 0 or 1 |
| Lives.SegmentsTouch | include/snake_server/Player.h:28-55 | consecutive segments are at most one step apart |
| Lives.ShortSnakesCannotBite | src/snake_server/SnakeServer.cpp:153-179 | a snake that never reverses and has moved is not on its own body with fewer than five segments |
| Lives.FiveCanBite | src/snake_server/SnakeServer.cpp:343-347 | five segments are enough: the bound is exact |
| Engine.RefillSettles | src/snake_server/SnakeServer.cpp:356-360 | however many turns are allowed, if they are enough the refilling loop ends in the same place |
| Engine.ReplaceFoodFills | src/snake_server/SnakeServer.cpp:356-366 | with a fair source there is enough food afterwards |
| Engine.Earliest | src/snake_server/SnakeServer.cpp:269-282 | the least of the players by next move time and then id |
| Engine.HeadsIn | src/snake_server/SnakeServer.cpp:314-322 | exactly the players whose head is in the cell |
| Clients.InputChanges | src/snake_server/SnakeServer.cpp:153-179 | a key of a known player becomes its next direction if and only if it is one of the four and not backwards; nothing else changes |
| Clients.WhoIsThere | src/snake_server/SnakeServer.cpp:41-62 | after some messages exactly those play who joined and did not leave since, or played before and did not leave |
| Clients.KeepsItsSnake | src/snake_server/SnakeServer.cpp:41-62 | a player that does not leave keeps its snake, score and timing; its next direction is steered by its own keys only |
| Clients.Newcomer | src/snake_server/SnakeServer.cpp:181-188 | a new player has the joiner's name and one segment in the cell drawn, faces up and first moves after a whole interval |
| Clients.MessagesTouchPlayers | src/snake_server/SnakeServer.cpp:181-188 | messages change players only, and draw two numbers for every join, a repeated one included |
| Clients.NewsExactlyWhen | src/snake_server/SnakeServer.cpp:39-71 | a tick has news if and only if somebody joins or disconnects or a snake is due |
| Clients.MessageRecords | src/snake_server/SnakeServer.cpp:41-44 | the record of each message is at its place, with the tick's time, and a join's is followed by the welcome |
| Keys.MovesFollowKeys | src/snake_server/SnakeServer.cpp:153-229 | in every tick of every run a due snake moves one cell in the direction of the last accepted key since its last move, keys of this tick included, or in its old direction; others stay |
| Attendance.PlayersAreThoseWhoAttend | src/snake_server/SnakeServer.cpp:32-75 | after a run exactly those play who joined, were not disconnected since, and were spared by every check since |
| Draws.FoodIsReplaced | src/snake_server/SnakeServer.cpp:356-371 | white food is laid on the next cells drawn until six cells hold food, and no longer |
| Draws.CheckThrows | src/snake_server/SnakeServer.cpp:324-347 | a check throws one die of three for each body segment of the dead, in order; food in the snake's colour where it shows 1 |
| Draws.BoostIsPlaced | src/snake_server/SnakeServer.cpp:373-385 | without a boost one of eighty throws lays one on the next cell drawn; with one nothing is drawn |
| Ticks.TickInOrder | src/snake_server/SnakeServer.cpp:37-72 | the order of a tick: food, then places for joins, then dice for the dead, then the boost; nothing else draws |
| Fairness.CountingIsFair | src/snake_server/SnakeServer.cpp:356-366 | with a source that counts six turns are always enough, so that source is fair |
| Fairness.FairSourceExists | src/snake_server/SnakeServer.cpp:356-366 | every arena and pace has a fair source: the assumption can be met |
| Collisions.DecisionsAgree | src/snake_server/SnakeServer.cpp:241-301 | the branch taken for a player depends only on heads, move times and what lies under its head |
| Collisions.CheckIsVerdicts | src/snake_server/SnakeServer.cpp:239-308 | the check in any order carries out, for each player, the branch decided on the state before it |
| Orders.DecisionIgnoresOrder | src/snake_server/SnakeServer.cpp:241-301 | the branch taken for a player does not depend on the iteration orders of the maps it reads and of the grid's filling |
| Orders.OrderIsIrrelevant | src/snake_server/SnakeServer.cpp:239-308 | for any two orders of the loop and any orders of the maps: same players, food, boosts, high score value and set of players to destroy |
| Orders.WholeCheckIgnoresOrder | src/snake_server/SnakeServer.cpp:239-341 | with the destruction: same players, boosts and high score value |
| Survivors.CheckOutcome | src/snake_server/SnakeServer.cpp:239-341 | who is told to die is gone, everybody else is there with the verdict carried out |
| Survivors.SurvivesExactlyWhen | src/snake_server/SnakeServer.cpp:239-341 | a player survives exactly when its head is inside, over a cell the grid shows as free, and first there |
| Survivors.SurvivorsAreApart | src/snake_server/SnakeServer.cpp:239-341 | after a check all heads are in the arena and pairwise distinct |
| Survivors.SurvivorsAreFree | src/snake_server/SnakeServer.cpp:260-265 | no surviving head is on a body segment that was there when the check began |
| Survivors.OnGrownSegmentsOnly | src/snake_server/SnakeServer.cpp:239-341 | after the check a surviving head is on a surviving body if and only if that snake was fed and grew its new last segment there |
| Survivors.FedWhereItSpawned | src/snake_server/SnakeServer.cpp:343-347 | and this happens: a snake fed before its first move is on its own body |
| Survivors.ContestHasOneWinner | src/snake_server/SnakeServer.cpp:267-287 | of the players contesting a free cell exactly the least by move time and id survives |
| Survivors.FedExactlyWhen | src/snake_server/SnakeServer.cpp:289-301 | a player eats exactly when it is alone over food in a free cell of the arena, and is boosted exactly when alone over a boost without food |
| Survivors.FoodAfterCheck | src/snake_server/SnakeServer.cpp:324-347 | a check loses no food but what was eaten, and makes none but on the bodies of the dead |
| Broadcasts.BoostsAfterCheck | src/snake_server/SnakeServer.cpp:297-301 | a check takes exactly the boosts that somebody gets |
| Survivors.ShownIsExact | src/snake_server/SnakeServer.cpp:231-237 | below 65536 body segments the 16-bit counters are exact, and 0 exactly over cells without a body |
| Survivors.IndexInRange | src/snake_server/SnakeServer.cpp:235 | every cell of the arena has a counter inside the grid |
| Survivors.IndexInjective | src/snake_server/SnakeServer.cpp:235 | different cells have different counters |
| Survivors.IndexOnto | src/snake_server/SnakeServer.cpp:28-29 | every counter belongs to a cell of the arena |
| Invariants.TickIsGood | src/snake_server/SnakeServer.cpp:37-72 | a tick keeps every snake a life inside the arena and every item in the arena |
| Invariants.CountedCellsInside | src/snake_server/SnakeServer.cpp:231-237 | in every tick of a reachable game every cell that the grid counts is inside, even if heads have just left the arena |
| Invariants.ArenaContainsAll | src/snake_server/SnakeServer.cpp:181-188 | in every reachable game all segments, food and boosts are in the arena |
| Chronicles.RunIsTold | src/snake_server/SnakeServer.cpp:190-229 | what an onlooker notes of each snake (cells of the head, moves, growths) explains the snake completely, tick after tick |
| Chronicles.ReachableSnakes | src/snake_server/SnakeServer.cpp:343-347 | after every run each segment is a cell the head was seen in, at moments falling by 0 or 1; score is length, the next direction is never backwards |
| Invariants.ShortSnakesAreOff | src/snake_server/SnakeServer.cpp:153-179 | in every reachable game a snake that has moved since its spawn and has fewer than five segments is not on its own body |
| Invariants.ShortSnakesAreOffAtCheck | src/snake_server/SnakeServer.cpp:260-265 | nor is it when a collision check begins, so it does not die of its own body |
| Invariants.MoveSchedule | src/snake_server/SnakeServer.cpp:196-203 | the boosted interval is used for the next move exactly while the boost lasts |
| Invariants.BoostLasts | src/snake_server/SnakeServer.cpp:349-354 | after a boost the boosted interval is used until its duration is over and not from then on |
| Invariants.AtMostOneBoost | src/snake_server/SnakeServer.cpp:373-385 | in every reachable game there is at most one boost in the arena |
| Chronicles.ReachableMovementRate | src/snake_server/SnakeServer.cpp:200-229 | during every run the moves seen of a snake are at least the boosted interval apart, and at most d / interval + 1 in any span d |
| Chronicles.LastMovesRate | src/snake_server/SnakeServer.cpp:200-229 | the same with the moves of one more tick, those into death included |
| Invariants.CheckTracksHighScore | src/snake_server/SnakeServer.cpp:303-307 | after a check the high score is the larger of the old one and the best score at the check |
| Invariants.HighScoreIsBestSeen | src/snake_server/SnakeServer.cpp:303-307 | over a run it is the best score seen at any check |
| Broadcasts.CheckNamesHigh | src/snake_server/SnakeServer.cpp:303-307 | a check leaves the high score as it is, name and all, or raises it to the name and score of a player in the check |
| Broadcasts.RunNamesHigh | src/snake_server/SnakeServer.cpp:303-307 | over a run it stays, or is higher and somebody's of that name at some check |
| Broadcasts.LogTells | src/snake_server/SnakeServer.cpp:387-429 | every GAME_STATE in a log, unless clients sent some, is the last record of a tick and shows the game after it: high score as best seen so far and its holder's name, food and boosts cell by cell, snakes segment by segment |
| Broadcasts.NewsIsBroadcast | src/snake_server/SnakeServer.cpp:64-71 | and every tick with news logs one |
| Batching.GroupsAreTheLog | include/common/MessageLogReader.h:33-64 | the groups concatenate to the log, each is nonempty and of one time |
| Batching.GroupTimesIncrease | include/common/MessageLogReader.h:50-61 | over nondecreasing times, times strictly increase from group to group |
| MessageLog.MessageLogWriter.Log | include/common/MessageLogWriter.h:18-22 | appends the record behind its length |
| MessageLog.LogReadsBack | include/common/MessageLogWriter.h:18-22 | a written log reads back as exactly its records |
| MessageLog.MessageLogReader.constructor | include/common/MessageLogReader.h:13-18 | nothing read, no time remembered |
| MessageLog.MessageLogReader.First | include/common/MessageLogReader.h:20-31 | the first record, nothing, or the error |
| MessageLog.MessageLogReader.NextBatch | include/common/MessageLogReader.h:34-64 | the batch, the record read too far and the new position; fewer records remain after each batch |
| MessageLog.CallShrinks | include/common/MessageLogReader.h:34-64 | no record is lost or read twice by a call |
| MessageLog.BatchingIsFaithful | include/common/MessageLogReader.h:34-64 | if no other time follows time 0, the batches are the log grouped by time, and a call fails exactly when a time decreases |
| MessageLog.FaithfulExactlyWhen | include/common/MessageLogReader.h:34-64 | for any log: the batches are the log grouped by time if and only if times never decrease and no other time follows time 0 |
| MessageLog.TimeZeroIsSwallowed | include/common/MessageLogReader.h:50-52 | for example, a record of time 0 is batched with the next one |
| Writability.LogFits | include/common/MessageLogWriter.h:18-22 | every record a server logs fits the wire format and the length prefix, if what it was sent does and there is room for a broadcast with every player that joined, grown in every tick |
| Writability.ReplayFits | src/snake_server/SnakeServer.cpp:97-114 | so does every record of the replay of its log |
| Writability.LoudLogsFit | src/snake_server/SnakeServer.cpp:37-72 | for both, only ticks with messages or with a due snake count |
| Writability.RoomyWhenLoud | src/snake_server/SnakeServer.cpp:37-72 | a run without its quiet ticks never needs more room than with them |
| Writability.RunJoins | src/snake_server/SnakeServer.cpp:41-50 | a log holds exactly the joins that the server was sent |
| Replay.SilentAbsorbed | src/snake_server/SnakeServer.cpp:37-72 | a tick does the same with and without an earlier unlogged one, down to the random source |
| Replay.QuietTicksCanGo | src/snake_server/SnakeServer.cpp:37-72 | deleting every tick without messages and due snakes from a run changes no record |
| Replay.TicksMerge | include/common/MessageLogReader.h:53-54 | two ticks of one time are one tick, if the first told nobody anything |
| Replay.ReplayRun | src/snake_server/SnakeServer.cpp:97-114 | replaying the records of a separated run gives the run without injected messages, and its game |
| Replay.NumbersIgnored | src/snake_server/SnakeServer.cpp:41-44 | a replay does not depend on the numbers of the records it reads |
| Replay.LogIsGapFree | include/snake_server/SnakeServer.h:50-61 | record i of a log carries number i and times never decrease, from the first record after the configuration on |
| Replay.SeparatedExactlyWhen | src/snake_server/SnakeServer.cpp:64-72 | without injected messages, broadcasts are separated in the run if and only if no record in the log has the time of a GAME_STATE before it |
| Replay.ReplayReproducesExactlyWhen | tests/replay_determinism_test.cpp:33-53 | the log of a replay is the live log if and only if nothing was injected and no record in it has the time of a GAME_STATE before it |
| Replay.ReplayReproduces | src/snake_server/SnakeServer.cpp:32-128 | increasing tick times and only joins, inputs and disconnects: always reproduced |
| Replay.ReplayReachesTheGame | src/snake_server/SnakeServer.cpp:97-114 | the replayed game is the live one as it was after its last logged tick |
| Replay.InjectionBreaksReplay | src/snake_server/SnakeServer.cpp:105-108 | a client that sends a SERVER_WELCOME makes the replay differ |
| Replay.EqualTimesBreakReplay | include/common/MessageLogReader.h:53-54 | so do two joins in two ticks of the same time |
| SnakeServer.SnakeServer.constructor | src/snake_server/SnakeServer.cpp:9-30 | an empty game, sequence 0, a grid with one counter for each cell |
| SnakeServer.SnakeServer.StampMessage | include/snake_server/SnakeServer.h:50-61 | number and time of the record; the next number is one more |
| SnakeServer.SnakeServer.Record | src/snake_server/SnakeServer.cpp:42-44 | the log file grows by exactly the bytes of the stamped record |
| SnakeServer.SnakeServer.RecordServerConfig | src/snake_server/SnakeServer.cpp:77-91 | the settings and the seed are the next record |
| SnakeServer.SnakeServer.ReplaceFood | src/snake_server/SnakeServer.cpp:356-360 | the loop ends where the specification says, including the random source |
| SnakeServer.SnakeServer.PlaceFoodRandomly | src/snake_server/SnakeServer.cpp:362-371 | two draws and one cell of food |
| SnakeServer.SnakeServer.PlaceSpeedBoost | src/snake_server/SnakeServer.cpp:373-385 | a draw only if there is no boost, two more only if it is a hit |
| SnakeServer.SnakeServer.CreateNewPlayer | src/snake_server/SnakeServer.cpp:181-188 | a second join draws a cell but keeps the player |
| SnakeServer.SnakeServer.HandleClientJoin | src/snake_server/SnakeServer.cpp:130-144 | the new player and the welcome record |
| SnakeServer.SnakeServer.HandleClientDisconnect | src/snake_server/SnakeServer.cpp:146-151 | removes the player if there is one |
| SnakeServer.SnakeServer.HandleClientInput | src/snake_server/SnakeServer.cpp:153-179 | sets the next direction unless it is backwards or unknown |
| SnakeServer.SnakeServer.Handle | src/snake_server/SnakeServer.cpp:45-61 | the switch over message types: game, answers and whether clients must be told |
| SnakeServer.SnakeServer.Dispatch | src/snake_server/SnakeServer.cpp:41-62 | one message: its record, then its effect and the records it causes |
| SnakeServer.SnakeServer.HandleMessages | src/snake_server/SnakeServer.cpp:41-62 | all messages of a tick, in order |
| SnakeServer.SnakeServer.MoveSnake | src/snake_server/SnakeServer.cpp:209-229 | turns, moves the chain and schedules the next move |
| SnakeServer.SnakeServer.UpdateOccupiedCells | src/snake_server/SnakeServer.cpp:231-237 | the grid counts this snake's body in addition to those before it |
| SnakeServer.SnakeServer.StepInPlace | src/snake_server/SnakeServer.cpp:196-203 | a boost that ran out is taken back, then the snake moves if it is due |
| SnakeServer.SnakeServer.UpdateSnakes | src/snake_server/SnakeServer.cpp:190-207 | all snakes stepped, every counter of the grid equal to the number of body segments in its cell |
| SnakeServer.SnakeServer.GetPlayerHeadsInCell | src/snake_server/SnakeServer.cpp:314-322 | exactly the players whose head is in the cell, in iteration order |
| SnakeServer.SnakeServer.FeedPlayer | src/snake_server/SnakeServer.cpp:343-347 | one segment and one point more, the food gone |
| SnakeServer.SnakeServer.BoostPlayer | src/snake_server/SnakeServer.cpp:349-354 | the boosted interval until the boost expires, the boost gone |
| SnakeServer.SnakeServer.JudgePlayer | src/snake_server/SnakeServer.cpp:245-301 | which of the check's branches a player takes; the grid is only read in range |
| SnakeServer.SnakeServer.CollidePlayer | src/snake_server/SnakeServer.cpp:241-308 | the check of one player and the tracking of the high score |
| SnakeServer.SnakeServer.ScatterFood | src/snake_server/SnakeServer.cpp:325-336 | one draw for each body segment, food where it is a hit |
| SnakeServer.SnakeServer.DestroyPlayers | src/snake_server/SnakeServer.cpp:324-341 | the marked players one after another |
| SnakeServer.SnakeServer.CheckCollisions | src/snake_server/SnakeServer.cpp:239-312 | the whole check |
| SnakeServer.SnakeServer.BuildGameState | src/snake_server/SnakeServer.cpp:395-429 | the broadcast shows exactly the game |
| SnakeServer.SnakeServer.BroadcastGameState | src/snake_server/SnakeServer.cpp:387-393 | the broadcast is the next record |
| SnakeServer.SnakeServer.FinishTick | src/snake_server/SnakeServer.cpp:64-72 | movement, what follows from it, and a broadcast only if there is news |
| SnakeServer.SnakeServer.Tick | src/snake_server/SnakeServer.cpp:37-72 | one turn of the loop: the new game, the new records, the invariant kept |
| SnakeServer.SnakeServer.RunPolls | src/snake_server/SnakeServer.cpp:32-75 | the loop over the polls of a live run is the specified run |
| SnakeServer.SnakeServer.PollBatch | src/snake_server/SnakeServer.cpp:100-109 | the time of a batch and its records without the server's own output |
| SnakeServer.SnakeServer.RunReplay | src/snake_server/SnakeServer.cpp:32-75 | the loop in replay mode runs the reader's batches until it is empty, or reports its error |
| Recording.OpenRecording | src/snake_server/main.cpp:19-26 | any file: the first record gives the seed, an empty file a spare one, a damaged or other first record is an error; the reader is left in front of the rest |
| Recording.ReplayFile | src/snake_server/main.cpp:19-27 | any file: the batches after the first record are run, or the error of the file is reported |
| Recording.ServerLogIsGapFree | include/snake_server/SnakeServer.h:50-61 | the whole log: record i carries number i, the configuration included, and times never decrease if the server starts no later than its first poll |
| Recording.FirstRecordLayout | src/snake_server/SnakeServer.cpp:77-91 | the first 80 bytes of a log file: length, type, time, settings, seed and the four constants at their offsets |
| Recording.SameBytesExactlyWhen | tests/replay_determinism_test.cpp:33-53 | the live and the replayed log are the same, and so are their bytes, under the condition; if all records fit, the bytes are the same only then |
| Recording.SameBytesInRoom | tests/replay_determinism_test.cpp:33-53 | the bytes are the same if and only if the condition holds, as long as there is room for the ticks that do something |
| Recording.ReplayRecording | tests/replay_determinism_test.cpp:33-53 | replaying the file of a live run whose records fit: the records are the same if and only if the condition holds, the bytes after the first record then, and only then if the replayed records fit |
| Recording.RecordAndReplay | src/snake_server/SnakeServer.cpp:32-128 | a live server, its file and a second server that replays it: the same of the two logs and of the two files after their first 80 bytes; with room the replayed records fit |
| Mazes.AnyPath | src/snake_bot/Pathfinder.cpp:77-120 | after the search no path to a cell is shorter than the number on it |
| Mazes.SearchSolves | src/snake_bot/Pathfinder.cpp:52-120 | after the search every free cell holds the length of its shortest path, or INT_MAX exactly if there is none |
| Steering.Better | src/snake_bot/Pathfinder.cpp:21-48 | one more direction: taken exactly if it is an option and there was none or its number is lower |
| Steering.BestMove | src/snake_bot/Pathfinder.cpp:15-50 | the least number wins, the earlier direction in a tie, no move exactly if there is no option |
| Steering.BestIsUnique | src/snake_bot/Pathfinder.cpp:15-50 | that determines the move |
| Steering.ChosenFails | src/snake_bot/Pathfinder.cpp:7-13 | the choice throws exactly when an allowed neighbour is off the map |
| Steering.ChosenIsBest | src/snake_bot/Pathfinder.cpp:15-50 | the running minimum over four directions is the best move |
| Steering.StaysOnCourse | src/snake_bot/Pathfinder.cpp:15-50 | the ban on turning back never blocks: the best move leads one step nearer |
| Steering.ZeroIsGoal | src/snake_bot/Pathfinder.cpp:60-75 | a free cell holds 0 exactly if there is uncovered food or a boost on it |
| Steering.GreedyArrives | src/snake_bot/Pathfinder.cpp:15-50 | from a first move to finite distance v a goal is reached with move 1 + v and no earlier, over free cells |
| Pathfinder.TurnKeeps | src/snake_bot/Pathfinder.cpp:94-103 | a turn of the search keeps its invariant: queued distances never decrease and span at most two values |
| Pathfinder.Pathfinder.constructor | src/snake_bot/Pathfinder.cpp:5 | an empty map |
| Pathfinder.Pathfinder.Write | src/snake_bot/Pathfinder.cpp:7-9 | a bounds-checked write |
| Pathfinder.Pathfinder.PopulateFoodAndPlayers | src/snake_bot/Pathfinder.cpp:60-75 | walls are -1, uncovered goals 0, all else untouched; fails exactly if something is off the map |
| Pathfinder.Pathfinder.Seeds | src/snake_bot/Pathfinder.cpp:79-88 | exactly the goals that no snake covers are queued |
| Pathfinder.Pathfinder.CheckNeighbour | src/snake_bot/Pathfinder.cpp:106-120 | an unvisited neighbour in the arena is numbered and queued, anything else is left alone |
| Pathfinder.Pathfinder.Expand | src/snake_bot/Pathfinder.cpp:95-102 | the front of the queue is popped and its four neighbours checked in order |
| Pathfinder.Pathfinder.ComputePaths | src/snake_bot/Pathfinder.cpp:77-104 | exact distances, cells expanded nearest first, at most food + boosts + width * height of them |
| Pathfinder.Pathfinder.RebuildMap | src/snake_bot/Pathfinder.cpp:52-58 | from any old map: exact distances, or failure exactly if something is off the map |
| Pathfinder.Pathfinder.Consider | src/snake_bot/Pathfinder.cpp:21-27 | one direction of the choice, including its border test and its exception |
| Pathfinder.Pathfinder.CalculateNextMove | src/snake_bot/Pathfinder.cpp:15-50 | the best move for the bot's snake, or the exception |
| Bot.BroadcastShows | src/snake_server/SnakeServer.cpp:414-426 | a broadcast shows every player once, with its id, score, color, name, direction and segments |
| Bot.PlayersServed | include/snake_client/GameState.h:41-50 | the bot keeps every player of a broadcast, with its direction and segments, and no other |
| Bot.ServedMazeIsSound | src/snake_bot/SnakeBot.cpp:81-92 | in every reachable game the bot's goals are the game's items, all in the arena, and no rebuild fails |
| Bot.BotArrives | src/snake_bot/SnakeBot.cpp:94-101 | in every reachable game greedy descent reaches food or a boost with move 1 + v, if nothing else moves |

## Left out

- Sockets, `epoll`, `accept`, `recv`, `send` and `errno`: what they bring to a poll is a list of events.
- Partial and failed sends, and sends to clients already gone: outside the invariants stated here.
- A malformed frame of a live client ends the server by an uncaught exception: a poll that fails has no tick.
- Rendering, key capture, logging, benchmarks, the main loops of client and bot, and the random-move bot.
- The clock: a run is given its tick times. The Mersenne Twister: any source of numbers in range, with the fairness assumption above. Nothing probabilistic is proved.
- The order of the two draws in `placeFood(distX(gen), distY(gen))` is unspecified in C++; the model draws x first.
- The real order of `std::unordered_map`: insertion order is used where order feeds the random draws.
- The float `speedBoostRatio` is four opaque bytes, and user names are 16 opaque bytes (`strncpy` and `strnlen` are not modelled).
- Ids, scores, sequence numbers and times do not overflow in the engine; their widths are modelled on the wire and in the log, and LogFits and LoudLogsFit show that under their bounds they fit. The grid's 16-bit counters do wrap around in the model.
- Allocation failure, for example of `reserve` with a large count.
- The engine holds each chain as a value. The linked nodes are a class of their own, proved against the same functions; ownership by `unique_ptr` and the depth of its recursion are not modelled.
- Log files that cannot be opened, and the reading of settings other than the seed.
- AcceptNewClient: assumes that the operating system hands out a descriptor that is not open.
- Polling.PollMessages: assumes that identifiers stay below 2^31, because the original counts them in an int.
- LogTells: assumes that clients send no GAME_STATE, because the server logs those too, as they are.
- DrainDisconnects: does not say in which order clients are reported, because the set has no order.
- CalculateNextMove: assumes that a snake has a segment, because the original reads the first one unchecked.
- RebuildMap: assumes width * height below INT_MAX; the map after a failure is not described.
- GreedyArrives: is about a map on which nothing else moves, as the map is when the move is chosen.
- WholeCheckIgnoresOrder: says nothing of the food that the dead leave behind, which is drawn for in the order of their destruction, nor whose name goes with the high score in a tie.
- ReplayRecording: assumes that the live records fit; a log in which one is too long for its length prefix cannot be read back.
