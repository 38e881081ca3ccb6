/** Grouping a log by transact time, as a definition that knows nothing of the reader's lookahead. */
module Batching {
  import opened Protocol

  function TimeOf(m: Message): int {
    m.hdr.transactTime
  }

  type Batch = b: seq<Message> | b != [] witness [ServerWelcome(Header(SERVER_WELCOME, -1, 0, 0))]

  function BatchTime(b: Batch): int {
    TimeOf(b[0])
  }

  /** Put a record in front: into the first batch if it has its time, else as a batch of its own. */
  function Prepend(m: Message, later: seq<Batch>): seq<Batch> {
    if later != [] && BatchTime(later[0]) == TimeOf(m) then [[m] + later[0]] + later[1..] else [[m]] + later
  }

  /** Neighbouring records of equal time, together. */
  function GroupByTime(log: seq<Message>): (r: seq<Batch>)
    ensures r == [] <==> log == []
    ensures log != [] ==> r[0][0] == log[0]
  {
    if log == [] then [] else Prepend(log[0], GroupByTime(log[1..]))
  }

  function Flatten(batches: seq<Batch>): seq<Message> {
    if batches == [] then [] else batches[0] + Flatten(batches[1..])
  }

  predicate NondecreasingTimes(log: seq<Message>) {
    forall i :: 1 <= i < |log| ==> TimeOf(log[i - 1]) <= TimeOf(log[i])
  }

  predicate OneTime(b: Batch) {
    forall m :: m in b ==> TimeOf(m) == BatchTime(b)
  }

  predicate IncreasingBatches(batches: seq<Batch>) {
    forall k :: 1 <= k < |batches| ==> BatchTime(batches[k - 1]) < BatchTime(batches[k])
  }

  lemma FlattenPrepend(m: Message, later: seq<Batch>)
    ensures Flatten(Prepend(m, later)) == [m] + Flatten(later)
  {
    if later != [] && BatchTime(later[0]) == TimeOf(m) {
      assert ([[m] + later[0]] + later[1..])[1..] == later[1..];
    } else {
      assert ([[m]] + later)[1..] == later;
    }
  }

  /** Grouping loses nothing and keeps the order, and every group has one time. */
  lemma {:induction false} GroupsAreTheLog(log: seq<Message>)
    ensures Flatten(GroupByTime(log)) == log
    ensures forall b :: b in GroupByTime(log) ==> OneTime(b)
  {
    if log != [] {
      var later := GroupByTime(log[1..]);
      GroupsAreTheLog(log[1..]);
      FlattenPrepend(log[0], later);
      forall b | b in GroupByTime(log) ensures OneTime(b) {
        if later != [] && b == [log[0]] + later[0] { assert OneTime(later[0]); }
      }
    }
  }

  /** On a log whose times never decrease, the groups' times strictly increase. */
  lemma {:induction false} GroupTimesIncrease(log: seq<Message>)
    requires NondecreasingTimes(log)
    ensures IncreasingBatches(GroupByTime(log))
  {
    if log != [] {
      var later, all := GroupByTime(log[1..]), GroupByTime(log);
      GroupTimesIncrease(log[1..]);
      forall k | 1 <= k < |all| ensures BatchTime(all[k - 1]) < BatchTime(all[k]) {
        if BatchTime(later[0]) == TimeOf(log[0]) {
          assert all[k] == later[k] && BatchTime(all[k - 1]) == BatchTime(later[k - 1]);
        } else if k > 1 {
          assert all[k - 1] == later[k - 2] && all[k] == later[k - 1];
        } else {
          assert all[1] == later[0] && later[0][0] == log[1];
        }
      }
    }
  }

  /** A block of equal times in front of a log joins the log's first group or is a group of its own. */
  lemma {:induction false} GroupPrepend(block: Batch, log: seq<Message>)
    requires OneTime(block)
    ensures var later := GroupByTime(log);
      GroupByTime(block + log) ==
        if log != [] && TimeOf(log[0]) == BatchTime(block) then [block + later[0]] + later[1..]
        else [block] + later
  {
    var m, later := block[0], GroupByTime(log);
    assert (block + log)[1..] == block[1..] + log;
    if |block| == 1 {
      assert block[1..] + log == log && block == [m];
    } else {
      assert block[1] in block;
      var rest: Batch := block[1..];
      forall x | x in rest ensures TimeOf(x) == BatchTime(rest) { assert x in block; }
      GroupPrepend(rest, log);
      assert block == [m] + rest;
      if log != [] && TimeOf(log[0]) == BatchTime(block) {
        assert [m] + (rest + later[0]) == block + later[0];
      }
    }
  }
}
