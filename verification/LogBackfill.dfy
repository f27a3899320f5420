/**
 * The reconnecting log subscription: a live stream, a chunked query for what was missed while it
 * was down, and a cache that keeps either from delivering what the other has delivered.
 *
 * The chain's logs are numbered in order; `blocks[i]` is the block of log `i`, and the number
 * stands for the hash that identifies the log.
 */
module LogBackfill {

  const CACHE_SIZE: nat := 100
  const BLOCK_LIMIT: nat := 0x8000_0000_0000_0000

  ghost predicate Ascending(blocks: seq<nat>) {
    forall i, j :: 0 <= i <= j < |blocks| ==> blocks[i] <= blocks[j]
  }

  ghost predicate Known(blocks: seq<nat>, logs: seq<nat>) {
    forall k :: 0 <= k < |logs| ==> logs[k] < |blocks|
  }

  /** The logs of the blocks from `lo` up to but not including `hi`. */
  function LogsIn(blocks: seq<nat>, lo: nat, hi: nat): (r: seq<nat>)
    ensures Known(blocks, r)
  {
    if blocks == [] then []
    else
      var n := |blocks| - 1;
      var before := LogsIn(blocks[..n], lo, hi);
      if lo <= blocks[n] < hi then before + [n] else before
  }

  lemma {:induction false} LogsInRange(blocks: seq<nat>, lo: nat, hi: nat, i: nat)
    ensures i in LogsIn(blocks, lo, hi) <==> i < |blocks| && lo <= blocks[i] < hi
  {
    if blocks != [] {
      LogsInRange(blocks[..|blocks| - 1], lo, hi, i);
    }
  }

  lemma {:induction false} QueriesJoin(blocks: seq<nat>, lo: nat, mid: nat, hi: nat)
    requires Ascending(blocks) && lo <= mid <= hi
    ensures LogsIn(blocks, lo, mid) + LogsIn(blocks, mid, hi) == LogsIn(blocks, lo, hi)
  {
    if blocks != [] {
      var n := |blocks| - 1;
      QueriesJoin(blocks[..n], lo, mid, hi);
      if lo <= blocks[n] < mid {
        NoneAbove(blocks[..n], mid, hi);
      }
    }
  }

  lemma {:induction false} NoneAbove(blocks: seq<nat>, lo: nat, hi: nat)
    requires forall i :: 0 <= i < |blocks| ==> blocks[i] < lo
    ensures LogsIn(blocks, lo, hi) == []
  {
    if blocks != [] {
      NoneAbove(blocks[..|blocks| - 1], lo, hi);
    }
  }

  // ---------------------------------------------------------------------------------------------
  // The chunked query

  /** The first block asked for. */
  function FromBlock(last: nat, current: nat, maxRange: nat): (r: nat)
    ensures current < r + maxRange
    ensures last <= r
    ensures last < current ==> (r == last <==> 1 <= last && current - last < maxRange)
  {
    var rangeStart := if maxRange > current then 0 else current - maxRange;
    if last > rangeStart + 1 then last else rangeStart + 1
  }

  /** Inclusive ranges of at most `chunk` blocks, each starting where the one before ends, from `lo` to `hi`. */
  ghost predicate Tiles(queries: seq<(nat, nat)>, lo: nat, hi: nat, chunk: nat)
    decreases |queries|
  {
    if queries == [] then lo == hi
    else
      var n := |queries| - 1;
      var (a, b) := queries[n];
      b + 1 == hi && a <= b < a + chunk && Tiles(queries[..n], lo, a, chunk)
  }

  lemma TilesAppend(queries: seq<(nat, nat)>, lo: nat, a: nat, b: nat, chunk: nat)
    requires Tiles(queries, lo, a, chunk) && a <= b < a + chunk
    ensures Tiles(queries + [(a, b)], lo, b + 1, chunk)
  {
    assert (queries + [(a, b)])[..|queries|] == queries;
  }

  datatype Fetched = Failed | Logs(logs: seq<nat>)

  predicate Fails(failures: seq<bool>, i: nat) {
    i < |failures| && failures[i]
  }

  ghost function FailureIn(failures: seq<bool>): (i: nat)
    requires exists i: nat :: Fails(failures, i)
    ensures Fails(failures, i)
  {
    var i: nat :| Fails(failures, i);
    i
  }

  /**
   * `resubFilterLogs`: the queries are contiguous, disjoint and bounded, and if none fails they
   * bring exactly what one query of the whole range would. With a chunk size of zero it asks for
   * nothing again and again, until a query fails.
   */
  method ResubFilterLogs(
      blocks: seq<nat>, last: nat, current: nat, chunk: nat, maxRange: nat, failures: seq<bool>)
    returns (fetched: Fetched, queries: seq<(nat, nat)>)
    requires Ascending(blocks) && current + chunk < BLOCK_LIMIT
    requires last >= current || maxRange == 0 || chunk > 0 || exists i: nat :: Fails(failures, i)
    ensures last >= current ==> fetched == Logs([]) && queries == []
    ensures forall i :: 0 <= i < |queries| - 1 ==> !Fails(failures, i)
    ensures fetched.Failed? <==> queries != [] && Fails(failures, |queries| - 1)
    ensures last < current && fetched.Logs? ==>
              && Tiles(queries, FromBlock(last, current, maxRange), current + 1, chunk)
              && fetched.logs == LogsIn(blocks, FromBlock(last, current, maxRange), current + 1)
  {
    queries := [];
    if last >= current {
      return Logs([]), queries;
    }
    var missed := [];
    var start := FromBlock(last, current, maxRange);
    var from := start;
    NothingIn(blocks, start);
    ghost var failure := if start > current || chunk > 0 then 0 else FailureIn(failures);
    while from <= current
      invariant start <= from && (from <= current + 1 || from <= current + chunk)
      invariant forall i :: 0 <= i < |queries| ==> !Fails(failures, i)
      invariant var done := if from <= current then from else current + 1;
                && (chunk > 0 || from > current ==> Tiles(queries, start, done, chunk))
                && missed == LogsIn(blocks, start, done)
      invariant from <= current && chunk == 0 ==> |queries| <= failure && Fails(failures, failure)
      decreases current + chunk + 1 - from, failure - |queries|
    {
      var to := if from + chunk - 1 < current then from + chunk - 1 else current;
      if chunk > 0 {
        TilesAppend(queries, start, from, to, chunk);
      }
      queries := queries + [(from, to)];
      if Fails(failures, |queries| - 1) {
        return Failed, queries;
      }
      QueriesJoin(blocks, start, from, to + 1);
      missed := missed + LogsIn(blocks, from, to + 1);
      from := from + chunk;
    }
    fetched := Logs(missed);
  }

  lemma {:induction false} NothingIn(blocks: seq<nat>, lo: nat)
    ensures LogsIn(blocks, lo, lo) == []
  {
    if blocks != [] {
      NothingIn(blocks[..|blocks| - 1], lo);
    }
  }

  // ---------------------------------------------------------------------------------------------
  // Deliveries through the cache

  datatype Sub = Sub(last: nat, cache: seq<nat>, delivered: seq<nat>)

  function Deliver(s: Sub, log: nat, block: nat): Sub {
    if log in s.cache then s
    else
      var cache := s.cache + [log];
      Sub(if block > s.last then block else s.last,
          if |cache| > CACHE_SIZE then cache[1..] else cache,
          s.delivered + [log])
  }

  function DeliverAll(s: Sub, blocks: seq<nat>, logs: seq<nat>): Sub
    requires Known(blocks, logs)
  {
    if logs == [] then s
    else
      var n := |logs| - 1;
      Deliver(DeliverAll(s, blocks, logs[..n]), logs[n], blocks[logs[n]])
  }

  /** The state the event loop's closures share. */
  class Subscription {
    var lastBlock: nat
    var logCache: seq<nat>
    var channel: seq<nat>

    constructor (currentBlock: nat)
      ensures State() == Sub(currentBlock, [], [])
    {
      lastBlock, logCache, channel := currentBlock, [], [];
    }

    ghost function State(): Sub
      reads this
    {
      Sub(lastBlock, logCache, channel)
    }

    /** `tryCacheLog`: a hit neither reorders nor evicts, so the cache is first in, first out. */
    method TryCacheLog(log: nat) returns (added: bool)
      modifies this`logCache
      ensures added <==> log !in old(logCache)
      ensures logCache == if added then Deliver(old(State()), log, 0).cache else old(logCache)
    {
      added := log !in logCache;
      if added {
        logCache := logCache + [log];
        if |logCache| > CACHE_SIZE {
          logCache := logCache[1..];
        }
      }
    }

    method HandleLog(log: nat, block: nat)
      modifies this
      ensures State() == Deliver(old(State()), log, block)
    {
      var added := TryCacheLog(log);
      if added {
        if block > lastBlock {
          lastBlock := block;
        }
        channel := channel + [log];
      }
    }

    /** `resub` after a successful query. */
    method HandleMissed(blocks: seq<nat>, logs: seq<nat>)
      requires Known(blocks, logs)
      modifies this
      ensures State() == DeliverAll(old(State()), blocks, logs)
    {
      for n := 0 to |logs|
        invariant State() == DeliverAll(old(State()), blocks, logs[..n])
      {
        assert logs[..n + 1][..n] == logs[..n];
        HandleLog(logs[n], blocks[logs[n]]);
      }
      assert logs[..|logs|] == logs;
    }
  }

  /** The cache holds the last hundred deliveries. */
  ghost predicate CacheIsRecent(s: Sub) {
    s.cache == if |s.delivered| <= 100 then s.delivered else s.delivered[|s.delivered| - 100..]
  }

  /** Between two deliveries of a log there are at least a hundred others. */
  ghost predicate FarApart(delivered: seq<nat>) {
    forall i, j :: 0 <= i < j < |delivered| && delivered[i] == delivered[j] ==> j - i > 100
  }

  ghost predicate SubInv(s: Sub) {
    CacheIsRecent(s) && FarApart(s.delivered)
  }

  lemma RecentIsCached(s: Sub, i: nat)
    requires CacheIsRecent(s) && i < |s.delivered| <= i + 100
    ensures s.delivered[i] in s.cache
  {
    var n := |s.delivered|;
    assert s.cache[if n <= 100 then i else i - (n - 100)] == s.delivered[i];
  }

  lemma DeliverKeepsSubInv(s: Sub, log: nat, block: nat)
    requires SubInv(s)
    ensures SubInv(Deliver(s, log, block))
  {
    var n := |s.delivered|;
    if log !in s.cache {
      forall i | 0 <= i < n && n - i <= 100 ensures s.delivered[i] in s.cache {
        RecentIsCached(s, i);
      }
      var d := s.delivered + [log];
      assert FarApart(d);
      assert CacheIsRecent(Deliver(s, log, block));
    }
  }

  lemma Delivers(s: Sub, log: nat, block: nat, i: nat)
    requires CacheIsRecent(s)
    ensures i in Deliver(s, log, block).delivered <==> i in s.delivered || i == log
  {
    var n := |s.delivered|;
    if log in s.cache && n > 100 {
      var k :| 0 <= k < |s.cache| && s.cache[k] == log;
      assert s.delivered[k + (n - 100)] == log;
    }
  }

  lemma {:induction false} DeliverAllKeepsSubInv(s: Sub, blocks: seq<nat>, logs: seq<nat>)
    requires SubInv(s) && Known(blocks, logs)
    ensures SubInv(DeliverAll(s, blocks, logs))
  {
    if logs != [] {
      var n := |logs| - 1;
      DeliverAllKeepsSubInv(s, blocks, logs[..n]);
      DeliverKeepsSubInv(DeliverAll(s, blocks, logs[..n]), logs[n], blocks[logs[n]]);
    }
  }

  lemma {:induction false} DeliversAll(s: Sub, blocks: seq<nat>, logs: seq<nat>, i: nat)
    requires SubInv(s) && Known(blocks, logs)
    ensures i in DeliverAll(s, blocks, logs).delivered <==> i in s.delivered || i in logs
  {
    if logs != [] {
      var n := |logs| - 1;
      DeliverAllKeepsSubInv(s, blocks, logs[..n]);
      DeliversAll(s, blocks, logs[..n], i);
      Delivers(DeliverAll(s, blocks, logs[..n]), logs[n], blocks[logs[n]], i);
      LastOrBefore(logs, i);
    }
  }

  lemma LastOrBefore(logs: seq<nat>, i: nat)
    requires logs != []
    ensures i in logs <==> i in logs[..|logs| - 1] || i == logs[|logs| - 1]
  {
  }

  // ---------------------------------------------------------------------------------------------
  // The subscription over time

  datatype Stream = Down | Live(next: nat)

  /**
   * The chain, with `head` its current block; the live stream, which pushes logs in order into a
   * buffer from the one current at its subscription on; and the subscriber, interested in the logs
   * from `base` on. `backfilling` is set between a new subscription and the query that follows it.
   */
  datatype System = System(
    blocks: seq<nat>, head: nat, base: nat, stream: Stream, buffer: seq<nat>, backfilling: bool, sub: Sub)

  datatype Action = Mine(logs: nat) | Push | Take | Disconnect | Subscribe | Backfill(ok: bool)

  ghost predicate Init(s: System) {
    && Ascending(s.blocks) && (forall i :: 0 <= i < |s.blocks| ==> s.blocks[i] <= s.head)
    && s.base == |s.blocks| && s.stream == Live(s.base) && s.buffer == [] && !s.backfilling
    && s.sub.last <= s.head && s.sub.cache == [] && s.sub.delivered == []
  }

  predicate Enabled(s: System, a: Action) {
    match a
    case Push => s.stream.Live? && s.stream.next < |s.blocks|
    case Take => !s.backfilling && s.buffer != [] && s.buffer[0] < |s.blocks|
    case Subscribe => !s.backfilling
    case Backfill(_) => s.backfilling
    case _ => true
  }

  function Mined(s: System, logs: nat): System {
    s.(head := s.head + 1, blocks := s.blocks + seq(logs, _ => s.head + 1))
  }

  function Backfilled(s: System, maxRange: nat): Sub {
    if s.sub.last >= s.head then s.sub
    else DeliverAll(s.sub, s.blocks, LogsIn(s.blocks, FromBlock(s.sub.last, s.head, maxRange), s.head + 1))
  }

  function Next(s: System, a: Action, maxRange: nat): System
    requires Enabled(s, a)
  {
    match a
    case Mine(logs) => Mined(s, logs)
    case Push => s.(stream := Live(s.stream.next + 1), buffer := s.buffer + [s.stream.next])
    case Take => s.(buffer := s.buffer[1..], sub := Deliver(s.sub, s.buffer[0], s.blocks[s.buffer[0]]))
    case Disconnect => s.(stream := Down)
    case Subscribe => s.(stream := Live(|s.blocks|), backfilling := true)
    case Backfill(ok) => s.(backfilling := false, sub := if ok then Backfilled(s, maxRange) else s.sub)
  }

  /** Steps from any state on. */
  ghost predicate IsPath(states: seq<System>, actions: seq<Action>, maxRange: nat) {
    && |states| == |actions| + 1
    && forall i {:trigger actions[i]} :: 0 <= i < |actions| ==>
         Enabled(states[i], actions[i]) && states[i + 1] == Next(states[i], actions[i], maxRange)
  }

  ghost predicate IsRun(states: seq<System>, actions: seq<Action>, maxRange: nat) {
    IsPath(states, actions, maxRange) && Init(states[0])
  }

  /** What holds of every run. */
  ghost predicate Inv(s: System) {
    && Ascending(s.blocks) && (forall i :: 0 <= i < |s.blocks| ==> s.blocks[i] <= s.head)
    && (forall i :: s.base <= i < |s.blocks| ==> 1 <= s.blocks[i])
    && s.base <= |s.blocks| && (s.stream.Live? ==> s.stream.next <= |s.blocks|)
    && Known(s.blocks, s.buffer) && Known(s.blocks, s.sub.delivered)
    && s.sub.last <= s.head
    && SubInv(s.sub)
  }

  lemma {:induction false} DeliverAllKeepsLast(s: Sub, blocks: seq<nat>, logs: seq<nat>, head: nat)
    requires Known(blocks, logs) && s.last <= head && forall i :: 0 <= i < |blocks| ==> blocks[i] <= head
    ensures DeliverAll(s, blocks, logs).last <= head
  {
    if logs != [] {
      DeliverAllKeepsLast(s, blocks, logs[..|logs| - 1], head);
    }
  }

  lemma {:induction false} DeliverAllKeepsKnown(s: Sub, blocks: seq<nat>, logs: seq<nat>)
    requires Known(blocks, logs) && Known(blocks, s.delivered)
    ensures Known(blocks, DeliverAll(s, blocks, logs).delivered)
  {
    if logs != [] {
      DeliverAllKeepsKnown(s, blocks, logs[..|logs| - 1]);
    }
  }

  /** The subscription fits a chain of these blocks. */
  ghost predicate FitsChain(sub: Sub, blocks: seq<nat>, head: nat) {
    SubInv(sub) && Known(blocks, sub.delivered) && sub.last <= head
  }

  lemma QueryKeeps(sub: Sub, blocks: seq<nat>, logs: seq<nat>, head: nat, after: Sub)
    requires FitsChain(sub, blocks, head) && forall i :: 0 <= i < |blocks| ==> blocks[i] <= head
    requires Known(blocks, logs) && after == DeliverAll(sub, blocks, logs)
    ensures FitsChain(after, blocks, head)
  {
    DeliverAllKeepsSubInv(sub, blocks, logs);
    DeliverAllKeepsKnown(sub, blocks, logs);
    DeliverAllKeepsLast(sub, blocks, logs, head);
  }

  lemma BackfilledKeepsInv(s: System, maxRange: nat)
    requires FitsChain(s.sub, s.blocks, s.head)
    requires forall i :: 0 <= i < |s.blocks| ==> s.blocks[i] <= s.head
    ensures FitsChain(Backfilled(s, maxRange), s.blocks, s.head)
  {
    if s.sub.last < s.head {
      var logs := LogsIn(s.blocks, FromBlock(s.sub.last, s.head, maxRange), s.head + 1);
      QueryKeeps(s.sub, s.blocks, logs, s.head, Backfilled(s, maxRange));
    }
  }

  lemma QueryDelivers(sub: Sub, blocks: seq<nat>, lo: nat, hi: nat, i: nat)
    requires SubInv(sub) && i < |blocks|
    ensures i in DeliverAll(sub, blocks, LogsIn(blocks, lo, hi)).delivered <==>
            i in sub.delivered || lo <= blocks[i] < hi
  {
    DeliversAll(sub, blocks, LogsIn(blocks, lo, hi), i);
    LogsInRange(blocks, lo, hi, i);
  }

  lemma BackfilledDelivers(s: System, maxRange: nat, i: nat)
    requires SubInv(s.sub) && i < |s.blocks| && s.blocks[i] <= s.head
    ensures i in Backfilled(s, maxRange).delivered <==>
            || i in s.sub.delivered
            || (s.sub.last < s.head && FromBlock(s.sub.last, s.head, maxRange) <= s.blocks[i])
  {
    if s.sub.last < s.head {
      QueryDelivers(s.sub, s.blocks, FromBlock(s.sub.last, s.head, maxRange), s.head + 1, i);
    }
  }

  lemma NextKeepsInv(s: System, a: Action, maxRange: nat)
    requires Inv(s) && Enabled(s, a)
    ensures Inv(Next(s, a, maxRange))
  {
    match a
    case Mine(logs) =>
    case Push =>
    case Take =>
      DeliverKeepsSubInv(s.sub, s.buffer[0], s.blocks[s.buffer[0]]);
    case Disconnect =>
    case Subscribe =>
    case Backfill(ok) =>
      BackfilledKeepsInv(s, maxRange);
  }

  lemma InitInv(s: System)
    requires Init(s)
    ensures Inv(s)
  {
  }

  lemma {:induction false} InvThroughout(states: seq<System>, actions: seq<Action>, maxRange: nat, n: nat)
    requires IsRun(states, actions, maxRange) && n <= |actions|
    ensures Inv(states[n])
  {
    if n == 0 {
      InitInv(states[0]);
    } else {
      InvThroughout(states, actions, maxRange, n - 1);
      NextKeepsInv(states[n - 1], actions[n - 1], maxRange);
    }
  }

  /** In every run, a log delivered twice has at least a hundred other deliveries between. */
  lemma RepeatsAreFarApart(states: seq<System>, actions: seq<Action>, maxRange: nat, n: nat, i: nat, j: nat)
    requires IsRun(states, actions, maxRange) && n <= |actions|
    requires i < j < |states[n].sub.delivered| && states[n].sub.delivered[i] == states[n].sub.delivered[j]
    ensures j - i > 100
  {
    InvThroughout(states, actions, maxRange, n);
  }

  // ---------------------------------------------------------------------------------------------
  // Nothing is missed

  /** Log `i` has neither been delivered nor is waiting in the buffer. */
  ghost predicate Outstanding(s: System, i: int) {
    s.base <= i < |s.blocks| && i !in s.sub.delivered && i !in s.buffer
  }

  /** The query after this subscription reaches back to the last block and has something to ask. */
  ghost predicate Reaches(s: System, maxRange: nat) {
    && s.head - s.sub.last < maxRange
    && (s.sub.last < s.head || forall i :: Outstanding(s, i) ==> s.blocks[i] != s.head)
  }

  ghost predicate BackfillsReach(states: seq<System>, actions: seq<Action>, maxRange: nat, n: nat)
    requires |states| == |actions| + 1 && n <= |actions|
  {
    forall i {:trigger actions[i]} :: 0 <= i < n && actions[i].Backfill? ==>
      actions[i].ok && Reaches(states[i], maxRange)
  }

  /** A query can still bring whatever has not come, and the stream has not skipped anything. */
  ghost predicate Recoverable(s: System) {
    && (forall i :: Outstanding(s, i) ==> s.sub.last <= s.blocks[i])
    && (!s.backfilling ==> forall i, k :: Outstanding(s, i) && 0 <= k < |s.buffer| ==> s.buffer[k] < i)
    && (!s.backfilling && s.stream.Live? ==> forall i :: Outstanding(s, i) ==> s.stream.next <= i)
  }

  lemma MineKeepsRecoverable(s: System, logs: nat)
    requires Inv(s) && Recoverable(s)
    ensures Recoverable(Mined(s, logs))
  {
    var s1 := Mined(s, logs);
    forall i | Outstanding(s1, i) ensures s1.sub.last <= s1.blocks[i] && (i < |s.blocks| ==> Outstanding(s, i)) {
    }
  }

  lemma PushKeepsRecoverable(s: System)
    requires Inv(s) && Recoverable(s) && Enabled(s, Push)
    ensures Recoverable(Next(s, Push, 0))
  {
    var s1 := Next(s, Push, 0);
    assert s1.buffer[|s.buffer|] == s.stream.next;
    forall i | Outstanding(s1, i) ensures Outstanding(s, i) && i != s.stream.next {
      assert s.stream.next in s1.buffer;
      assert forall k :: 0 <= k < |s.buffer| ==> s1.buffer[k] == s.buffer[k];
    }
  }

  lemma TakeKeepsRecoverable(s: System)
    requires Inv(s) && Recoverable(s) && Enabled(s, Take)
    ensures Recoverable(Next(s, Take, 0))
  {
    var s1 := Next(s, Take, 0);
    assert s.buffer == [s.buffer[0]] + s1.buffer;
    forall i | Outstanding(s1, i) ensures Outstanding(s, i) && s.buffer[0] < i {
      Delivers(s.sub, s.buffer[0], s.blocks[s.buffer[0]], i);
      assert forall k :: 0 < k < |s.buffer| ==> s.buffer[k] == s1.buffer[k - 1];
      assert Outstanding(s, i);
    }
  }

  lemma BackfillKeepsRecoverable(s: System, maxRange: nat)
    requires Inv(s) && Recoverable(s) && Enabled(s, Backfill(true)) && Reaches(s, maxRange)
    ensures forall i :: !Outstanding(Next(s, Backfill(true), maxRange), i)
  {
    var s1 := Next(s, Backfill(true), maxRange);
    forall i | s.base <= i < |s.blocks| ensures !Outstanding(s1, i) {
      BackfilledDelivers(s, maxRange, i);
      assert Outstanding(s, i) ==> s.sub.last <= s.blocks[i];
    }
  }

  lemma NextKeepsRecoverable(s: System, a: Action, maxRange: nat)
    requires Inv(s) && Recoverable(s) && Enabled(s, a)
    requires a.Backfill? ==> a.ok && Reaches(s, maxRange)
    ensures Recoverable(Next(s, a, maxRange))
  {
    match a
    case Mine(logs) => MineKeepsRecoverable(s, logs);
    case Push => PushKeepsRecoverable(s);
    case Take => TakeKeepsRecoverable(s);
    case Backfill(ok) => BackfillKeepsRecoverable(s, maxRange);
    case _ =>
      assert forall i :: Outstanding(Next(s, a, maxRange), i) ==> Outstanding(s, i);
  }

  lemma {:induction false} RecoverableThroughout(states: seq<System>, actions: seq<Action>, maxRange: nat, n: nat)
    requires IsRun(states, actions, maxRange) && n <= |actions| && BackfillsReach(states, actions, maxRange, n)
    ensures Recoverable(states[n])
  {
    if n > 0 {
      RecoverableThroughout(states, actions, maxRange, n - 1);
      InvThroughout(states, actions, maxRange, n - 1);
      NextKeepsRecoverable(states[n - 1], actions[n - 1], maxRange);
    }
  }

  /**
   * However often the stream goes down, as long as every query succeeds and reaches back to the
   * last block, a connected subscriber has received every log the stream has passed, but for those
   * still in the buffer.
   */
  lemma NothingIsMissed(states: seq<System>, actions: seq<Action>, maxRange: nat, n: nat, i: nat)
    requires IsRun(states, actions, maxRange) && n <= |actions| && BackfillsReach(states, actions, maxRange, n)
    requires !states[n].backfilling && states[n].stream.Live? && states[n].base <= i < states[n].stream.next
    ensures i in states[n].sub.delivered || i in states[n].buffer
  {
    RecoverableThroughout(states, actions, maxRange, n);
    InvThroughout(states, actions, maxRange, n);
    assert !Outstanding(states[n], i);
  }

  /** A query completes the deliveries if and only if it asks for every block with a log outstanding. */
  lemma BackfillCompletesIff(s: System, maxRange: nat, ok: bool)
    requires Inv(s) && s.backfilling
    ensures (forall i :: s.base <= i < |s.blocks| ==> i in Next(s, Backfill(ok), maxRange).sub.delivered) <==>
            (forall i :: s.base <= i < |s.blocks| && i !in s.sub.delivered ==>
               ok && s.sub.last < s.head && FromBlock(s.sub.last, s.head, maxRange) <= s.blocks[i])
  {
    var d := Next(s, Backfill(ok), maxRange).sub.delivered;
    forall i | s.base <= i < |s.blocks|
      ensures i in d <==>
              || i in s.sub.delivered
              || (ok && s.sub.last < s.head && FromBlock(s.sub.last, s.head, maxRange) <= s.blocks[i])
    {
      BackfilledDelivers(s, maxRange, i);
    }
  }

  // ---------------------------------------------------------------------------------------------
  // What is missed otherwise

  /** The stream will not bring log `i` either. */
  ghost predicate Passed(s: System, i: int) {
    Outstanding(s, i) && (s.stream.Live? ==> i < s.stream.next)
  }

  /** The first block the next query can ask for: none is asked for until the chain is past `last`. */
  function Reach(last: nat, head: nat, maxRange: nat): nat {
    FromBlock(last, if last < head then head else head + 1, maxRange)
  }

  lemma ReachGrows(last: nat, head: nat, maxRange: nat, last1: nat, head1: nat)
    requires last <= last1 && head <= head1
    ensures Reach(last, head, maxRange) <= Reach(last1, head1, maxRange)
  {
  }

  /** Nor will any query, now or later. */
  ghost predicate Lost(s: System, maxRange: nat, i: int) {
    Passed(s, i) && s.blocks[i] < Reach(s.sub.last, s.head, maxRange)
  }

  lemma {:induction false} DeliverAllGrowsLast(s: Sub, blocks: seq<nat>, logs: seq<nat>)
    requires Known(blocks, logs)
    ensures s.last <= DeliverAll(s, blocks, logs).last
  {
    if logs != [] {
      DeliverAllGrowsLast(s, blocks, logs[..|logs| - 1]);
    }
  }

  lemma BackfillGrowsLast(s: System, maxRange: nat)
    ensures s.sub.last <= Backfilled(s, maxRange).last
  {
    if s.sub.last < s.head {
      DeliverAllGrowsLast(s.sub, s.blocks, LogsIn(s.blocks, FromBlock(s.sub.last, s.head, maxRange), s.head + 1));
    }
  }

  lemma NextKeepsLost(s: System, a: Action, maxRange: nat, i: nat)
    requires Inv(s) && Enabled(s, a) && Lost(s, maxRange, i)
    ensures Lost(Next(s, a, maxRange), maxRange, i)
  {
    var s1 := Next(s, a, maxRange);
    if a.Take? {
      Delivers(s.sub, s.buffer[0], s.blocks[s.buffer[0]], i);
      assert s.buffer == [s.buffer[0]] + s1.buffer;
    } else if a.Backfill? {
      BackfilledDelivers(s, maxRange, i);
      BackfillGrowsLast(s, maxRange);
    }
    ReachGrows(s.sub.last, s.head, maxRange, s1.sub.last, s1.head);
  }

  lemma {:induction false} PathKeepsLost(states: seq<System>, actions: seq<Action>, maxRange: nat, m: nat, n: nat,
                                         i: nat)
    requires IsPath(states, actions, maxRange) && m <= n <= |actions|
    requires Inv(states[m]) && Lost(states[m], maxRange, i)
    ensures Inv(states[n]) && Lost(states[n], maxRange, i)
    decreases n
  {
    if m < n {
      PathKeepsLost(states, actions, maxRange, m, n - 1, i);
      NextKeepsInv(states[n - 1], actions[n - 1], maxRange);
      NextKeepsLost(states[n - 1], actions[n - 1], maxRange, i);
    }
  }

  /** What is lost stays lost, whatever queries succeed later. */
  lemma LostForever(states: seq<System>, actions: seq<Action>, maxRange: nat, m: nat, n: nat, i: nat)
    requires IsRun(states, actions, maxRange) && m <= n <= |actions| && Lost(states[m], maxRange, i)
    ensures Lost(states[n], maxRange, i) && i !in states[n].sub.delivered
  {
    InvThroughout(states, actions, maxRange, m);
    PathKeepsLost(states, actions, maxRange, m, n, i);
  }

  // ---------------------------------------------------------------------------------------------
  // What is not lost can still come

  lemma PathExtend(states: seq<System>, actions: seq<Action>, maxRange: nat, a: Action)
      returns (states1: seq<System>, actions1: seq<Action>)
    requires IsPath(states, actions, maxRange) && Enabled(states[|actions|], a)
    ensures IsPath(states1, actions1, maxRange) && actions1 == actions + [a] && states <= states1
    ensures states1[|actions1|] == Next(states[|actions|], a, maxRange)
  {
    states1 := states + [Next(states[|actions|], a, maxRange)];
    actions1 := actions + [a];
    forall i | 0 <= i < |actions1|
      ensures Enabled(states1[i], actions1[i]) && states1[i + 1] == Next(states1[i], actions1[i], maxRange)
    {
      if i < |actions| {
        assert actions1[i] == actions[i];
      }
    }
  }

  /** A log that a query asks for comes with it. */
  lemma QueryBrings(s: System, maxRange: nat, i: nat) returns (states: seq<System>, actions: seq<Action>)
    requires Inv(s) && i < |s.blocks| && Reach(s.sub.last, s.head, maxRange) <= s.blocks[i]
    ensures IsPath(states, actions, maxRange) && states[0] == s && i in states[|actions|].sub.delivered
  {
    states, actions := [s], [];
    if !s.backfilling {
      states, actions := PathExtend(states, actions, maxRange, Subscribe);
    }
    if s.sub.last == s.head {
      states, actions := PathExtend(states, actions, maxRange, Mine(0));
    }
    var t := states[|actions|];
    assert t.blocks == s.blocks && t.sub == s.sub;
    BackfilledDelivers(t, maxRange, i);
    states, actions := PathExtend(states, actions, maxRange, Backfill(true));
  }

  /** A log in the buffer comes when those before it have been taken. */
  lemma {:induction false} BufferBrings(states: seq<System>, actions: seq<Action>, maxRange: nat, i: nat)
      returns (states1: seq<System>, actions1: seq<Action>)
    requires IsPath(states, actions, maxRange) && Inv(states[|actions|]) && !states[|actions|].backfilling
    requires i in states[|actions|].buffer
    ensures IsPath(states1, actions1, maxRange) && states <= states1 && i in states1[|actions1|].sub.delivered
    decreases |states[|actions|].buffer|
  {
    var s := states[|actions|];
    NextKeepsInv(s, Take, maxRange);
    Delivers(s.sub, s.buffer[0], s.blocks[s.buffer[0]], i);
    states1, actions1 := PathExtend(states, actions, maxRange, Take);
    if s.buffer[0] != i {
      states1, actions1 := BufferBrings(states1, actions1, maxRange, i);
    }
  }

  /** A log the stream has yet to push gets into the buffer. */
  lemma {:induction false} StreamBrings(states: seq<System>, actions: seq<Action>, maxRange: nat, i: nat)
      returns (states1: seq<System>, actions1: seq<Action>)
    requires IsPath(states, actions, maxRange) && Inv(states[|actions|]) && !states[|actions|].backfilling
    requires states[|actions|].stream.Live? && states[|actions|].stream.next <= i < |states[|actions|].blocks|
    ensures IsPath(states1, actions1, maxRange) && states <= states1
    ensures Inv(states1[|actions1|]) && !states1[|actions1|].backfilling && i in states1[|actions1|].buffer
    decreases i - states[|actions|].stream.next
  {
    var s := states[|actions|];
    NextKeepsInv(s, Push, maxRange);
    states1, actions1 := PathExtend(states, actions, maxRange, Push);
    if s.stream.next < i {
      states1, actions1 := StreamBrings(states1, actions1, maxRange, i);
    }
  }

  lemma NotLostCanCome(s: System, maxRange: nat, i: nat) returns (states: seq<System>, actions: seq<Action>)
    requires Inv(s) && Outstanding(s, i) && !Lost(s, maxRange, i)
    ensures IsPath(states, actions, maxRange) && states[0] == s && i in states[|actions|].sub.delivered
  {
    if Passed(s, i) {
      states, actions := QueryBrings(s, maxRange, i);
    } else {
      states, actions := [s], [];
      if s.backfilling {
        NextKeepsInv(s, Backfill(false), maxRange);
        states, actions := PathExtend(states, actions, maxRange, Backfill(false));
      }
      states, actions := StreamBrings(states, actions, maxRange, i);
      states, actions := BufferBrings(states, actions, maxRange, i);
    }
  }

  /** From `s` on, log `i` may yet be delivered. */
  ghost predicate MayCome(s: System, maxRange: nat, i: nat) {
    exists states: seq<System>, actions: seq<Action> :: Brings(states, actions, maxRange, s, i)
  }

  ghost predicate Brings(states: seq<System>, actions: seq<Action>, maxRange: nat, s: System, i: nat) {
    IsPath(states, actions, maxRange) && states[0] == s && i in states[|actions|].sub.delivered
  }

  /** An outstanding log is lost if and only if nothing that may happen later delivers it. */
  lemma LostIffNeverComes(s: System, maxRange: nat, i: nat)
    requires Inv(s) && Outstanding(s, i)
    ensures Lost(s, maxRange, i) <==> !MayCome(s, maxRange, i)
  {
    if Lost(s, maxRange, i) {
      forall states: seq<System>, actions: seq<Action> | IsPath(states, actions, maxRange) && states[0] == s
        ensures i !in states[|actions|].sub.delivered
      {
        PathKeepsLost(states, actions, maxRange, 0, |actions|, i);
      }
    } else {
      var states, actions := NotLostCanCome(s, maxRange, i);
      assert Brings(states, actions, maxRange, s, i);
    }
  }

  // ---------------------------------------------------------------------------------------------
  // Which steps lose something

  /** The last block after a live log. */
  function LastAfter(s: System, log: nat): nat
    requires log < |s.blocks|
  {
    if log !in s.sub.cache && s.blocks[log] > s.sub.last then s.blocks[log] else s.sub.last
  }

  /**
   * The steps that put a log out of reach, as seen before them: a block that takes the last block
   * out of the range, or a live log from past one the stream has passed; and losing or replacing a
   * stream that is itself further behind than a query reaches. A query never does.
   */
  ghost predicate Loses(s: System, a: Action, maxRange: nat)
    requires Enabled(s, a)
  {
    match a
    case Mine(logs) =>
      || (exists i :: Passed(s, i) && s.blocks[i] < FromBlock(s.sub.last, s.head + 1, maxRange))
      || (s.stream.Down? && logs > 0 && maxRange == 0)
    case Push => false
    case Take => exists i :: Passed(s, i) && s.blocks[i] < Reach(LastAfter(s, s.buffer[0]), s.head, maxRange)
    case Disconnect => exists i :: Outstanding(s, i) && s.blocks[i] < Reach(s.sub.last, s.head, maxRange)
    case Subscribe => exists i :: Outstanding(s, i) && s.blocks[i] < Reach(s.sub.last, s.head, maxRange)
    case Backfill(_) => false
  }

  lemma MineLosesIff(s: System, logs: nat, maxRange: nat)
    requires Inv(s) && forall i :: !Lost(s, maxRange, i)
    ensures (exists i :: Lost(Mined(s, logs), maxRange, i)) <==> Loses(s, Mine(logs), maxRange)
  {
    var s1 := Mined(s, logs);
    forall i | i < |s.blocks| ensures Passed(s1, i) <==> Passed(s, i) {
    }
    forall i | |s.blocks| <= i
      ensures Lost(s1, maxRange, i) <==> i < |s1.blocks| && s.stream.Down? && maxRange == 0
    {
    }
    if s.stream.Down? && logs > 0 && maxRange == 0 {
      assert Lost(s1, maxRange, |s.blocks|);
    }
    if i :| Passed(s, i) && s.blocks[i] < FromBlock(s.sub.last, s.head + 1, maxRange) {
      assert Lost(s1, maxRange, i);
    }
  }

  lemma PushLosesNothing(s: System, maxRange: nat)
    requires Inv(s) && Enabled(s, Push) && forall i :: !Lost(s, maxRange, i)
    ensures forall i :: !Lost(Next(s, Push, maxRange), maxRange, i)
  {
    var s1 := Next(s, Push, maxRange);
    assert s1.buffer[|s.buffer|] == s.stream.next;
    forall i ensures !Lost(s1, maxRange, i) {
      assert !Lost(s, maxRange, i);
      assert forall k :: 0 <= k < |s.buffer| ==> s1.buffer[k] == s.buffer[k];
    }
  }

  /** A live log loses others if and only if the stream has passed one that the next query then cannot reach. */
  lemma TakeLosesIff(s: System, maxRange: nat)
    requires Inv(s) && Enabled(s, Take) && forall i :: !Lost(s, maxRange, i)
    ensures (exists i :: Lost(Next(s, Take, maxRange), maxRange, i)) <==> Loses(s, Take, maxRange)
  {
    var s1 := Next(s, Take, maxRange);
    assert s.buffer == [s.buffer[0]] + s1.buffer;
    assert s1.sub.last == LastAfter(s, s.buffer[0]);
    forall i ensures Passed(s1, i) <==> Passed(s, i) {
      if s.base <= i {
        Delivers(s.sub, s.buffer[0], s.blocks[s.buffer[0]], i);
      }
    }
    if i :| Passed(s, i) && s.blocks[i] < Reach(LastAfter(s, s.buffer[0]), s.head, maxRange) {
      assert Lost(s1, maxRange, i);
    }
  }

  lemma BackfillLosesNothing(s: System, ok: bool, maxRange: nat)
    requires Inv(s) && Enabled(s, Backfill(ok)) && forall i :: !Lost(s, maxRange, i)
    ensures forall i :: !Lost(Next(s, Backfill(ok), maxRange), maxRange, i)
  {
    var s1 := Next(s, Backfill(ok), maxRange);
    forall i ensures !Lost(s1, maxRange, i) {
      assert !Lost(s, maxRange, i);
      if s.base <= i < |s.blocks| {
        BackfilledDelivers(s, maxRange, i);
      }
    }
  }

  /** From a state with nothing lost, exactly these steps lose something. */
  lemma StepLosesIff(s: System, a: Action, maxRange: nat)
    requires Inv(s) && Enabled(s, a) && forall i :: !Lost(s, maxRange, i)
    ensures (exists i :: Lost(Next(s, a, maxRange), maxRange, i)) <==> Loses(s, a, maxRange)
  {
    var s1 := Next(s, a, maxRange);
    match a
    case Mine(logs) => MineLosesIff(s, logs, maxRange);
    case Push => PushLosesNothing(s, maxRange);
    case Take => TakeLosesIff(s, maxRange);
    case Backfill(ok) => BackfillLosesNothing(s, ok, maxRange);
    case _ =>
      assert forall i :: Passed(s1, i) <==> Outstanding(s, i);
      if i :| Outstanding(s, i) && s.blocks[i] < Reach(s.sub.last, s.head, maxRange) {
        assert Lost(s1, maxRange, i);
      }
  }

  ghost predicate AnyLost(s: System, maxRange: nat) {
    exists i :: Lost(s, maxRange, i)
  }

  lemma AnyLostAfter(s: System, a: Action, maxRange: nat)
    requires Inv(s) && Enabled(s, a)
    ensures AnyLost(Next(s, a, maxRange), maxRange) <==> AnyLost(s, maxRange) || Loses(s, a, maxRange)
  {
    if i :| Lost(s, maxRange, i) {
      NextKeepsLost(s, a, maxRange, i);
    } else {
      StepLosesIff(s, a, maxRange);
    }
  }

  ghost predicate SomeStepLoses(states: seq<System>, actions: seq<Action>, maxRange: nat, n: nat)
    requires IsRun(states, actions, maxRange) && n <= |actions|
  {
    exists k {:trigger actions[k]} :: 0 <= k < n && Loses(states[k], actions[k], maxRange)
  }

  /** Over whole runs: something is lost if and only if some step was a losing one. */
  lemma {:induction false} RunLosesIff(states: seq<System>, actions: seq<Action>, maxRange: nat, n: nat)
    requires IsRun(states, actions, maxRange) && n <= |actions|
    ensures AnyLost(states[n], maxRange) <==> SomeStepLoses(states, actions, maxRange, n)
  {
    if n > 0 {
      RunLosesIff(states, actions, maxRange, n - 1);
      InvThroughout(states, actions, maxRange, n - 1);
      AnyLostAfter(states[n - 1], actions[n - 1], maxRange);
      assert Loses(states[n - 1], actions[n - 1], maxRange) ==> SomeStepLoses(states, actions, maxRange, n);
    }
  }

  // ---------------------------------------------------------------------------------------------
  // Three ways to lose a log

  lemma Extend(states: seq<System>, actions: seq<Action>, maxRange: nat, a: Action)
      returns (states1: seq<System>, actions1: seq<Action>)
    requires IsRun(states, actions, maxRange) && Enabled(states[|actions|], a)
    ensures IsRun(states1, actions1, maxRange) && actions1 == actions + [a] && states <= states1
    ensures states1[|actions1|] == Next(states[|actions|], a, maxRange)
  {
    states1, actions1 := PathExtend(states, actions, maxRange, a);
  }

  const GENESIS := System([], 0, 0, Live(0), [], false, Sub(0, [], []))

  /** A failed query followed by a live log loses what the query would have brought. */
  lemma FailedBackfillLosesLog(maxRange: nat) returns (states: seq<System>, actions: seq<Action>)
    ensures IsRun(states, actions, maxRange) && Lost(states[|actions|], maxRange, 0)
  {
    states, actions := [GENESIS], [];
    states, actions := Extend(states, actions, maxRange, Disconnect);
    states, actions := Extend(states, actions, maxRange, Mine(1));
    states, actions := Extend(states, actions, maxRange, Subscribe);
    states, actions := Extend(states, actions, maxRange, Backfill(false));
    states, actions := Extend(states, actions, maxRange, Mine(1));
    states, actions := Extend(states, actions, maxRange, Push);
    states, actions := Extend(states, actions, maxRange, Take);
  }

  /** The stream goes down after the first of two logs in block 1, and is up again before block 2. */
  lemma SplitBlock(maxRange: nat) returns (states: seq<System>, actions: seq<Action>)
    ensures IsRun(states, actions, maxRange) && actions == [Mine(2), Push, Take, Disconnect, Subscribe]
    ensures states[5] == System([1, 1], 1, 0, Live(2), [], true, Sub(1, [0], [0]))
  {
    states, actions := [GENESIS], [];
    states, actions := Extend(states, actions, maxRange, Mine(2));
    assert states[|actions|].blocks == [1, 1];
    states, actions := Extend(states, actions, maxRange, Push);
    states, actions := Extend(states, actions, maxRange, Take);
    states, actions := Extend(states, actions, maxRange, Disconnect);
    states, actions := Extend(states, actions, maxRange, Subscribe);
  }

  /**
   * Even with every query successful and in range, a stream that goes down between two logs of one
   * block loses the second when the next query comes before the next block.
   */
  lemma SplitBlockLosesLog(maxRange: nat) returns (states: seq<System>, actions: seq<Action>)
    requires maxRange > 0
    ensures IsRun(states, actions, maxRange) && Lost(states[|actions|], maxRange, 1)
    ensures forall i {:trigger actions[i]} :: 0 <= i < |actions| && actions[i].Backfill? ==>
              actions[i].ok && states[i].head - states[i].sub.last < maxRange
  {
    states, actions := SplitBlock(maxRange);
    states, actions := Extend(states, actions, maxRange, Backfill(true));
    states, actions := Extend(states, actions, maxRange, Mine(1));
    states, actions := Extend(states, actions, maxRange, Push);
    states, actions := Extend(states, actions, maxRange, Take);
  }

  lemma {:induction false} EmptyBlocks(states: seq<System>, actions: seq<Action>, maxRange: nat, count: nat)
      returns (states1: seq<System>, actions1: seq<Action>)
    requires IsRun(states, actions, maxRange)
    ensures IsRun(states1, actions1, maxRange) && actions <= actions1
    ensures forall i {:trigger actions1[i]} :: |actions| <= i < |actions1| ==> actions1[i] == Mine(0)
    ensures var s := states[|actions|]; states1[|actions1|] == s.(head := s.head + count)
    decreases count
  {
    states1, actions1 := states, actions;
    if count > 0 {
      states1, actions1 := EmptyBlocks(states, actions, maxRange, count - 1);
      var s := states1[|actions1|];
      assert Mined(s, 0).blocks == s.blocks;
      states1, actions1 := Extend(states1, actions1, maxRange, Mine(0));
    }
  }

  /**
   * An outage longer than the range loses what was logged before; the query that follows succeeds and
   * does not help.
   */
  lemma LongOutageLosesLog(maxRange: nat) returns (states: seq<System>, actions: seq<Action>)
    ensures IsRun(states, actions, maxRange) && Lost(states[|actions|], maxRange, 0)
    ensures forall i {:trigger actions[i]} :: 0 <= i < |actions| && actions[i].Backfill? ==> actions[i].ok
    ensures |actions| > 0 && actions[|actions| - 1] == Backfill(true)
  {
    states, actions := [GENESIS], [];
    states, actions := Extend(states, actions, maxRange, Disconnect);
    states, actions := Extend(states, actions, maxRange, Mine(1));
    states, actions := EmptyBlocks(states, actions, maxRange, maxRange);
    states, actions := Extend(states, actions, maxRange, Subscribe);
    var n := |actions|;
    states, actions := Extend(states, actions, maxRange, Backfill(true));
    LostForever(states, actions, maxRange, n, n + 1, 0);
  }
}
