/**
 * The indexer's block listener: candidates found in the block stream are passed on through a
 * bounded channel, and wait in a queue with an expiry when the channel is full. Candidates are
 * numbered in the order they are extracted.
 */
module BlockListener {

  /** Thirty seconds, in nanoseconds. */
  const EXPIRATION_TIMEOUT: nat := 30_000_000_000

  datatype Entry = Entry(timestamp: nat, id: nat)

  datatype Fate = Sent | Expired(queued: nat, dropped: nat)

  datatype Resolution = Resolution(id: nat, fate: Fate)

  /** What has gone into the channel, and what has become of every candidate done with. */
  datatype Record = Record(channel: seq<nat>, resolved: seq<Resolution>) {
    function Send(id: nat): Record {
      Record(channel + [id], resolved + [Resolution(id, Sent)])
    }

    function Expire(e: Entry, now: nat): Record {
      Record(channel, resolved + [Resolution(e.id, Expired(e.timestamp, now))])
    }
  }

  predicate IsExpired(e: Entry, now: nat) {
    now - e.timestamp >= EXPIRATION_TIMEOUT
  }

  function Ids(queue: seq<Entry>): (r: seq<nat>)
    ensures |r| == |queue|
  {
    seq(|queue|, i requires 0 <= i < |queue| => queue[i].id)
  }

  // ---------------------------------------------------------------------------------------------
  // The flush

  /** `flush` with `room` sends succeeding before one fails: the record after it and the queue it leaves. */
  function FlushOf(record: Record, queue: seq<Entry>, now: nat, room: nat): (Record, seq<Entry>)
    decreases |queue|
  {
    if queue == [] then (record, [])
    else
      var e := queue[0];
      if IsExpired(e, now) then FlushOf(record.Expire(e, now), queue[1..], now, room)
      else if room > 0 then FlushOf(record.Send(e.id), queue[1..], now, room - 1)
      else (record, queue)
  }

  /** The listener's queue and the sending end of its channel. */
  class Shared {
    var queue: seq<Entry>
    var channel: seq<nat>
    ghost var resolved: seq<Resolution>

    /** `flush`. */
    method Flush(now: nat, room: nat) returns (flushed: bool)
      modifies this
      ensures (Record(channel, resolved), queue) == FlushOf(old(Record(channel, resolved)), old(queue), now, room)
      ensures flushed <==> queue == []
    {
      var left := room;
      while queue != []
        invariant FlushOf(old(Record(channel, resolved)), old(queue), now, room) ==
                  FlushOf(Record(channel, resolved), queue, now, left)
        decreases |queue|
      {
        var e := queue[0];
        if IsExpired(e, now) {
          resolved := resolved + [Resolution(e.id, Expired(e.timestamp, now))];
          queue := queue[1..];
        } else {
          if left == 0 {
            return false;
          }
          left := left - 1;
          channel := channel + [e.id];
          resolved := resolved + [Resolution(e.id, Sent)];
          queue := queue[1..];
        }
      }
      flushed := true;
    }
  }

  ghost predicate Sorted(queue: seq<Entry>) {
    forall i, j :: 0 <= i <= j < |queue| ==> queue[i].timestamp <= queue[j].timestamp
  }

  /** The entries queued thirty seconds ago or longer are the first `n`. */
  ghost predicate ExpiredAre(queue: seq<Entry>, now: nat, n: nat) {
    n <= |queue| && forall i :: 0 <= i < |queue| ==> (now - queue[i].timestamp >= 30_000_000_000 <==> i < n)
  }

  /** The record after the first `expired` entries have expired and the next `sent` have been sent. */
  ghost function After(record: Record, queue: seq<Entry>, expired: nat, sent: nat, now: nat): Record
    requires expired + sent <= |queue|
  {
    Record(
      record.channel + Ids(queue[expired..expired + sent]),
      record.resolved + seq(expired + sent, i requires 0 <= i < expired + sent =>
        Resolution(queue[i].id, if i < expired then Expired(queue[i].timestamp, now) else Sent)))
  }

  lemma AfterSend(record: Record, queue: seq<Entry>, sent: nat, now: nat)
    requires 0 < sent <= |queue|
    ensures After(record.Send(queue[0].id), queue[1..], 0, sent - 1, now) == After(record, queue, 0, sent, now)
  {
    var p := After(record.Send(queue[0].id), queue[1..], 0, sent - 1, now);
    var q := After(record, queue, 0, sent, now);
    assert queue[0..sent] == [queue[0]] + queue[1..][0..sent - 1];
    assert p.channel == q.channel;
    var n := |record.resolved|;
    forall i | 0 <= i < |p.resolved| ensures p.resolved[i] == q.resolved[i] {
      if i > n {
        assert queue[1..][i - n - 1] == queue[i - n];
      }
    }
    assert p.resolved == q.resolved;
  }

  lemma {:induction false} FlushSends(record: Record, queue: seq<Entry>, now: nat, room: nat)
    requires ExpiredAre(queue, now, 0)
    ensures var m := if room < |queue| then room else |queue|;
            FlushOf(record, queue, now, room) == (After(record, queue, 0, m, now), queue[m..])
    decreases |queue|
  {
    var m := if room < |queue| then room else |queue|;
    if m == 0 {
      assert After(record, queue, 0, 0, now) == record;
    } else {
      FlushSends(record.Send(queue[0].id), queue[1..], now, room - 1);
      AfterSend(record, queue, m, now);
      assert queue[1..][m - 1..] == queue[m..];
    }
  }

  lemma TailSlices(queue: seq<Entry>, i: nat, j: nat)
    requires 0 < i <= j <= |queue|
    ensures queue[1..][i - 1..j - 1] == queue[i..j] && queue[1..][j - 1..] == queue[j..]
  {
  }

  lemma AfterExpire(record: Record, queue: seq<Entry>, expired: nat, sent: nat, now: nat)
    requires 0 < expired && expired + sent <= |queue|
    ensures After(record.Expire(queue[0], now), queue[1..], expired - 1, sent, now).resolved ==
            After(record, queue, expired, sent, now).resolved
  {
    var p := After(record.Expire(queue[0], now), queue[1..], expired - 1, sent, now).resolved;
    var q := After(record, queue, expired, sent, now).resolved;
    var n := |record.resolved|;
    assert |p| == |q|;
    forall i | 0 <= i < |p| ensures p[i] == q[i] {
      if i > n {
        assert queue[1..][i - n - 1] == queue[i - n];
      }
    }
  }

  /**
   * A flush of a queue in order of time drops exactly the expired entries, which come first, sends
   * as many of the others as there is room for, and keeps the rest, all in order.
   */
  lemma {:induction false} FlushSplits(record: Record, queue: seq<Entry>, now: nat, room: nat, expired: nat)
    requires ExpiredAre(queue, now, expired)
    ensures var m := if room < |queue| - expired then room else |queue| - expired;
            FlushOf(record, queue, now, room) == (After(record, queue, expired, m, now), queue[expired + m..])
    decreases expired
  {
    if expired == 0 {
      FlushSends(record, queue, now, room);
    } else {
      var m := if room < |queue| - expired then room else |queue| - expired;
      var record1 := record.Expire(queue[0], now);
      FlushSplits(record1, queue[1..], now, room, expired - 1);
      TailSlices(queue, expired, expired + m);
      AfterExpire(record, queue, expired, m, now);
    }
  }

  /** In a queue in order of time the expired entries come first. */
  lemma {:induction false} ExpiredComeFirst(queue: seq<Entry>, now: nat) returns (expired: nat)
    requires Sorted(queue)
    ensures ExpiredAre(queue, now, expired)
  {
    if queue == [] {
      expired := 0;
    } else if IsExpired(queue[|queue| - 1], now) {
      expired := |queue|;
    } else {
      expired := ExpiredComeFirst(queue[..|queue| - 1], now);
    }
  }

  // ---------------------------------------------------------------------------------------------
  // The main task and the ticker

  /** The main task, with the candidates it holds. */
  datatype Main =
    | Waiting
    | Locking(held: seq<nat>)
    | Sending(held: seq<nat>)
    | Enqueueing(held: seq<nat>)
    | Ended(held: seq<nat>)

  datatype State = State(clock: nat, extracted: nat, queue: seq<Entry>, record: Record, main: Main)

  datatype SendResult = Ok | Full | Closed

  datatype Action =
    | Wait(nanoseconds: nat)
    | Extract(count: nat)
    | MainFlush(room: nat)
    | MainSend(result: SendResult)
    | MainEnqueue
    | TickerFlush(room: nat)
    | CloseInput

  const INITIAL := State(0, 0, [], Record([], []), Waiting)

  /** A flush, and adding to the queue, are each one step: the queue's lock is held throughout. */
  predicate Enabled(s: State, a: Action) {
    match a
    case Extract(_) => s.main.Waiting?
    case MainFlush(_) => s.main.Locking?
    case MainSend(_) => s.main.Sending? && s.main.held != []
    case MainEnqueue => s.main.Enqueueing?
    case CloseInput => s.main.Waiting?
    case _ => true
  }

  function From(first: nat, count: nat): (r: seq<nat>)
    ensures |r| == count
  {
    seq(count, i => first + i)
  }

  function Stamped(ids: seq<nat>, timestamp: nat): (r: seq<Entry>)
    ensures |r| == |ids|
  {
    seq(|ids|, i requires 0 <= i < |ids| => Entry(timestamp, ids[i]))
  }

  function Flushed(s: State, room: nat): State {
    var (record, queue) := FlushOf(s.record, s.queue, s.clock, room);
    s.(record := record, queue := queue)
  }

  function Enqueued(s: State): State
    requires !s.main.Waiting?
  {
    s.(queue := s.queue + Stamped(s.main.held, s.clock), main := Waiting)
  }

  function MainSent(s: State, result: SendResult): State
    requires s.main.Sending? && s.main.held != []
  {
    var id := s.main.held[0];
    var rest := s.main.held[1..];
    match result
    case Ok => s.(record := s.record.Send(id), main := if rest == [] then Waiting else Sending(rest))
    case Full => s.(main := Enqueueing(s.main.held))
    case Closed => s.(main := Ended(s.main.held))
  }

  function MainFlushed(s: State, room: nat): State
    requires s.main.Locking?
  {
    var s1 := Flushed(s, room);
    if s1.queue == [] then s1.(main := Sending(s.main.held)) else Enqueued(s1)
  }

  function Next(s: State, a: Action): State
    requires Enabled(s, a)
  {
    match a
    case Wait(d) => s.(clock := s.clock + d)
    case Extract(count) =>
      if count == 0 then s
      else s.(extracted := s.extracted + count, main := Locking(From(s.extracted, count)))
    case MainFlush(room) => MainFlushed(s, room)
    case MainSend(result) => MainSent(s, result)
    case MainEnqueue => Enqueued(s)
    case TickerFlush(room) => Flushed(s, room)
    case CloseInput => s.(main := Ended([]))
  }

  // ---------------------------------------------------------------------------------------------
  // What every step keeps

  function Held(m: Main): seq<nat> {
    if m.Waiting? then [] else m.held
  }

  function Resolved(rs: seq<Resolution>): (r: seq<nat>)
    ensures |r| == |rs|
  {
    seq(|rs|, i requires 0 <= i < |rs| => rs[i].id)
  }

  function SentIds(rs: seq<Resolution>): (r: seq<nat>) {
    if rs == [] then []
    else
      var n := |rs| - 1;
      if rs[n].fate == Sent then SentIds(rs[..n]) + [rs[n].id] else SentIds(rs[..n])
  }

  /** The record is consistent, and what it calls expired had waited long enough. */
  ghost predicate Honest(record: Record) {
    && record.channel == SentIds(record.resolved)
    && forall i :: 0 <= i < |record.resolved| && record.resolved[i].fate.Expired? ==>
         record.resolved[i].fate.dropped - record.resolved[i].fate.queued >= 30_000_000_000
  }

  ghost predicate Timed(queue: seq<Entry>, clock: nat) {
    Sorted(queue) && forall i :: 0 <= i < |queue| ==> queue[i].timestamp <= clock
  }

  /** The main task has flushed and not queued anything since. */
  predicate PastFlush(m: Main) {
    m.Sending? || m.Enqueueing?
  }

  ghost predicate Inv(s: State) {
    && From(0, s.extracted) == Resolved(s.record.resolved) + Ids(s.queue) + Held(s.main)
    && Honest(s.record)
    && Timed(s.queue, s.clock)
    && (PastFlush(s.main) ==> s.queue == [])
  }

  lemma ResolvedAfter(rs: seq<Resolution>, r: Resolution)
    ensures Resolved(rs + [r]) == Resolved(rs) + [r.id]
    ensures SentIds(rs + [r]) == if r.fate == Sent then SentIds(rs) + [r.id] else SentIds(rs)
  {
    assert (rs + [r])[..|rs|] == rs;
  }

  lemma SendKeepsHonest(record: Record, id: nat)
    requires Honest(record)
    ensures Honest(record.Send(id))
  {
    ResolvedAfter(record.resolved, Resolution(id, Sent));
  }

  lemma ExpireKeepsHonest(record: Record, e: Entry, now: nat)
    requires Honest(record) && IsExpired(e, now)
    ensures Honest(record.Expire(e, now))
  {
    ResolvedAfter(record.resolved, Resolution(e.id, Expired(e.timestamp, now)));
  }

  lemma {:induction false} FlushKeepsHonest(record: Record, queue: seq<Entry>, now: nat, room: nat)
    requires Honest(record)
    ensures Honest(FlushOf(record, queue, now, room).0)
    decreases |queue|
  {
    if queue != [] {
      var e := queue[0];
      if IsExpired(e, now) {
        ExpireKeepsHonest(record, e, now);
        FlushKeepsHonest(record.Expire(e, now), queue[1..], now, room);
      } else if room > 0 {
        SendKeepsHonest(record, e.id);
        FlushKeepsHonest(record.Send(e.id), queue[1..], now, room - 1);
      }
    }
  }

  lemma {:induction false} FlushKeepsTimed(record: Record, queue: seq<Entry>, now: nat, room: nat)
    requires Timed(queue, now)
    ensures Timed(FlushOf(record, queue, now, room).1, now)
    decreases |queue|
  {
    if queue != [] {
      var e := queue[0];
      if IsExpired(e, now) {
        FlushKeepsTimed(record.Expire(e, now), queue[1..], now, room);
      } else if room > 0 {
        FlushKeepsTimed(record.Send(e.id), queue[1..], now, room - 1);
      }
    }
  }

  /** The candidates of the queue's first entry and of the rest, after one more resolution. */
  lemma ResolveFirst(rs: seq<Resolution>, r: Resolution, queue: seq<Entry>)
    requires queue != [] && r.id == queue[0].id
    ensures Resolved(rs + [r]) + Ids(queue[1..]) == Resolved(rs) + Ids(queue)
  {
    ResolvedAfter(rs, r);
    assert Ids(queue) == [r.id] + Ids(queue[1..]);
    Regroup(Resolved(rs), r.id, Ids(queue[1..]));
  }

  lemma Regroup(p: seq<nat>, x: nat, q: seq<nat>)
    ensures p + [x] + q == p + ([x] + q)
  {
  }

  /** No candidate is lost, and none changes place, in a flush. */
  lemma {:induction false} FlushConserves(record: Record, queue: seq<Entry>, now: nat, room: nat)
    ensures Resolved(FlushOf(record, queue, now, room).0.resolved) + Ids(FlushOf(record, queue, now, room).1) ==
            Resolved(record.resolved) + Ids(queue)
    decreases |queue|
  {
    if queue != [] {
      var e := queue[0];
      if IsExpired(e, now) {
        ResolveFirst(record.resolved, Resolution(e.id, Expired(e.timestamp, now)), queue);
        FlushConserves(record.Expire(e, now), queue[1..], now, room);
      } else if room > 0 {
        ResolveFirst(record.resolved, Resolution(e.id, Sent), queue);
        FlushConserves(record.Send(e.id), queue[1..], now, room - 1);
      }
    }
  }

  lemma FlushedKeepsInv(s: State, room: nat)
    requires Inv(s)
    ensures Inv(Flushed(s, room))
  {
    FlushKeepsHonest(s.record, s.queue, s.clock, room);
    FlushKeepsTimed(s.record, s.queue, s.clock, room);
    FlushConserves(s.record, s.queue, s.clock, room);
  }

  lemma EnqueuedKeepsInv(s: State)
    requires Inv(s) && !s.main.Waiting?
    ensures Inv(Enqueued(s))
  {
    assert Ids(s.queue + Stamped(s.main.held, s.clock)) == Ids(s.queue) + s.main.held;
  }

  lemma TakeFirst(done: seq<nat>, waiting: seq<nat>, held: seq<nat>)
    requires waiting == [] && held != []
    ensures done + [held[0]] + waiting + held[1..] == done + waiting + held
  {
  }

  lemma MainSentKeepsInv(s: State, result: SendResult)
    requires Inv(s) && Enabled(s, MainSend(result))
    ensures Inv(MainSent(s, result))
  {
    if result == Ok {
      var held := s.main.held;
      SendKeepsHonest(s.record, held[0]);
      ResolvedAfter(s.record.resolved, Resolution(held[0], Sent));
      TakeFirst(Resolved(s.record.resolved), Ids(s.queue), held);
    }
  }

  lemma ExtractKeepsInv(s: State, count: nat)
    requires Inv(s) && s.main.Waiting?
    ensures Inv(Next(s, Extract(count)))
  {
    assert From(0, s.extracted + count) == From(0, s.extracted) + From(s.extracted, count);
  }

  lemma NextKeepsInv(s: State, a: Action)
    requires Inv(s) && Enabled(s, a)
    ensures Inv(Next(s, a))
  {
    match a
    case Extract(count) => ExtractKeepsInv(s, count);
    case MainFlush(room) =>
      FlushedKeepsInv(s, room);
      EnqueuedKeepsInv(Flushed(s, room));
    case MainSend(result) => MainSentKeepsInv(s, result);
    case MainEnqueue => EnqueuedKeepsInv(s);
    case TickerFlush(room) => FlushedKeepsInv(s, room);
    case _ =>
  }

  // ---------------------------------------------------------------------------------------------
  // Main results

  ghost predicate IsRun(states: seq<State>, actions: seq<Action>) {
    && |states| == |actions| + 1
    && states[0] == INITIAL
    && forall i {:trigger actions[i]} :: 0 <= i < |actions| ==>
         Enabled(states[i], actions[i]) && states[i + 1] == Next(states[i], actions[i])
  }

  lemma {:induction false} InvThroughout(states: seq<State>, actions: seq<Action>, n: nat)
    requires IsRun(states, actions) && n <= |actions|
    ensures Inv(states[n])
  {
    if n > 0 {
      InvThroughout(states, actions, n - 1);
      NextKeepsInv(states[n - 1], actions[n - 1]);
    }
  }

  lemma {:induction false} SentInOrder(rs: seq<Resolution>)
    requires Resolved(rs) == From(0, |rs|)
    ensures forall i, j :: 0 <= i < j < |SentIds(rs)| ==> SentIds(rs)[i] < SentIds(rs)[j]
    ensures forall id :: id in SentIds(rs) <==> 0 <= id < |rs| && rs[id].fate == Sent
  {
    if rs != [] {
      var n := |rs| - 1;
      assert Resolved(rs)[n] == n;
      assert Resolved(rs[..n]) == Resolved(rs)[..n] == From(0, n);
      SentInOrder(rs[..n]);
      var before := SentIds(rs[..n]);
      forall i | 0 <= i < |before| ensures before[i] < n {
        assert before[i] in before;
      }
    }
  }

  /** How many candidates the first `n` streamer messages and other steps bring. */
  function Arrived(actions: seq<Action>, n: nat): nat
    requires n <= |actions|
  {
    if n == 0 then 0
    else Arrived(actions, n - 1) + if actions[n - 1].Extract? then actions[n - 1].count else 0
  }

  /** All of them are taken up. */
  lemma {:induction false} AllAreExtracted(states: seq<State>, actions: seq<Action>, n: nat)
    requires IsRun(states, actions) && n <= |actions|
    ensures states[n].extracted == Arrived(actions, n)
  {
    if n > 0 {
      AllAreExtracted(states, actions, n - 1);
      assert states[n] == Next(states[n - 1], actions[n - 1]);
    }
  }

  /**
   * In every interleaving of the main task and the ticker, the channel carries candidates in the
   * order they arrived, none twice. One that has not gone into it has waited in the queue
   * for the whole expiry time, or is still queued, or is held by the main task.
   */
  lemma ChannelCarriesInOrder(states: seq<State>, actions: seq<Action>, n: nat)
    requires IsRun(states, actions) && n <= |actions|
    ensures var s := states[n];
            && (forall i, j :: 0 <= i < j < |s.record.channel| ==> s.record.channel[i] < s.record.channel[j])
            && forall id :: 0 <= id < Arrived(actions, n) ==>
                 || id in s.record.channel
                 || Late(s.record, id)
                 || id in Ids(s.queue)
                 || id in Held(s.main)
  {
    InvThroughout(states, actions, n);
    AllAreExtracted(states, actions, n);
    var s := states[n];
    var all := From(0, s.extracted);
    var m := |s.record.resolved|;
    assert all[..m] == Resolved(s.record.resolved);
    assert all[..m] == From(0, m);
    SentInOrder(s.record.resolved);
    forall id | 0 <= id < s.extracted
      ensures id in s.record.channel || Late(s.record, id) || id in Ids(s.queue) || id in Held(s.main)
    {
      assert all[id] == id;
      if id < m {
        assert Resolved(s.record.resolved)[id] == id;
      }
    }
  }

  /** Candidate `id` was dropped, at least the expiry time after it was queued. */
  ghost predicate Late(record: Record, id: int) {
    && 0 <= id < |record.resolved|
    && record.resolved[id].id == id
    && record.resolved[id].fate.Expired?
    && record.resolved[id].fate.dropped - record.resolved[id].fate.queued >= 30_000_000_000
  }

  /** Nothing goes into the channel past a queued candidate. */
  lemma QueuedComeAfter(states: seq<State>, actions: seq<Action>, n: nat, i: nat, k: nat)
    requires IsRun(states, actions) && n <= |actions|
    requires i < |states[n].record.channel| && k < |states[n].queue|
    ensures states[n].record.channel[i] < states[n].queue[k].id
    ensures !PastFlush(states[n].main)
  {
    InvThroughout(states, actions, n);
    var s := states[n];
    var all := From(0, s.extracted);
    var m := |s.record.resolved|;
    assert all[..m] == Resolved(s.record.resolved);
    assert all[..m] == From(0, m);
    SentInOrder(s.record.resolved);
    assert s.record.channel[i] in s.record.channel;
    assert all[m + k] == Ids(s.queue)[k] == s.queue[k].id;
  }

  // ---------------------------------------------------------------------------------------------
  // Who is queued, and for how long

  /** The step after `states[i]` puts candidate `id` from the main task's hand into the queue. */
  ghost predicate QueuedAt(states: seq<State>, i: nat, id: nat) {
    i + 1 < |states| && id in Held(states[i].main) && id in Ids(states[i + 1].queue)
  }

  lemma {:induction false} FlushKeepsSuffix(record: Record, queue: seq<Entry>, now: nat, room: nat)
    ensures var rest := FlushOf(record, queue, now, room).1;
            |rest| <= |queue| && rest == queue[|queue| - |rest|..]
    decreases |queue|
  {
    if queue != [] {
      var e := queue[0];
      if IsExpired(e, now) {
        FlushKeepsSuffix(record.Expire(e, now), queue[1..], now, room);
      } else if room > 0 {
        FlushKeepsSuffix(record.Send(e.id), queue[1..], now, room - 1);
      }
    }
  }

  lemma FlushKeepsEntries(s: State, room: nat, e: Entry)
    requires e in Flushed(s, room).queue
    ensures e in s.queue
  {
    FlushKeepsSuffix(s.record, s.queue, s.clock, room);
  }

  /** An entry of the queue was there before, or was in hand and is stamped with the time. */
  lemma EntryComesFrom(s: State, a: Action, e: Entry)
    requires Enabled(s, a) && e in Next(s, a).queue
    ensures e in s.queue || (e.id in Held(s.main) && e.timestamp == s.clock)
  {
    if a.MainFlush? {
      FlushedOrStamped(s, a.room, e);
    } else if a.TickerFlush? {
      FlushKeepsEntries(s, a.room, e);
    } else if a == MainEnqueue {
      StampedFrom(s.queue, s.main.held, s.clock, e);
    }
  }

  lemma FlushedOrStamped(s: State, room: nat, e: Entry)
    requires s.main.Locking? && e in MainFlushed(s, room).queue
    ensures e in s.queue || (e.id in s.main.held && e.timestamp == s.clock)
  {
    var s1 := Flushed(s, room);
    if s1.queue != [] {
      StampedFrom(s1.queue, s.main.held, s.clock, e);
    }
    if e in s1.queue {
      FlushKeepsEntries(s, room, e);
    }
  }

  lemma StampedFrom(queue: seq<Entry>, held: seq<nat>, timestamp: nat, e: Entry)
    requires e in queue + Stamped(held, timestamp)
    ensures e in queue || (e.id in held && e.timestamp == timestamp)
  {
  }

  /** Every entry is stamped with the moment it was queued. */
  lemma {:induction false} StampedWhenQueued(states: seq<State>, actions: seq<Action>, n: nat, e: Entry)
    requires IsRun(states, actions) && n <= |actions| && e in states[n].queue
    ensures exists i :: 0 <= i < n && QueuedAt(states, i, e.id) && states[i].clock == e.timestamp
  {
    var s := states[n - 1];
    EntryComesFrom(s, actions[n - 1], e);
    if e in s.queue {
      StampedWhenQueued(states, actions, n - 1, e);
    } else {
      var k :| 0 <= k < |states[n].queue| && states[n].queue[k] == e;
      assert Ids(states[n].queue)[k] == e.id;
      assert QueuedAt(states, n - 1, e.id);
    }
  }

  /** What a flush drops had been in the queue for thirty seconds. */
  lemma {:induction false} FlushDropsOld(record: Record, queue: seq<Entry>, now: nat, room: nat, k: nat)
    requires |record.resolved| <= k < |FlushOf(record, queue, now, room).0.resolved|
    requires FlushOf(record, queue, now, room).0.resolved[k].fate.Expired?
    ensures var r := FlushOf(record, queue, now, room).0.resolved[k];
            exists e :: e in queue && r.id == e.id && now - e.timestamp >= 30_000_000_000
    decreases |queue|
  {
    if queue != [] {
      var e := queue[0];
      var next := if IsExpired(e, now) then record.Expire(e, now) else record.Send(e.id);
      if IsExpired(e, now) || room > 0 {
        FlushAppends(next, queue[1..], now, if IsExpired(e, now) then room else room - 1);
        if k > |record.resolved| {
          FlushDropsOld(next, queue[1..], now, if IsExpired(e, now) then room else room - 1, k);
        } else {
          assert e in queue;
        }
      }
    }
  }

  lemma {:induction false} FlushAppends(record: Record, queue: seq<Entry>, now: nat, room: nat)
    ensures record.resolved <= FlushOf(record, queue, now, room).0.resolved
    decreases |queue|
  {
    if queue != [] {
      var e := queue[0];
      if IsExpired(e, now) {
        FlushAppends(record.Expire(e, now), queue[1..], now, room);
      } else if room > 0 {
        FlushAppends(record.Send(e.id), queue[1..], now, room - 1);
      }
    }
  }

  /** A step drops only what is in the queue and has been there for thirty seconds. */
  lemma StepDropsOld(s: State, a: Action, k: nat)
    requires Enabled(s, a) && |s.record.resolved| <= k < |Next(s, a).record.resolved|
    requires Next(s, a).record.resolved[k].fate.Expired?
    ensures var r := Next(s, a).record.resolved[k];
            exists e :: e in s.queue && r.id == e.id && s.clock - e.timestamp >= 30_000_000_000
  {
    if a.MainFlush? || a.TickerFlush? {
      FlushDropsOld(s.record, s.queue, s.clock, a.room, k);
    }
  }

  lemma StepAppends(s: State, a: Action)
    requires Enabled(s, a)
    ensures s.record.resolved <= Next(s, a).record.resolved
  {
    if a.MainFlush? || a.TickerFlush? {
      FlushAppends(s.record, s.queue, s.clock, a.room);
    }
  }

  /**
   * In every run, a candidate that was dropped had been put into the queue at some step, and thirty
   * seconds or more had passed by the step that dropped it.
   */
  lemma {:induction false} DroppedHadWaited(states: seq<State>, actions: seq<Action>, n: nat, k: nat)
    requires IsRun(states, actions) && n <= |actions| && k < |states[n].record.resolved|
    requires states[n].record.resolved[k].fate.Expired?
    ensures exists i, j :: 0 <= i < j < n && QueuedAt(states, i, states[n].record.resolved[k].id)
              && states[j].clock - states[i].clock >= 30_000_000_000
  {
    var s, a := states[n - 1], actions[n - 1];
    StepAppends(s, a);
    if k < |s.record.resolved| {
      DroppedHadWaited(states, actions, n - 1, k);
    } else {
      StepDropsOld(s, a, k);
      var e :| e in s.queue && states[n].record.resolved[k].id == e.id && s.clock - e.timestamp >= 30_000_000_000;
      StampedWhenQueued(states, actions, n - 1, e);
    }
  }

  /**
   * The main task queues what it holds at a flush exactly if more is left of the queue than there is
   * room for once what is thirty seconds old is dropped; otherwise it goes on to send it.
   */
  lemma QueuesAtFlushIff(s: State, room: nat, expired: nat)
    requires Inv(s) && s.main.Locking? && ExpiredAre(s.queue, s.clock, expired)
    ensures var r := Next(s, MainFlush(room));
            if |s.queue| - expired > room then
              r.main == Waiting && Ids(r.queue) == Ids(s.queue)[expired + room..] + s.main.held
            else
              r.main == Sending(s.main.held) && r.queue == []
  {
    FlushSplits(s.record, s.queue, s.clock, room, expired);
    if |s.queue| - expired > room {
      var rest := s.queue[expired + room..];
      assert Ids(rest + Stamped(s.main.held, s.clock)) == Ids(rest) + s.main.held;
      assert Ids(rest) == Ids(s.queue)[expired + room..];
    }
  }

  /** What ends the main task: the end of its input, or a closed channel. */
  lemma EndsIff(s: State, a: Action)
    requires Enabled(s, a) && !s.main.Ended?
    ensures Next(s, a).main.Ended? <==> a == CloseInput || a == MainSend(Closed)
  {
  }
}
