/**
 * The operator's queue of messages the aggregator has not taken yet: compacted in place on every
 * tick, with a count of rejections per entry.
 */
module ResendQueue {

  const MAX_RETRIES: nat := 10

  /** A queued message, known by its number, with its rejected resends. */
  datatype Entry = Entry(id: nat, retries: nat)

  datatype Outcome = Delivered | Rejected | NetworkError

  /** What a rejected entry leaves in the queue. */
  function Retried(e: Entry): seq<Entry> {
    if e.retries + 1 >= MAX_RETRIES then [] else [e.(retries := e.retries + 1)]
  }

  /** The queue after a tick in which the `i`-th entry's resend would have outcome `os[i]`. */
  function Resent(q: seq<Entry>, os: seq<Outcome>): (r: seq<Entry>)
    requires |q| <= |os|
  {
    if q == [] then []
    else match os[0]
      case NetworkError => q
      case Delivered => Resent(q[1..], os[1..])
      case Rejected => Retried(q[0]) + Resent(q[1..], os[1..])
  }

  // ---------------------------------------------------------------------------------------------
  // The compaction in place

  /** What the first `n` entries leave, none of them having met a network error. */
  ghost function Kept(q: seq<Entry>, os: seq<Outcome>, n: nat): (r: seq<Entry>)
    requires n <= |q| <= |os|
    ensures |r| <= n
  {
    if n == 0 then []
    else if os[n - 1] == Rejected then Kept(q, os, n - 1) + Retried(q[n - 1])
    else Kept(q, os, n - 1)
  }

  ghost predicate Connected(os: seq<Outcome>, n: nat)
    requires n <= |os|
  {
    forall i :: 0 <= i < n ==> os[i] != NetworkError
  }

  lemma KeptNext(q: seq<Entry>, os: seq<Outcome>, n: nat)
    requires n < |q| <= |os| && Connected(os, n) && os[n] != NetworkError
    ensures Connected(os, n + 1)
    ensures Kept(q, os, n + 1) == if os[n] == Rejected then Kept(q, os, n) + Retried(q[n]) else Kept(q, os, n)
  {
  }

  /** The first `n` entries leave what they leave, whatever follows them. */
  lemma {:induction false} ResentSplits(q: seq<Entry>, os: seq<Outcome>, n: nat)
    requires n <= |q| <= |os| && Connected(os, n)
    ensures Resent(q, os) == Kept(q, os, n) + Resent(q[n..], os[n..])
    decreases n
  {
    if n == 0 {
      assert q[0..] == q && os[0..] == os;
    } else {
      ResentSplits(q, os, n - 1);
      assert q[n - 1..][1..] == q[n..] && os[n - 1..][1..] == os[n..];
    }
  }

  /** The loop has left `kept` at `lo` in place of the first `i` entries of `q`, and not touched the others. */
  ghost predicate InPlace(s: seq<Entry>, lo: nat, q: seq<Entry>, kept: seq<Entry>, i: nat) {
    && |kept| <= i <= |q| && lo + |q| <= |s|
    && s[lo..lo + |kept|] == kept
    && s[lo + i..lo + |q|] == q[i..]
  }

  lemma InPlaceAt(s: seq<Entry>, lo: nat, q: seq<Entry>, kept: seq<Entry>, i: nat)
    requires i < |q| && InPlace(s, lo, q, kept, i)
    ensures s[lo + i] == q[i]
  {
    assert s[lo + i] == s[lo + i..lo + |q|][0];
  }

  lemma InPlaceSkips(s: seq<Entry>, lo: nat, q: seq<Entry>, kept: seq<Entry>, i: nat)
    requires i < |q| && InPlace(s, lo, q, kept, i)
    ensures InPlace(s, lo, q, kept, i + 1)
  {
    assert s[lo + i + 1..lo + |q|] == s[lo + i..lo + |q|][1..];
  }

  lemma InPlaceKeeps(s: seq<Entry>, lo: nat, q: seq<Entry>, kept: seq<Entry>, i: nat, e: Entry)
    requires i < |q| && InPlace(s, lo, q, kept, i)
    ensures InPlace(s[lo + |kept| := e], lo, q, kept + [e], i + 1)
  {
    var t := s[lo + |kept| := e];
    assert t[lo..lo + |kept| + 1] == kept + [e];
    assert t[lo + i + 1..lo + |q|] == s[lo + i..lo + |q|][1..];
  }

  lemma InPlaceAtFirst(a: array<Entry>, lo: nat, hi: nat)
    requires lo <= hi <= a.Length
    ensures InPlace(a[..], lo, a[lo..hi], [], 0)
  {
    assert a[..][lo..hi] == a[lo..hi];
  }

  lemma InPlaceSlices(a: array<Entry>, lo: nat, hi: nat, q: seq<Entry>, kept: seq<Entry>, i: nat)
    requires lo <= hi <= a.Length && |q| == hi - lo && InPlace(a[..], lo, q, kept, i)
    ensures a[lo..lo + |kept|] == kept && a[lo + i..hi] == q[i..]
  {
    assert a[lo..lo + |kept|] == a[..][lo..lo + |kept|];
    assert a[lo + i..hi] == a[..][lo + i..hi];
  }

  // ---------------------------------------------------------------------------------------------
  // What a tick leaves

  /** `picked` are the entries, of the first `n`, whose resend was rejected, but not for the tenth time. */
  ghost predicate PicksRetried(q: seq<Entry>, os: seq<Outcome>, n: nat, picked: seq<nat>)
    requires n <= |q| <= |os|
  {
    && (forall i, j :: 0 <= i < j < |picked| ==> picked[i] < picked[j])
    && (forall k <- picked :: k < n)
    && forall k :: 0 <= k < n ==> (k in picked <==> os[k] == Rejected && q[k].retries + 1 < 10)
  }

  /** They are kept in order, with one more retry. */
  ghost predicate KeepsRetried(q: seq<Entry>, picked: seq<nat>, kept: seq<Entry>) {
    && |kept| == |picked|
    && forall i :: 0 <= i < |picked| ==>
      picked[i] < |q| && kept[i] == Entry(q[picked[i]].id, q[picked[i]].retries + 1)
  }

  /**
   * The tick resends up to its first network error, the `n`-th if there is one. Of the entries before it
   * those picked are kept, and from there on every entry is left as it was.
   */
  ghost predicate LeavesAfter(q: seq<Entry>, os: seq<Outcome>, n: nat, picked: seq<nat>, after: seq<Entry>)
    requires |q| <= |os|
  {
    && n <= |q| && (forall i :: 0 <= i < n ==> os[i] != NetworkError) && (n < |q| ==> os[n] == NetworkError)
    && PicksRetried(q, os, n, picked)
    && |after| == |picked| + (|q| - n) && KeepsRetried(q, picked, after[..|picked|]) && after[|picked|..] == q[n..]
  }

  ghost function Picked(q: seq<Entry>, os: seq<Outcome>, n: nat): seq<nat>
    requires n <= |q| <= |os|
  {
    if n == 0 then []
    else if os[n - 1] == Rejected && q[n - 1].retries + 1 < 10 then Picked(q, os, n - 1) + [n - 1]
    else Picked(q, os, n - 1)
  }

  lemma {:induction false} PickedAre(q: seq<Entry>, os: seq<Outcome>, n: nat)
    requires n <= |q| <= |os|
    ensures PicksRetried(q, os, n, Picked(q, os, n))
  {
    if n > 0 {
      PickedAre(q, os, n - 1);
      PickNext(q, os, n, Picked(q, os, n - 1));
    }
  }

  lemma {:induction false} KeptArePicked(q: seq<Entry>, os: seq<Outcome>, n: nat)
    requires n <= |q| <= |os|
    ensures KeepsRetried(q, Picked(q, os, n), Kept(q, os, n))
  {
    if n > 0 {
      KeptArePicked(q, os, n - 1);
      KeptLast(q, os, n);
      KeepOneMore(q, Picked(q, os, n - 1), Kept(q, os, n - 1), n - 1);
    }
  }

  lemma KeptLast(q: seq<Entry>, os: seq<Outcome>, n: nat)
    requires 0 < n <= |q| <= |os|
    ensures if os[n - 1] == Rejected && q[n - 1].retries + 1 < 10
      then Kept(q, os, n) == Kept(q, os, n - 1) + [Entry(q[n - 1].id, q[n - 1].retries + 1)]
      else Kept(q, os, n) == Kept(q, os, n - 1)
  {
  }

  lemma KeepOneMore(q: seq<Entry>, picked: seq<nat>, kept: seq<Entry>, k: nat)
    requires KeepsRetried(q, picked, kept) && k < |q|
    ensures KeepsRetried(q, picked + [k], kept + [Entry(q[k].id, q[k].retries + 1)])
  {
  }

  lemma PickNext(q: seq<Entry>, os: seq<Outcome>, n: nat, before: seq<nat>)
    requires 0 < n <= |q| <= |os| && PicksRetried(q, os, n - 1, before)
    ensures PicksRetried(q, os, n,
      if os[n - 1] == Rejected && q[n - 1].retries + 1 < 10 then before + [n - 1] else before)
  {
    var keep := os[n - 1] == Rejected && q[n - 1].retries + 1 < 10;
    var picked := if keep then before + [n - 1] else before;
    assert forall i :: 0 <= i < |before| ==> before[i] in before;
    assert n - 1 !in before;
    forall k | 0 <= k < n ensures k in picked <==> os[k] == Rejected && q[k].retries + 1 < 10 {
      assert k < n - 1 ==> (k in picked <==> k in before);
    }
  }

  lemma ResentIs(q: seq<Entry>, os: seq<Outcome>, n: nat)
    requires n <= |q| <= |os| && Connected(os, n) && (n < |q| ==> os[n] == NetworkError)
    ensures LeavesAfter(q, os, n, Picked(q, os, n), Resent(q, os))
  {
    PickedAre(q, os, n);
    KeptArePicked(q, os, n);
    ResentSplits(q, os, n);
    var kept := Kept(q, os, n);
    assert Resent(q[n..], os[n..]) == q[n..];
    assert (kept + q[n..])[..|kept|] == kept && (kept + q[n..])[|kept|..] == q[n..];
  }

  lemma FirstNetworkError(q: seq<Entry>, os: seq<Outcome>) returns (n: nat)
    requires |q| <= |os|
    ensures n <= |q| && Connected(os, n) && (n < |q| ==> os[n] == NetworkError)
  {
    n := 0;
    while n < |q| && os[n] != NetworkError
      invariant n <= |q| && Connected(os, n)
    {
      n := n + 1;
    }
  }

  class RpcClient {
    /** The slice `buffer[lo..hi]` of a backing array. */
    var buffer: array<Entry>
    var lo: nat
    var hi: nat

    ghost predicate Valid()
      reads this
    {
      lo <= hi <= buffer.Length
    }

    ghost function Queue(): seq<Entry>
      requires Valid()
      reads this, buffer
    {
      buffer[lo..hi]
    }

    constructor ()
      ensures Valid() && fresh(buffer) && Queue() == []
    {
      buffer, lo, hi := new Entry[0], 0, 0;
    }

    /** `append`: in place if the backing array has room, else into a larger one. */
    method Append(id: nat)
      requires Valid()
      modifies this, buffer
      ensures Valid() && (buffer == old(buffer) || fresh(buffer))
      ensures Queue() == old(Queue()) + [Entry(id, 0)]
    {
      if hi == buffer.Length {
        var n := hi - lo;
        var larger := new Entry[2 * n + 1](i requires 0 <= i reads this, buffer =>
          if lo + i < hi && hi <= buffer.Length then buffer[lo + i] else Entry(id, 0));
        buffer, lo, hi := larger, 0, n;
      }
      buffer[hi] := Entry(id, 0);
      hi := hi + 1;
    }

    /** Moves the entries from `i` on down to `errorPos`. */
    static method MoveDown(a: array<Entry>, lo: nat, hi: nat, errorPos: nat, i: nat)
      requires lo <= hi <= a.Length && errorPos <= i <= hi - lo
      modifies a
      ensures a[lo..hi - (i - errorPos)] == old(a[lo..lo + errorPos]) + old(a[lo + i..hi])
    {
      ghost var rest := a[lo + i..hi];
      var pos := errorPos;
      for j := i to hi - lo
        invariant pos == errorPos + (j - i)
        invariant forall k :: lo <= k < lo + errorPos ==> a[k] == old(a[k])
        invariant forall k {:trigger a[k]} :: lo + errorPos <= k < lo + pos ==> a[k] == rest[k - lo - errorPos]
        invariant forall k {:trigger a[k]} :: lo + j <= k < hi ==> a[k] == rest[k - lo - i]
      {
        a[lo + pos] := a[lo + j];
        pos := pos + 1;
      }
    }

    /** The body of the loop of a tick, once the `i`-th resend has got through: `kept` is kept so far. */
    static method Settle(a: array<Entry>, lo: nat, i: nat, errorPos: nat, outcome: Outcome,
                         ghost q: seq<Entry>, ghost kept: seq<Entry>)
      returns (errorPos2: nat)
      requires i < |q| && errorPos == |kept| && InPlace(a[..], lo, q, kept, i)
      modifies a
      ensures var kept2 := if outcome == Rejected then kept + Retried(q[i]) else kept;
              errorPos2 == |kept2| && InPlace(a[..], lo, q, kept2, i + 1)
    {
      ghost var s := a[..];
      InPlaceAt(s, lo, q, kept, i);
      InPlaceSkips(s, lo, q, kept, i);
      var entry := a[lo + i];
      errorPos2 := errorPos;
      if outcome == Rejected {
        entry := entry.(retries := entry.retries + 1);
        if entry.retries < MAX_RETRIES {
          InPlaceKeeps(s, lo, q, kept, i, entry);
          a[lo + errorPos] := entry;
          assert a[..] == s[lo + errorPos := entry];
          errorPos2 := errorPos + 1;
        }
      }
    }

    /** The loop of a tick up to its first network error, which would be that of the `i`-th resend. */
    static method Retry(a: array<Entry>, lo: nat, hi: nat, os: seq<Outcome>) returns (i: nat, errorPos: nat)
      requires lo <= hi <= a.Length && |os| == hi - lo
      modifies a
      ensures i <= hi - lo && Connected(os, i) && (i < hi - lo ==> os[i] == NetworkError)
      ensures errorPos <= i && a[lo..lo + errorPos] == Kept(old(a[lo..hi]), os, i)
      ensures a[lo + i..hi] == old(a[lo..hi])[i..]
    {
      ghost var q, kept := a[lo..hi], [];
      i, errorPos := 0, 0;
      InPlaceAtFirst(a, lo, hi);
      while i < hi - lo && os[i] != NetworkError
        invariant i <= hi - lo && Connected(os, i) && kept == Kept(q, os, i)
        invariant errorPos == |kept| && InPlace(a[..], lo, q, kept, i)
      {
        errorPos := Settle(a, lo, i, errorPos, os[i], q, kept);
        KeptNext(q, os, i);
        kept := Kept(q, os, i + 1);
        i := i + 1;
      }
      InPlaceSlices(a, lo, hi, q, kept, i);
    }

    /** A tick, with the backing array passed: the queue is left in `a[lo2..hi2]`. */
    static method Compact(a: array<Entry>, lo: nat, hi: nat, os: seq<Outcome>) returns (lo2: nat, hi2: nat)
      requires lo <= hi <= a.Length && |os| == hi - lo
      modifies a
      ensures lo2 <= hi2 <= a.Length
      ensures a[lo2..hi2] == Resent(old(a[lo..hi]), os)
    {
      ghost var q := a[lo..hi];
      var i, errorPos := Retry(a, lo, hi, os);
      ResentSplits(q, os, i);
      assert a[lo + i..hi] == q[i..];
      if i < hi - lo && errorPos == 0 {
        lo2, hi2 := lo + i, hi;
      } else {
        MoveDown(a, lo, hi, errorPos, i);
        lo2, hi2 := lo, hi - (i - errorPos);
      }
    }

    /**
     * `tryResendFromDeque`: what gets through is taken off the queue if it is delivered or rejected for
     * the tenth time; from the first network error on everything stays.
     */
    method TryResend(os: seq<Outcome>) returns (ghost n: nat, ghost picked: seq<nat>)
      requires Valid() && |os| == |Queue()|
      modifies this, buffer
      ensures Valid() && buffer == old(buffer)
      ensures LeavesAfter(old(Queue()), os, n, picked, Queue())
      ensures Queue() == Resent(old(Queue()), os)
    {
      n := FirstNetworkError(Queue(), os);
      picked := Picked(Queue(), os, n);
      ResentIs(Queue(), os, n);
      lo, hi := Compact(buffer, lo, hi, os);
    }

    /** `sendOperatorMessage`: the message is queued unless a connected client delivers it. */
    method SendOperatorMessage(id: nat, connected: bool, outcome: Outcome)
      requires Valid()
      modifies this, buffer
      ensures Valid() && (buffer == old(buffer) || fresh(buffer))
      ensures Queue() == if connected && outcome == Delivered then old(Queue()) else old(Queue()) + [Entry(id, 0)]
    {
      if !connected || outcome != Delivered {
        Append(id);
      }
    }
  }

  // ---------------------------------------------------------------------------------------------
  // Whole runs

  datatype Attempt = Attempt(id: nat, resend: bool, outcome: Outcome)

  /** The client with the history of its messages, numbered in the order they were issued. */
  datatype Client = Client(
    issued: nat, queue: seq<Entry>, log: seq<Attempt>, delivered: seq<nat>, dropped: seq<nat>)

  datatype Action = Send(connected: bool, outcome: Outcome) | Tick(outcomes: seq<Outcome>)

  function Sent(c: Client, connected: bool, outcome: Outcome): Client {
    var c1 := c.(issued := c.issued + 1,
                 log := if connected then c.log + [Attempt(c.issued, false, outcome)] else c.log);
    if connected && outcome == Delivered then c1.(delivered := c.delivered + [c.issued])
    else c1.(queue := c.queue + [Entry(c.issued, 0)])
  }

  /** The resend of `e`, taken off the queue, where `c.queue` is what the tick has kept so far. */
  function Handled(c: Client, e: Entry, outcome: Outcome): Client
    requires outcome != NetworkError
  {
    var c1 := c.(log := c.log + [Attempt(e.id, true, outcome)]);
    if outcome == Delivered then c1.(delivered := c.delivered + [e.id])
    else if e.retries + 1 >= MAX_RETRIES then c1.(dropped := c.dropped + [e.id])
    else c1.(queue := c.queue + [e.(retries := e.retries + 1)])
  }

  function Resends(c: Client, rest: seq<Entry>, os: seq<Outcome>): Client
    requires |rest| <= |os|
    decreases |rest|
  {
    if rest == [] then c
    else if os[0] == NetworkError then
      c.(queue := c.queue + rest, log := c.log + [Attempt(rest[0].id, true, NetworkError)])
    else Resends(Handled(c, rest[0], os[0]), rest[1..], os[1..])
  }

  predicate Enabled(c: Client, a: Action) {
    a.Tick? ==> |a.outcomes| == |c.queue|
  }

  function Next(c: Client, a: Action): Client
    requires Enabled(c, a)
  {
    match a
    case Send(connected, outcome) => Sent(c, connected, outcome)
    case Tick(os) => Resends(c.(queue := []), c.queue, os)
  }

  lemma HandledQueue(c: Client, e: Entry, outcome: Outcome)
    requires outcome != NetworkError
    ensures Handled(c, e, outcome).queue == c.queue + if outcome == Rejected then Retried(e) else []
  {
  }

  lemma Associate(p: seq<Entry>, q: seq<Entry>, r: seq<Entry>)
    ensures (p + q) + r == p + (q + r)
  {
  }

  /** A tick of the run leaves the queue the compaction in place leaves. */
  lemma {:induction false} ResendsQueue(c: Client, rest: seq<Entry>, os: seq<Outcome>)
    requires |rest| <= |os|
    ensures Resends(c, rest, os).queue == c.queue + Resent(rest, os)
    decreases |rest|
  {
    if rest == [] {
    } else if os[0] == NetworkError {
    } else {
      HandledQueue(c, rest[0], os[0]);
      ResendsQueue(Handled(c, rest[0], os[0]), rest[1..], os[1..]);
      var kept := if os[0] == Rejected then Retried(rest[0]) else [];
      var later := Resent(rest[1..], os[1..]);
      assert Resent(rest, os) == kept + later;
      Associate(c.queue, kept, later);
    }
  }

  // ---------------------------------------------------------------------------------------------
  // What every step keeps

  /** The attempts that a tick makes for the first `n` entries. */
  ghost function AttemptsFor(q: seq<Entry>, os: seq<Outcome>, n: nat): seq<Attempt>
    requires n <= |q| <= |os|
  {
    seq(n, i requires 0 <= i < n => Attempt(q[i].id, true, os[i]))
  }

  lemma AttemptsSplit(q: seq<Entry>, os: seq<Outcome>, n: nat)
    requires 0 < n <= |q| <= |os|
    ensures AttemptsFor(q, os, n) == [Attempt(q[0].id, true, os[0])] + AttemptsFor(q[1..], os[1..], n - 1)
  {
  }

  lemma {:induction false} ResendsAttempt(c: Client, rest: seq<Entry>, os: seq<Outcome>, n: nat)
    requires n <= |rest| <= |os| && Connected(os, n) && (n < |rest| ==> os[n] == NetworkError)
    ensures Resends(c, rest, os).log == c.log + AttemptsFor(rest, os, if n < |rest| then n + 1 else n)
    decreases |rest|
  {
    if n > 0 {
      AttemptsSplit(rest, os, if n < |rest| then n + 1 else n);
      ResendsAttempt(Handled(c, rest[0], os[0]), rest[1..], os[1..], n - 1);
    }
  }

  /**
   * A tick tries every queued message once, in order, up to and including the first that meets a
   * network error, and none after it.
   */
  lemma TickAttempts(c: Client, os: seq<Outcome>, n: nat)
    requires Enabled(c, Tick(os)) && n <= |os|
    requires (forall i :: 0 <= i < n ==> os[i] != NetworkError) && (n < |os| ==> os[n] == NetworkError)
    ensures var made := if n < |os| then n + 1 else n;
      Next(c, Tick(os)).log == c.log + seq(made, i requires 0 <= i < made => Attempt(c.queue[i].id, true, os[i]))
  {
    ResendsAttempt(c.(queue := []), c.queue, os, n);
  }

  function Ids(q: seq<Entry>): (r: seq<nat>)
    ensures |r| == |q|
  {
    seq(|q|, i requires 0 <= i < |q| => q[i].id)
  }

  function Numbers(n: nat): (r: seq<nat>) {
    seq(n, i => i)
  }

  /** How often a resend of message `id` was rejected. */
  function Rejections(log: seq<Attempt>, id: nat): nat {
    if log == [] then 0
    else
      var last := log[|log| - 1];
      Rejections(log[..|log| - 1], id) + if last == Attempt(id, true, Rejected) then 1 else 0
  }

  /** The messages the aggregator took, in order. */
  function Acknowledged(log: seq<Attempt>): seq<nat> {
    if log == [] then []
    else
      var last := log[|log| - 1];
      var before := Acknowledged(log[..|log| - 1]);
      if last.outcome == Delivered then before + [last.id] else before
  }

  ghost predicate Conserved(c: Client) {
    multiset(Ids(c.queue)) + multiset(c.delivered) + multiset(c.dropped) == multiset(Numbers(c.issued))
  }

  ghost predicate Ordered(q: seq<Entry>) {
    forall i, j :: 0 <= i < j < |q| ==> q[i].id < q[j].id
  }

  /** Every queued entry counts the rejections of its message. */
  ghost predicate AllFit(q: seq<Entry>, log: seq<Attempt>) {
    forall i :: 0 <= i < |q| ==> q[i].retries == Rejections(log, q[i].id) < 10
  }

  ghost predicate Counted(c: Client) {
    && AllFit(c.queue, c.log)
    && (forall i :: 0 <= i < |c.dropped| ==> Rejections(c.log, c.dropped[i]) == 10)
    && (forall i :: 0 <= i < |c.delivered| ==> Rejections(c.log, c.delivered[i]) < 10)
  }

  /** No message is sent again once the aggregator has taken it. */
  ghost predicate NeverAgain(log: seq<Attempt>) {
    forall i, j :: 0 <= i < j < |log| && log[i].outcome == Delivered ==> log[j].id != log[i].id
  }

  ghost predicate Logged(c: Client) {
    && c.delivered == Acknowledged(c.log)
    && NeverAgain(c.log)
    && (forall i :: 0 <= i < |c.log| ==> c.log[i].id < c.issued)
  }

  ghost predicate Inv(c: Client) {
    Conserved(c) && Ordered(c.queue) && Counted(c) && Logged(c)
  }

  const INITIAL := Client(0, [], [], [], [])

  lemma RejectionsAfter(log: seq<Attempt>, a: Attempt, id: nat)
    ensures Rejections(log + [a], id) == Rejections(log, id) + if a == Attempt(id, true, Rejected) then 1 else 0
  {
    assert (log + [a])[..|log|] == log;
  }

  lemma AcknowledgedAfter(log: seq<Attempt>, a: Attempt)
    ensures Acknowledged(log + [a]) ==
            if a.outcome == Delivered then Acknowledged(log) + [a.id] else Acknowledged(log)
  {
    assert (log + [a])[..|log|] == log;
  }

  lemma {:induction false} UnknownIsNotRejected(log: seq<Attempt>, id: nat)
    requires forall i :: 0 <= i < |log| ==> log[i].id < id
    ensures Rejections(log, id) == 0
  {
    if log != [] {
      UnknownIsNotRejected(log[..|log| - 1], id);
    }
  }

  lemma {:induction false} AcknowledgedWasDelivered(log: seq<Attempt>, i: nat)
    requires i < |log| && log[i].outcome == Delivered
    ensures log[i].id in Acknowledged(log)
  {
    if i < |log| - 1 {
      AcknowledgedWasDelivered(log[..|log| - 1], i);
    }
  }

  lemma NumbersNext(n: nat)
    ensures Numbers(n + 1) == Numbers(n) + [n]
  {
  }

  lemma {:induction false} NumbersOnce(n: nat, id: nat)
    ensures multiset(Numbers(n))[id] == if id < n then 1 else 0
  {
    if n > 0 {
      NumbersNext(n - 1);
      NumbersOnce(n - 1, id);
    }
  }

  lemma IdsAppend(p: seq<Entry>, q: seq<Entry>)
    ensures Ids(p + q) == Ids(p) + Ids(q)
  {
  }

  /** Every message issued is in exactly one place. */
  lemma OnePlace(c: Client, id: nat)
    requires Conserved(c)
    ensures multiset(Ids(c.queue))[id] + multiset(c.delivered)[id] + multiset(c.dropped)[id] ==
            if id < c.issued then 1 else 0
  {
    NumbersOnce(c.issued, id);
    assert (multiset(Ids(c.queue)) + multiset(c.delivered) + multiset(c.dropped))[id] ==
           multiset(Numbers(c.issued))[id];
  }

  // ---------------------------------------------------------------------------------------------
  // One resend, in the middle of a tick

  ghost function Pending(c: Client, rest: seq<Entry>): Client {
    c.(queue := c.queue + rest)
  }

  lemma HandledConserves(c: Client, e: Entry, rest: seq<Entry>, outcome: Outcome)
    requires outcome != NetworkError && Conserved(Pending(c, [e] + rest))
    ensures Conserved(Pending(Handled(c, e, outcome), rest))
  {
    var c1 := Handled(c, e, outcome);
    IdsAppend(c.queue, [e] + rest);
    IdsAppend([e], rest);
    IdsAppend(c1.queue, rest);
    assert Ids([e]) == [e.id];
    if c1.queue != c.queue {
      IdsAppend(c.queue, [e.(retries := e.retries + 1)]);
      assert Ids([e.(retries := e.retries + 1)]) == [e.id];
    }
  }

  lemma Unsettled(c: Client, e: Entry, rest: seq<Entry>)
    requires Conserved(Pending(c, [e] + rest))
    ensures e.id < c.issued && e.id !in c.delivered && e.id !in c.dropped
  {
    var q := c.queue + ([e] + rest);
    assert q[|c.queue|] == e;
    assert Ids(q)[|c.queue|] == e.id;
    assert e.id in multiset(Ids(q));
    OnePlace(Pending(c, [e] + rest), e.id);
    assert e.id !in multiset(c.delivered) && e.id !in multiset(c.dropped);
  }

  /** The entry being resent is known to be nowhere else. */
  lemma OnlyHere(c: Client, e: Entry, rest: seq<Entry>)
    requires Inv(Pending(c, [e] + rest))
    ensures e.id < c.issued && e.id !in c.delivered && e.id !in c.dropped
    ensures forall i :: 0 <= i < |c.queue| ==> c.queue[i].id != e.id
    ensures forall i :: 0 <= i < |rest| ==> rest[i].id != e.id
    ensures e.retries == Rejections(c.log, e.id) < 10
  {
    Unsettled(c, e, rest);
    var q := c.queue + ([e] + rest);
    assert q[|c.queue|] == e;
    forall i | 0 <= i < |c.queue| ensures c.queue[i].id != e.id {
      assert q[i] == c.queue[i];
    }
    forall i | 0 <= i < |rest| ensures rest[i].id != e.id {
      assert q[|c.queue| + 1 + i] == rest[i];
    }
  }

  lemma FitParts(p: seq<Entry>, q: seq<Entry>, log: seq<Attempt>)
    ensures AllFit(p + q, log) <==> AllFit(p, log) && AllFit(q, log)
  {
    if AllFit(p + q, log) {
      forall i | 0 <= i < |p| ensures p[i].retries == Rejections(log, p[i].id) < 10 {
        assert (p + q)[i] == p[i];
      }
      forall i | 0 <= i < |q| ensures q[i].retries == Rejections(log, q[i].id) < 10 {
        assert (p + q)[|p| + i] == q[i];
      }
    }
  }

  lemma OthersStillFit(q: seq<Entry>, log: seq<Attempt>, a: Attempt)
    requires AllFit(q, log) && forall i :: 0 <= i < |q| ==> q[i].id != a.id
    ensures AllFit(q, log + [a])
  {
    forall i | 0 <= i < |q| ensures q[i].retries == Rejections(log + [a], q[i].id) < 10 {
      RejectionsAfter(log, a, q[i].id);
    }
  }

  lemma RetriedFits(e: Entry, log: seq<Attempt>, outcome: Outcome)
    requires e.retries == Rejections(log, e.id) < 10
    ensures AllFit(if outcome == Rejected then Retried(e) else [], log + [Attempt(e.id, true, outcome)])
  {
    RejectionsAfter(log, Attempt(e.id, true, outcome), e.id);
  }

  lemma FitsAfter(queue: seq<Entry>, e: Entry, rest: seq<Entry>, log: seq<Attempt>, outcome: Outcome)
    requires AllFit(queue, log) && AllFit(rest, log) && e.retries == Rejections(log, e.id) < 10
    requires forall i :: 0 <= i < |queue| ==> queue[i].id != e.id
    requires forall i :: 0 <= i < |rest| ==> rest[i].id != e.id
    ensures var kept := if outcome == Rejected then Retried(e) else [];
            AllFit(queue + kept + rest, log + [Attempt(e.id, true, outcome)])
  {
    var a, kept := Attempt(e.id, true, outcome), if outcome == Rejected then Retried(e) else [];
    OthersStillFit(queue, log, a);
    RetriedFits(e, log, outcome);
    OthersStillFit(rest, log, a);
    FitParts(queue, kept, log + [a]);
    FitParts(queue + kept, rest, log + [a]);
  }

  lemma HandledFits(c: Client, e: Entry, rest: seq<Entry>, outcome: Outcome)
    requires outcome != NetworkError && AllFit(c.queue + ([e] + rest), c.log)
    requires forall i :: 0 <= i < |c.queue| ==> c.queue[i].id != e.id
    requires forall i :: 0 <= i < |rest| ==> rest[i].id != e.id
    ensures var p := Pending(Handled(c, e, outcome), rest);
            AllFit(p.queue, p.log)
  {
    FitParts(c.queue, [e] + rest, c.log);
    FitParts([e], rest, c.log);
    assert [e][0] == e;
    FitsAfter(c.queue, e, rest, c.log, outcome);
    HandledQueue(c, e, outcome);
  }

  lemma OthersKeepCount(ids: seq<nat>, log: seq<Attempt>, a: Attempt)
    requires a.id !in ids
    ensures forall i :: 0 <= i < |ids| ==> Rejections(log + [a], ids[i]) == Rejections(log, ids[i])
  {
    forall i | 0 <= i < |ids| ensures Rejections(log + [a], ids[i]) == Rejections(log, ids[i]) {
      RejectionsAfter(log, a, ids[i]);
    }
  }

  lemma HandledCounts(c: Client, e: Entry, rest: seq<Entry>, outcome: Outcome)
    requires outcome != NetworkError && Inv(Pending(c, [e] + rest))
    ensures Counted(Pending(Handled(c, e, outcome), rest))
  {
    OnlyHere(c, e, rest);
    HandledFits(c, e, rest, outcome);
    var a := Attempt(e.id, true, outcome);
    OthersKeepCount(c.delivered, c.log, a);
    OthersKeepCount(c.dropped, c.log, a);
    RejectionsAfter(c.log, a, e.id);
  }

  lemma AttemptKeepsLogged(log: seq<Attempt>, a: Attempt)
    requires NeverAgain(log) && a.id !in Acknowledged(log)
    ensures NeverAgain(log + [a])
  {
    forall i | 0 <= i < |log| && log[i].outcome == Delivered ensures log[i].id != a.id {
      AcknowledgedWasDelivered(log, i);
    }
  }

  lemma HandledKeepsOrder(c: Client, e: Entry, rest: seq<Entry>, outcome: Outcome)
    requires outcome != NetworkError && Ordered(c.queue + ([e] + rest))
    ensures Ordered(Handled(c, e, outcome).queue + rest)
  {
    var q := c.queue + ([e] + rest);
    var p := Handled(c, e, outcome).queue + rest;
    forall i, j | 0 <= i < j < |p| ensures p[i].id < p[j].id {
      var d := |q| - |p|;
      assert p[i].id == q[if i < |c.queue| then i else i + d].id;
      assert p[j].id == q[if j < |c.queue| then j else j + d].id;
    }
  }

  lemma HandledLogs(c: Client, e: Entry, rest: seq<Entry>, outcome: Outcome)
    requires outcome != NetworkError && Conserved(Pending(c, [e] + rest)) && Logged(c)
    ensures Logged(Handled(c, e, outcome))
  {
    Unsettled(c, e, rest);
    AttemptKeepsLogged(c.log, Attempt(e.id, true, outcome));
    AcknowledgedAfter(c.log, Attempt(e.id, true, outcome));
  }

  lemma HandledKeepsInv(c: Client, e: Entry, rest: seq<Entry>, outcome: Outcome)
    requires outcome != NetworkError && Inv(Pending(c, [e] + rest))
    ensures Inv(Pending(Handled(c, e, outcome), rest))
  {
    HandledConserves(c, e, rest, outcome);
    HandledKeepsOrder(c, e, rest, outcome);
    HandledCounts(c, e, rest, outcome);
    HandledLogs(c, e, rest, outcome);
  }

  /** A tick stopped by a network error loses nothing. */
  lemma StoppedKeepsInv(c: Client, rest: seq<Entry>)
    requires rest != [] && Inv(Pending(c, rest))
    ensures Inv(Pending(c, rest).(log := c.log + [Attempt(rest[0].id, true, NetworkError)]))
  {
    StoppedLogs(c, rest[0], rest[1..]) by {
      assert rest == [rest[0]] + rest[1..];
    }
    OtherAttemptsCountNothing(Pending(c, rest), Attempt(rest[0].id, true, NetworkError));
  }

  lemma StoppedLogs(c: Client, e: Entry, rest: seq<Entry>)
    requires Conserved(Pending(c, [e] + rest)) && Logged(c)
    ensures Logged(c.(log := c.log + [Attempt(e.id, true, NetworkError)]))
  {
    var a := Attempt(e.id, true, NetworkError);
    Unsettled(c, e, rest);
    AttemptKeepsLogged(c.log, a);
    AcknowledgedAfter(c.log, a);
  }

  /** Only a resend that is rejected is counted. */
  lemma OtherAttemptsCountNothing(c: Client, a: Attempt)
    requires Counted(c) && !(a.resend && a.outcome == Rejected)
    ensures Counted(c.(log := c.log + [a]))
  {
    forall id ensures Rejections(c.log + [a], id) == Rejections(c.log, id) {
      RejectionsAfter(c.log, a, id);
    }
  }

  lemma {:induction false} ResendsKeepInv(c: Client, rest: seq<Entry>, os: seq<Outcome>)
    requires |rest| <= |os| && Inv(Pending(c, rest))
    ensures Inv(Resends(c, rest, os))
    decreases |rest|
  {
    if rest == [] {
      assert Pending(c, rest) == c;
    } else if os[0] == NetworkError {
      StoppedKeepsInv(c, rest);
    } else {
      assert rest == [rest[0]] + rest[1..];
      HandledKeepsInv(c, rest[0], rest[1..], os[0]);
      ResendsKeepInv(Handled(c, rest[0], os[0]), rest[1..], os[1..]);
    }
  }

  lemma SentConserves(c: Client, connected: bool, outcome: Outcome)
    requires Conserved(c)
    ensures Conserved(Sent(c, connected, outcome))
  {
    NumbersNext(c.issued);
    if !(connected && outcome == Delivered) {
      IdsAppend(c.queue, [Entry(c.issued, 0)]);
      assert Ids([Entry(c.issued, 0)]) == [c.issued];
    }
  }

  lemma Issued(c: Client)
    requires Conserved(c)
    ensures forall i :: 0 <= i < |c.queue| ==> c.queue[i].id < c.issued
    ensures forall i :: 0 <= i < |c.delivered| ==> c.delivered[i] < c.issued
  {
    forall i | 0 <= i < |c.queue| ensures c.queue[i].id < c.issued {
      assert Ids(c.queue)[i] in multiset(Ids(c.queue));
      OnePlace(c, c.queue[i].id);
    }
    forall i | 0 <= i < |c.delivered| ensures c.delivered[i] < c.issued {
      assert c.delivered[i] in multiset(c.delivered);
      OnePlace(c, c.delivered[i]);
    }
  }

  lemma SentCounts(c: Client, connected: bool, outcome: Outcome)
    requires Counted(c) && forall i :: 0 <= i < |c.log| ==> c.log[i].id < c.issued
    ensures Counted(Sent(c, connected, outcome))
  {
    var a := Attempt(c.issued, false, outcome);
    var log := if connected then c.log + [a] else c.log;
    UnknownIsNotRejected(c.log, c.issued);
    RejectionsAfter(c.log, a, c.issued);
    if connected {
      OtherAttemptsCountNothing(c, a);
    }
    FitParts(c.queue, [Entry(c.issued, 0)], log);
  }

  lemma SentKeepsOrder(c: Client, connected: bool, outcome: Outcome)
    requires Ordered(c.queue) && forall i :: 0 <= i < |c.queue| ==> c.queue[i].id < c.issued
    ensures Ordered(Sent(c, connected, outcome).queue)
  {
  }

  lemma SentLogs(c: Client, connected: bool, outcome: Outcome)
    requires Logged(c) && forall i :: 0 <= i < |c.delivered| ==> c.delivered[i] < c.issued
    ensures Logged(Sent(c, connected, outcome))
  {
    if connected {
      AttemptKeepsLogged(c.log, Attempt(c.issued, false, outcome));
      AcknowledgedAfter(c.log, Attempt(c.issued, false, outcome));
    }
  }

  lemma SentKeepsInv(c: Client, connected: bool, outcome: Outcome)
    requires Inv(c)
    ensures Inv(Sent(c, connected, outcome))
  {
    Issued(c);
    SentConserves(c, connected, outcome);
    SentKeepsOrder(c, connected, outcome);
    SentCounts(c, connected, outcome);
    SentLogs(c, connected, outcome);
  }

  lemma NextKeepsInv(c: Client, a: Action)
    requires Inv(c) && Enabled(c, a)
    ensures Inv(Next(c, a))
  {
    match a
    case Send(connected, outcome) => SentKeepsInv(c, connected, outcome);
    case Tick(os) =>
      var c1 := c.(queue := []);
      assert Pending(c1, c.queue) == c;
      ResendsKeepInv(c1, c.queue, os);
  }

  // ---------------------------------------------------------------------------------------------
  // Main results

  ghost predicate IsRun(states: seq<Client>, actions: seq<Action>) {
    && |states| == |actions| + 1
    && states[0] == INITIAL
    && forall i {:trigger actions[i]} :: 0 <= i < |actions| ==>
         Enabled(states[i], actions[i]) && states[i + 1] == Next(states[i], actions[i])
  }

  lemma {:induction false} InvThroughout(states: seq<Client>, actions: seq<Action>, n: nat)
    requires IsRun(states, actions) && n <= |actions|
    ensures Inv(states[n])
  {
    if n > 0 {
      InvThroughout(states, actions, n - 1);
      NextKeepsInv(states[n - 1], actions[n - 1]);
    }
  }

  /**
   * At every moment of every run each message issued is queued, taken by the aggregator or dropped,
   * and in one of these places only. It has been taken if and only if some attempt of it was, and
   * then that was its last attempt; it has been dropped if and only if ten of its resends were
   * rejected, and while queued it counts fewer.
   */
  lemma RunAccountsForEveryMessage(states: seq<Client>, actions: seq<Action>, n: nat, id: nat)
    requires IsRun(states, actions) && n <= |actions| && id < states[n].issued
    ensures var c := states[n];
            && NeverAgain(c.log)
            && (id in c.delivered <==>
                  exists i :: 0 <= i < |c.log| && c.log[i].id == id && c.log[i].outcome == Delivered)
            && (id in c.dropped <==> Rejections(c.log, id) == 10)
            && Rejections(c.log, id) <= 10
            && multiset(Ids(c.queue))[id] + multiset(c.delivered)[id] + multiset(c.dropped)[id] == 1
  {
    InvThroughout(states, actions, n);
    var c := states[n];
    OnePlace(c, id);
    if id in c.delivered {
      DeliveredWasAcknowledged(c.log, id);
    }
    forall i | 0 <= i < |c.log| && c.log[i].outcome == Delivered ensures c.log[i].id in c.delivered {
      AcknowledgedWasDelivered(c.log, i);
    }
    if id !in c.delivered && id !in c.dropped {
      assert id in multiset(Ids(c.queue));
      var i :| 0 <= i < |c.queue| && Ids(c.queue)[i] == id;
      assert c.queue[i].id == id;
    }
  }

  lemma {:induction false} DeliveredWasAcknowledged(log: seq<Attempt>, id: nat)
    requires id in Acknowledged(log)
    ensures exists i :: 0 <= i < |log| && log[i].id == id && log[i].outcome == Delivered
  {
    var last := log[|log| - 1];
    if last.outcome == Delivered && last.id == id {
    } else {
      DeliveredWasAcknowledged(log[..|log| - 1], id);
    }
  }

  /** What ticks can still do: every entry has at most this many rejections left. */
  function Potential(q: seq<Entry>): int {
    if q == [] then 0 else 10 - q[0].retries + Potential(q[1..])
  }

  ghost predicate Live(q: seq<Entry>) {
    forall i :: 0 <= i < |q| ==> q[i].retries < 10
  }

  /** Every tick whose first resend gets through to the aggregator makes progress. */
  lemma {:induction false} TickMakesProgress(q: seq<Entry>, os: seq<Outcome>)
    requires |q| <= |os| && Live(q)
    ensures 0 <= Potential(Resent(q, os)) <= Potential(q)
    ensures Live(Resent(q, os))
    ensures q != [] && os[0] != NetworkError ==> Potential(Resent(q, os)) < Potential(q)
  {
    if q == [] {
    } else {
      TickMakesProgress(q[1..], os[1..]);
      match os[0]
      case Delivered =>
      case Rejected => RetriedMakesProgress(q[0], Resent(q[1..], os[1..]));
      case NetworkError => PotentialIsNatural(q);
    }
  }

  lemma RetriedMakesProgress(e: Entry, rest: seq<Entry>)
    requires e.retries < 10 && Live(rest) && 0 <= Potential(rest)
    ensures Live(Retried(e) + rest)
    ensures 0 <= Potential(Retried(e) + rest) < 10 - e.retries + Potential(rest)
  {
    var aged := e.(retries := e.retries + 1);
    assert [] + rest == rest && ([aged] + rest)[1..] == rest;
  }

  lemma {:induction false} PotentialIsNatural(q: seq<Entry>)
    requires Live(q)
    ensures Potential(q) >= |q|
  {
    if q != [] {
      PotentialIsNatural(q[1..]);
    }
  }

  /** The queue after ticks with nothing new queued. */
  ghost function Ticks(q: seq<Entry>, oss: seq<seq<Outcome>>): seq<Entry>
    requires forall i :: 0 <= i < |oss| ==> |q| <= |oss[i]|
    decreases |oss|
  {
    if oss == [] then q
    else
      ResentShrinks(q, oss[0]);
      Ticks(Resent(q, oss[0]), oss[1..])
  }

  lemma {:induction false} ResentShrinks(q: seq<Entry>, os: seq<Outcome>)
    requires |q| <= |os|
    ensures |Resent(q, os)| <= |q|
  {
    if q != [] {
      ResentShrinks(q[1..], os[1..]);
    }
  }

  lemma {:induction false} ConnectedTickAges(q: seq<Entry>, os: seq<Outcome>, age: nat)
    requires |q| <= |os| && Connected(os, |q|)
    requires forall i :: 0 <= i < |q| ==> age <= q[i].retries
    ensures forall i :: 0 <= i < |Resent(q, os)| ==>
              age + 1 <= Resent(q, os)[i].retries < 10
    ensures age + 1 >= 10 ==> Resent(q, os) == []
  {
    if q != [] {
      ConnectedTickAges(q[1..], os[1..], age);
    }
  }

  /** Ten ticks without a network error empty the queue, whatever the aggregator answers. */
  lemma {:induction false} TenTicksEmptyTheQueue(q: seq<Entry>, oss: seq<seq<Outcome>>, age: nat)
    requires forall i :: 0 <= i < |oss| ==> |q| <= |oss[i]| && Connected(oss[i], |q|)
    requires forall i :: 0 <= i < |q| ==> age <= q[i].retries
    requires |oss| > 0 && age + |oss| >= 10
    ensures Ticks(q, oss) == []
    decreases |oss|
  {
    ResentShrinks(q, oss[0]);
    ConnectedTickAges(q, oss[0], age);
    var r := Resent(q, oss[0]);
    if age + 1 >= 10 {
      NothingToResend(oss[1..]);
    } else {
      TenTicksEmptyTheQueue(r, oss[1..], age + 1);
    }
  }

  lemma {:induction false} NothingToResend(oss: seq<seq<Outcome>>)
    ensures Ticks([], oss) == []
    decreases |oss|
  {
    if oss != [] {
      NothingToResend(oss[1..]);
    }
  }
}
