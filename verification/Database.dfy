/**
 * The message tables of the aggregator's database, and what a checkpoint fetch makes of them. State
 * root updates and operator set updates are two tables of this one shape: a message is filed under
 * its key, and points to at most one aggregation.
 */
module Database {
  import opened BlsTypes
  import opened BlsGoroutine
  import opened BlsService

  datatype Stored = Stored(digest: Digest, aggregation: Aggregation)

  datatype Row = Row(message: Message, aggregation: Option<Stored>)

  /** At most one row per key: the tables have a unique index. */
  ghost predicate UniqueKeys(rows: seq<Row>) {
    forall i, j :: 0 <= i < j < |rows| ==> rows[i].message.key != rows[j].message.key
  }

  /** The row of `key`, or the end. */
  function Find(rows: seq<Row>, key: MessageKey): (i: nat)
    ensures i <= |rows| && (i < |rows| ==> rows[i].message.key == key)
    ensures forall j :: 0 <= j < i ==> rows[j].message.key != key
  {
    if rows == [] then 0
    else if rows[0].message.key == key then 0
    else 1 + Find(rows[1..], key)
  }

  /** Filing a message: a key already filed keeps its message. */
  function FirstOrCreate(rows: seq<Row>, m: Message): (r: seq<Row>) {
    if Find(rows, m.key) < |rows| then rows else rows + [Row(m, None)]
  }

  /** Filing a message and its aggregation, which replaces any other. */
  function Store(rows: seq<Row>, m: Message, a: Stored): (r: seq<Row>) {
    var i := Find(rows, m.key);
    if i < |rows| then rows[i := rows[i].(aggregation := Some(a))] else rows + [Row(m, Some(a))]
  }

  predicate InWindow(r: Row, from: nat, to: nat) {
    from <= r.message.timestamp <= to && r.aggregation.Some?
  }

  /** The rows a fetch returns: those of the window that have an aggregation. */
  function Selected(rows: seq<Row>, from: nat, to: nat): (r: seq<Row>)
    ensures forall x <- r :: x.aggregation.Some? && x in rows
  {
    if rows == [] then []
    else
      var n := |rows| - 1;
      if InWindow(rows[n], from, to) then Selected(rows[..n], from, to) + [rows[n]] else Selected(rows[..n], from, to)
  }

  function Messages(rows: seq<Row>): (ms: seq<Message>)
    ensures |ms| == |rows|
  {
    seq(|rows|, i requires 0 <= i < |rows| => rows[i].message)
  }

  /** What a fetch returns, and which rows it is taken from. */
  datatype Listing = Listing(picked: seq<nat>, messages: seq<Message>, aggregations: seq<Stored>)

  /** `picked` are the rows of the window that have an aggregation, in the order of the table. */
  ghost predicate PicksWindow(rows: seq<Row>, from: nat, to: nat, picked: seq<nat>) {
    && (forall i, j :: 0 <= i < j < |picked| ==> picked[i] < picked[j])
    && (forall k <- picked :: k < |rows|)
    && (forall k :: 0 <= k < |rows| ==>
        (k in picked <==> from <= rows[k].message.timestamp <= to && rows[k].aggregation.Some?))
  }

  /** Each message listed is that of the row picked, next to that row's aggregation. */
  ghost predicate PairsUp(rows: seq<Row>, l: Listing) {
    && |l.messages| == |l.aggregations| == |l.picked|
    && forall i :: 0 <= i < |l.picked| ==>
      l.picked[i] < |rows| && rows[l.picked[i]] == Row(l.messages[i], Some(l.aggregations[i]))
  }

  ghost predicate Returned(rows: seq<Row>, from: nat, to: nat, l: Listing) {
    PicksWindow(rows, from, to, l.picked) && PairsUp(rows, l)
  }

  ghost function MoreListed(l: Listing, k: nat, r: Row): Listing
    requires r.aggregation.Some?
  {
    Listing(l.picked + [k], l.messages + [r.message], l.aggregations + [r.aggregation.value])
  }

  lemma PicksMore(rows: seq<Row>, r: Row, from: nat, to: nat, picked: seq<nat>)
    requires PicksWindow(rows, from, to, picked)
    ensures PicksWindow(rows + [r], from, to,
      if from <= r.message.timestamp <= to && r.aggregation.Some? then picked + [|rows|] else picked)
  {
    var all := rows + [r];
    var more := if from <= r.message.timestamp <= to && r.aggregation.Some? then picked + [|rows|] else picked;
    forall k | 0 <= k < |all|
      ensures k in more <==> from <= all[k].message.timestamp <= to && all[k].aggregation.Some?
    {
      if k < |rows| {
        assert all[k] == rows[k] && (k in more <==> k in picked);
      } else {
        assert k !in picked;
      }
    }
    assert forall i :: 0 <= i < |picked| ==> picked[i] in picked;
  }

  lemma ReturnedMore(rows: seq<Row>, r: Row, from: nat, to: nat, l: Listing)
    requires Returned(rows, from, to, l)
    ensures Returned(rows + [r], from, to,
      if from <= r.message.timestamp <= to && r.aggregation.Some? then MoreListed(l, |rows|, r) else l)
  {
    PicksMore(rows, r, from, to, l.picked);
    PairsUpMore(rows, r, l);
  }

  lemma PairsUpMore(rows: seq<Row>, r: Row, l: Listing)
    requires PairsUp(rows, l)
    ensures PairsUp(rows + [r], l)
    ensures r.aggregation.Some? ==> PairsUp(rows + [r], MoreListed(l, |rows|, r))
  {
  }

  class Table {
    var rows: seq<Row>

    constructor ()
      ensures rows == []
    {
      rows := [];
    }

    /** `StoreStateRootUpdate` and `StoreOperatorSetUpdate`. */
    method StoreMessage(m: Message) returns (i: nat)
      requires UniqueKeys(rows)
      modifies this
      ensures UniqueKeys(rows) && rows == FirstOrCreate(old(rows), m)
      ensures i < |rows| && i == Find(rows, m.key)
    {
      i := 0;
      while i < |rows|
        invariant i <= |rows|
        invariant forall j :: 0 <= j < i ==> rows[j].message.key != m.key
      {
        if rows[i].message.key == m.key {
          FindFirst(rows, m.key, i);
          return;
        }
        i := i + 1;
      }
      rows := rows + [Row(m, None)];
      FindFirst(rows, m.key, i);
    }

    /**
     * `StoreStateRootUpdateAggregation` and `StoreOperatorSetUpdateAggregation`: no message and no
     * other row changes.
     */
    method StoreAggregation(i: nat, a: Stored)
      requires UniqueKeys(rows) && i < |rows|
      modifies this
      ensures UniqueKeys(rows) && Messages(rows) == old(Messages(rows))
      ensures |rows| == |old(rows)| && rows[i].aggregation == Some(a)
      ensures forall j :: 0 <= j < |rows| && j != i ==> rows[j] == old(rows)[j]
    {
      rows := rows[i := rows[i].(aggregation := Some(a))];
    }

    /**
     * `handleStateRootUpdateReachedQuorum`, for a response as it reads when it is handled; `messageOk`
     * and `aggregationOk` say whether the two writes succeed. A response with an error stores nothing.
     */
    method HandleReachedQuorum(r: Response, messageOk: bool, aggregationOk: bool)
      requires UniqueKeys(rows) && (r.error == NoFailure ==> r.message.Some? && r.aggregation.Some?)
      modifies this
      ensures UniqueKeys(rows)
      ensures r.error != NoFailure || !messageOk ==> rows == old(rows)
      ensures r.error == NoFailure && messageOk && !aggregationOk ==> rows == FirstOrCreate(old(rows), r.message.value)
      ensures messageOk && aggregationOk ==> rows == StoreResponse(old(rows), r)
    {
      if r.error != NoFailure || !messageOk {
        return;
      }
      var i := StoreMessage(r.message.value);
      if !aggregationOk {
        return;
      }
      ghost var created := rows;
      StoreAggregation(i, Stored(Digest(r.message.value), r.aggregation.value));
      assert rows[i].message == Messages(rows)[i] == Messages(created)[i] == created[i].message;
      assert rows ==
        created[i := created[i].(aggregation := Some(Stored(Digest(r.message.value), r.aggregation.value)))];
      FindOfCreated(old(rows), r.message.value);
    }

    /**
     * The loop of `FetchCheckpointMessages` over one table: it returns the messages of the window that
     * have an aggregation, in the order of the table, and next to each its own row's aggregation.
     */
    method Fetch(from: nat, to: nat)
      returns (messages: seq<Message>, aggregations: seq<Stored>, ghost picked: seq<nat>)
      ensures Returned(rows, from, to, Listing(picked, messages, aggregations))
    {
      messages, aggregations, picked := [], [], [];
      for i := 0 to |rows|
        invariant Returned(rows[..i], from, to, Listing(picked, messages, aggregations))
      {
        assert rows[..i + 1] == rows[..i] + [rows[i]];
        ReturnedMore(rows[..i], rows[i], from, to, Listing(picked, messages, aggregations));
        if InWindow(rows[i], from, to) {
          messages := messages + [rows[i].message];
          aggregations := aggregations + [rows[i].aggregation.value];
          picked := picked + [i];
        }
      }
      assert rows[..|rows|] == rows;
    }
  }

  datatype FetchResult =
    | TimestampTooLarge
    | EmptyRange
    | Fetched(updates: seq<Message>, updateAggs: seq<Stored>, setUpdates: seq<Message>, setUpdateAggs: seq<Stored>)

  /** `FetchCheckpointMessages` over both tables. */
  method FetchCheckpointMessages(updates: Table, setUpdates: Table, from: nat, to: nat) returns (r: FetchResult)
    ensures r == TimestampTooLarge <==> from > 0x7fff_ffff_ffff_ffff || to > 0x7fff_ffff_ffff_ffff
    ensures r == EmptyRange <==> to < from <= 0x7fff_ffff_ffff_ffff
    ensures r.Fetched? ==>
      && (exists picked :: Returned(updates.rows, from, to, Listing(picked, r.updates, r.updateAggs)))
      && (exists picked :: Returned(setUpdates.rows, from, to, Listing(picked, r.setUpdates, r.setUpdateAggs)))
  {
    if from > 0x7fff_ffff_ffff_ffff || to > 0x7fff_ffff_ffff_ffff {
      return TimestampTooLarge;
    }
    if to < from {
      return EmptyRange;
    }
    var updateMessages, updateAggs, picked := updates.Fetch(from, to);
    var setUpdateMessages, setUpdateAggs, setPicked := setUpdates.Fetch(from, to);
    return Fetched(updateMessages, updateAggs, setUpdateMessages, setUpdateAggs);
  }

  lemma {:induction false} FindFirst(rows: seq<Row>, key: MessageKey, i: nat)
    requires i < |rows| && rows[i].message.key == key
    requires forall j :: 0 <= j < i ==> rows[j].message.key != key
    ensures Find(rows, key) == i
    decreases |rows|
  {
    if i > 0 {
      assert forall j :: 0 <= j < i - 1 ==> rows[1..][j].message.key == rows[j + 1].message.key;
      FindFirst(rows[1..], key, i - 1);
    }
  }

  lemma FindOfCreated(rows: seq<Row>, m: Message)
    ensures var created := FirstOrCreate(rows, m);
      var i := Find(created, m.key);
      && i < |created| && i == Find(rows, m.key)
      && forall a :: Store(rows, m, a) == created[i := created[i].(aggregation := Some(a))]
  {
    var i := Find(rows, m.key);
    if i == |rows| {
      FindFirst(rows + [Row(m, None)], m.key, i);
    }
  }

  // ---------------------------------------------------------------------------------------------
  // What the tables hold after a run

  function StoreResponse(rows: seq<Row>, r: Response): seq<Row>
    requires r.error == NoFailure ==> r.message.Some? && r.aggregation.Some?
  {
    if r.error != NoFailure then rows
    else Store(rows, r.message.value, Stored(Digest(r.message.value), r.aggregation.value))
  }

  datatype Reported = Reported(message: Message, aggregation: Aggregation)

  /** The table after filing `reports` in order. */
  ghost function TableOf(reports: seq<Reported>): (rows: seq<Row>)
    ensures UniqueKeys(rows)
  {
    if reports == [] then []
    else
      var n := |reports| - 1;
      var m := reports[n].message;
      StoreKeepsUnique(TableOf(reports[..n]), m, Stored(Digest(m), reports[n].aggregation));
      Store(TableOf(reports[..n]), m, Stored(Digest(m), reports[n].aggregation))
  }

  lemma StoreKeepsUnique(rows: seq<Row>, m: Message, a: Stored)
    requires UniqueKeys(rows)
    ensures UniqueKeys(Store(rows, m, a))
  {
  }

  /** `first` is the first report of a key, and `last` the last. */
  ghost predicate FirstOf(reports: seq<Reported>, key: MessageKey, first: nat) {
    && first < |reports| && reports[first].message.key == key
    && forall i :: 0 <= i < first ==> reports[i].message.key != key
  }

  ghost predicate LastOf(reports: seq<Reported>, key: MessageKey, last: nat) {
    && last < |reports| && reports[last].message.key == key
    && forall i :: last < i < |reports| ==> reports[i].message.key != key
  }

  /** A row holds the first message reported for its key, and the aggregation of the last. */
  lemma {:induction false} RowHoldsFirstAndLast(reports: seq<Reported>, key: MessageKey, first: nat, last: nat)
    requires FirstOf(reports, key, first) && LastOf(reports, key, last)
    ensures var rows := TableOf(reports);
      var i := Find(rows, key);
      && i < |rows|
      && rows[i] == Row(reports[first].message, Some(Stored(Digest(reports[last].message), reports[last].aggregation)))
  {
    var n := |reports| - 1;
    var front := reports[..n];
    var rows := TableOf(reports);
    if last < n {
      RowHoldsFirstAndLast(front, key, first, last);
      FindFirst(rows, key, Find(TableOf(front), key));
    } else if first < n {
      var previous := LastBefore(front, key, first);
      RowHoldsFirstAndLast(front, key, first, previous);
      FindFirst(rows, key, Find(TableOf(front), key));
    } else {
      KeyNotFiled(front, key);
      FindFirst(rows, key, |TableOf(front)|);
    }
  }

  lemma {:induction false} LastBefore(reports: seq<Reported>, key: MessageKey, first: nat) returns (last: nat)
    requires first < |reports| && reports[first].message.key == key
    ensures first <= last && LastOf(reports, key, last)
  {
    var n := |reports| - 1;
    if reports[n].message.key == key {
      last := n;
    } else {
      last := LastBefore(reports[..n], key, first);
    }
  }

  lemma {:induction false} KeyNotFiled(reports: seq<Reported>, key: MessageKey)
    requires forall i :: 0 <= i < |reports| ==> reports[i].message.key != key
    ensures Find(TableOf(reports), key) == |TableOf(reports)|
  {
    if reports != [] {
      KeyNotFiled(reports[..|reports| - 1], key);
    }
  }

  /** So the row pairs a message with its own aggregation exactly when it was also the last one reported. */
  lemma PairedIffSameMessage(reports: seq<Reported>, key: MessageKey, first: nat, last: nat)
    requires FirstOf(reports, key, first) && LastOf(reports, key, last)
    ensures Find(TableOf(reports), key) < |TableOf(reports)|
    ensures var row := TableOf(reports)[Find(TableOf(reports), key)];
      && row.aggregation.Some?
      && (row.aggregation.value.digest == Digest(row.message) <==> reports[first].message == reports[last].message)
  {
    RowHoldsFirstAndLast(reports, key, first, last);
  }

  /**
   * And so does every fetch: of the two lists it returns, the message at `i` is the first reported for
   * its key and the aggregation at `i` the last, which are of one message exactly when those two are.
   */
  lemma FetchPairsIffSameMessage(reports: seq<Reported>, from: nat, to: nat, l: Listing, i: nat, first: nat, last: nat)
    requires Returned(TableOf(reports), from, to, l) && i < |l.messages|
    requires FirstOf(reports, l.messages[i].key, first) && LastOf(reports, l.messages[i].key, last)
    ensures i < |l.aggregations|
    ensures l.messages[i] == reports[first].message
    ensures l.aggregations[i] == Stored(Digest(reports[last].message), reports[last].aggregation)
    ensures l.aggregations[i].digest == Digest(l.messages[i]) <==> reports[first].message == reports[last].message
  {
    var rows, k := TableOf(reports), l.picked[i];
    RowHoldsFirstAndLast(reports, l.messages[i].key, first, last);
    assert rows[k].message == l.messages[i];
    assert Find(rows, l.messages[i].key) == k;
  }

  /** What a fetch returns is settled by the table: the messages are those of the selected rows. */
  lemma {:induction false} ReturnedAreSelected(rows: seq<Row>, from: nat, to: nat, l: Listing)
    requires Returned(rows, from, to, l)
    ensures l.messages == Messages(Selected(rows, from, to))
    decreases |rows|
  {
    if rows == [] {
      PicksAtMost(rows, from, to, l.picked);
    } else {
      var n := |rows| - 1;
      if InWindow(rows[n], from, to) {
        ReturnedLast(rows, from, to, l);
        ReturnedAreSelected(rows[..n], from, to, FrontOf(l));
        MessagesSnoc(Selected(rows[..n], from, to), rows[n]);
      } else {
        ReturnedSame(rows, from, to, l);
        ReturnedAreSelected(rows[..n], from, to, l);
      }
    }
  }

  lemma {:induction false} RisesByOne(picked: seq<nat>, i: nat)
    requires forall j, k :: 0 <= j < k < |picked| ==> picked[j] < picked[k]
    requires i < |picked|
    ensures i <= picked[i]
  {
    if i > 0 {
      RisesByOne(picked, i - 1);
    }
  }

  lemma PicksAtMost(rows: seq<Row>, from: nat, to: nat, picked: seq<nat>)
    requires PicksWindow(rows, from, to, picked)
    ensures |picked| <= |rows|
  {
    if picked != [] {
      RisesByOne(picked, |picked| - 1);
      assert picked[|picked| - 1] in picked;
    }
  }

  lemma LastPicked(rows: seq<Row>, from: nat, to: nat, picked: seq<nat>)
    requires PicksWindow(rows, from, to, picked) && rows != [] && InWindow(rows[|rows| - 1], from, to)
    ensures picked != [] && picked[|picked| - 1] == |rows| - 1
  {
    assert |rows| - 1 in picked;
    var i :| 0 <= i < |picked| && picked[i] == |rows| - 1;
    assert picked[|picked| - 1] in picked;
  }

  ghost function FrontOf(l: Listing): Listing
    requires |l.messages| == |l.aggregations| == |l.picked| > 0
  {
    var p := |l.picked| - 1;
    Listing(l.picked[..p], l.messages[..p], l.aggregations[..p])
  }

  lemma PicksFront(rows: seq<Row>, from: nat, to: nat, picked: seq<nat>)
    requires PicksWindow(rows, from, to, picked) && rows != []
    requires picked != [] && picked[|picked| - 1] == |rows| - 1
    ensures PicksWindow(rows[..|rows| - 1], from, to, picked[..|picked| - 1])
  {
    var n, p := |rows| - 1, |picked| - 1;
    forall k | 0 <= k < n ensures k in picked[..p] <==> k in picked {
      assert picked == picked[..p] + [picked[p]];
    }
    forall k <- picked[..p] ensures k < n {
      var i :| 0 <= i < p && picked[i] == k;
    }
  }

  lemma ReturnedLast(rows: seq<Row>, from: nat, to: nat, l: Listing)
    requires Returned(rows, from, to, l) && rows != [] && InWindow(rows[|rows| - 1], from, to)
    ensures l.picked != [] && Returned(rows[..|rows| - 1], from, to, FrontOf(l))
    ensures l.messages == FrontOf(l).messages + [rows[|rows| - 1].message]
  {
    LastPicked(rows, from, to, l.picked);
    PicksFront(rows, from, to, l.picked);
    assert forall k <- FrontOf(l).picked :: k < |rows| - 1;
    forall i | 0 <= i < |FrontOf(l).picked| ensures FrontOf(l).picked[i] < |rows| - 1 {
      assert FrontOf(l).picked[i] in FrontOf(l).picked;
    }
  }

  lemma ReturnedSame(rows: seq<Row>, from: nat, to: nat, l: Listing)
    requires Returned(rows, from, to, l) && rows != [] && !InWindow(rows[|rows| - 1], from, to)
    ensures Returned(rows[..|rows| - 1], from, to, l)
  {
    assert |rows| - 1 !in l.picked;
    forall i | 0 <= i < |l.picked| ensures l.picked[i] < |rows| - 1 {
      assert l.picked[i] in l.picked;
    }
  }

  // ---------------------------------------------------------------------------------------------
  // What a fetch sees of later stores

  /** Every filed message has an aggregation. */
  ghost predicate Complete(rows: seq<Row>) {
    forall i :: 0 <= i < |rows| ==> rows[i].aggregation.Some?
  }

  ghost function WithAggregation(rows: seq<Row>, i: nat, a: Stored): (r: seq<Row>)
    requires i < |rows|
  {
    rows[i := rows[i].(aggregation := Some(a))]
  }

  lemma MessagesSnoc(rows: seq<Row>, r: Row)
    ensures Messages(rows + [r]) == Messages(rows) + [r.message]
  {
  }

  lemma {:induction false} UpdateKeepsMessages(rows: seq<Row>, i: nat, a: Stored, from: nat, to: nat)
    requires i < |rows| && rows[i].aggregation.Some?
    ensures Messages(Selected(WithAggregation(rows, i, a), from, to)) == Messages(Selected(rows, from, to))
  {
    var n := |rows| - 1;
    var after := WithAggregation(rows, i, a);
    if i < n {
      UpdateKeepsMessages(rows[..n], i, a, from, to);
      assert after[..n] == WithAggregation(rows[..n], i, a);
    } else {
      assert after[..n] == rows[..n];
    }
    MessagesSnoc(Selected(rows[..n], from, to), rows[n]);
    MessagesSnoc(Selected(after[..n], from, to), after[n]);
  }

  lemma {:induction false} UpdateShows(rows: seq<Row>, i: nat, a: Stored, from: nat, to: nat)
    requires i < |rows| && rows[i].aggregation.Some?
    ensures Selected(WithAggregation(rows, i, a), from, to) == Selected(rows, from, to) <==>
      !InWindow(rows[i], from, to) || rows[i].aggregation == Some(a)
  {
    var n := |rows| - 1;
    var after := WithAggregation(rows, i, a);
    if i < n {
      UpdateShows(rows[..n], i, a, from, to);
      assert after[..n] == WithAggregation(rows[..n], i, a);
      SnocInjective(Selected(rows[..n], from, to), Selected(after[..n], from, to), rows[n], rows[n]);
    } else {
      assert after[..n] == rows[..n];
      SnocInjective(Selected(rows[..n], from, to), Selected(after[..n], from, to), rows[n], after[n]);
    }
  }

  lemma SnocInjective(s: seq<Row>, t: seq<Row>, x: Row, y: Row)
    ensures s + [x] == t + [y] <==> s == t && x == y
  {
    if s + [x] == t + [y] {
      assert |s + [x]| == |s| + 1 && |t + [y]| == |t| + 1;
      assert s == (s + [x])[..|s|] && t == (t + [y])[..|t|];
      assert x == (s + [x])[|s|] && y == (t + [y])[|t|];
    }
  }

  /**
   * Filing a message dated after the window leaves the messages a fetch returns as they were. It
   * leaves the aggregations too, unless its key is filed under a message of the window.
   */
  lemma StoreAfterWindow(rows: seq<Row>, m: Message, a: Stored, from: nat, to: nat)
    requires Complete(rows) && m.timestamp > to
    ensures Complete(Store(rows, m, a))
    ensures Messages(Selected(Store(rows, m, a), from, to)) == Messages(Selected(rows, from, to))
    ensures Selected(Store(rows, m, a), from, to) == Selected(rows, from, to) <==>
      var i := Find(rows, m.key);
      i == |rows| || !InWindow(rows[i], from, to) || rows[i].aggregation == Some(a)
  {
    var i := Find(rows, m.key);
    if i < |rows| {
      UpdateKeepsMessages(rows, i, a, from, to);
      UpdateShows(rows, i, a, from, to);
    } else {
      assert (rows + [Row(m, Some(a))])[..|rows|] == rows;
    }
  }

  /** What a run of the service has had filed. */
  ghost function Filed(log: seq<Emission>): (reports: seq<Reported>) {
    if log == [] then []
    else
      var before, r := Filed(log[..|log| - 1]), log[|log| - 1].response;
      if r.error == NoFailure && r.message.Some? && r.aggregation.Some? then
        before + [Reported(r.message.value, r.aggregation.value)]
      else before
  }

  lemma {:induction false} TableIsComplete(reports: seq<Reported>)
    ensures Complete(TableOf(reports))
  {
    if reports != [] {
      TableIsComplete(reports[..|reports| - 1]);
    }
  }

  ghost predicate ReportsAfter(e: Emission, to: nat) {
    e.response.error == NoFailure && e.response.message.Some? ==> e.response.message.value.timestamp > to
  }

  lemma {:induction false} LaterLogKeepsFetch(log: seq<Emission>, n: nat, from: nat, to: nat)
    requires n <= |log| && forall i :: n <= i < |log| ==> ReportsAfter(log[i], to)
    ensures Messages(Selected(TableOf(Filed(log)), from, to)) == Messages(Selected(TableOf(Filed(log[..n])), from, to))
    decreases |log|
  {
    if n == |log| {
      assert log[..n] == log;
    } else {
      var front, e := log[..|log| - 1], log[|log| - 1];
      LaterLogKeepsFetch(front, n, from, to);
      assert front[..n] == log[..n];
      assert ReportsAfter(e, to);
      if Filed(log) != Filed(front) {
        var m := e.response.message.value;
        assert Filed(log)[..|Filed(front)|] == Filed(front);
        TableIsComplete(Filed(front));
        StoreAfterWindow(TableOf(Filed(front)), m, Stored(Digest(m), e.response.aggregation.value), from, to);
      }
    }
  }

  // ---------------------------------------------------------------------------------------------
  // Handling responses later than they are sent

  ghost predicate SameMessages(reports: seq<Reported>, others: seq<Reported>) {
    && |reports| == |others|
    && forall i :: 0 <= i < |reports| ==> reports[i].message == others[i].message
  }

  /** `reports` is what has been filed of `log`, with whatever aggregations the responses had by then. */
  ghost predicate Handles(reports: seq<Reported>, log: seq<Emission>) {
    SameMessages(reports, Filed(log))
  }

  lemma FindSame(rows: seq<Row>, others: seq<Row>, key: MessageKey)
    requires Messages(rows) == Messages(others)
    ensures |rows| == |others| && Find(rows, key) == Find(others, key)
  {
    assert |Messages(rows)| == |rows| && |Messages(others)| == |others|;
    assert forall i :: 0 <= i < |rows| ==>
      Messages(rows)[i] == rows[i].message && Messages(others)[i] == others[i].message;
  }

  lemma StoreSame(rows: seq<Row>, others: seq<Row>, m: Message, a: Stored, b: Stored)
    requires Messages(rows) == Messages(others)
    ensures Messages(Store(rows, m, a)) == Messages(Store(others, m, b))
  {
    FindSame(rows, others, m.key);
    var i := Find(rows, m.key);
    if i < |rows| {
      MessagesUpdate(rows, i, a);
      MessagesUpdate(others, i, b);
    } else {
      MessagesSnoc(rows, Row(m, Some(a)));
      MessagesSnoc(others, Row(m, Some(b)));
    }
  }

  lemma MessagesUpdate(rows: seq<Row>, i: nat, a: Stored)
    requires i < |rows|
    ensures Messages(WithAggregation(rows, i, a)) == Messages(rows)
  {
  }

  lemma {:induction false} TableSame(reports: seq<Reported>, others: seq<Reported>)
    requires SameMessages(reports, others)
    ensures Messages(TableOf(reports)) == Messages(TableOf(others))
  {
    if reports != [] {
      var n := |reports| - 1;
      var m := reports[n].message;
      TableSame(reports[..n], others[..n]);
      StoreSame(TableOf(reports[..n]), TableOf(others[..n]), m, Stored(Digest(m), reports[n].aggregation),
        Stored(Digest(m), others[n].aggregation));
    }
  }

  lemma {:induction false} SelectedSame(rows: seq<Row>, others: seq<Row>, from: nat, to: nat)
    requires Messages(rows) == Messages(others) && Complete(rows) && Complete(others)
    ensures Messages(Selected(rows, from, to)) == Messages(Selected(others, from, to))
    decreases |rows|
  {
    assert |Messages(rows)| == |rows| && |Messages(others)| == |others|;
    if rows != [] {
      var n := |rows| - 1;
      assert rows[n].message == Messages(rows)[n] == Messages(others)[n] == others[n].message;
      assert Messages(rows[..n]) == Messages(rows)[..n] == Messages(others)[..n] == Messages(others[..n]);
      SelectedSame(rows[..n], others[..n], from, to);
      MessagesSnoc(Selected(rows[..n], from, to), rows[n]);
      MessagesSnoc(Selected(others[..n], from, to), others[n]);
    }
  }

  /** The messages a fetch returns do not depend on the aggregations stored. */
  lemma FetchSame(reports: seq<Reported>, others: seq<Reported>, from: nat, to: nat)
    requires SameMessages(reports, others)
    ensures Messages(Selected(TableOf(reports), from, to)) == Messages(Selected(TableOf(others), from, to))
  {
    TableSame(reports, others);
    TableIsComplete(reports);
    TableIsComplete(others);
    SelectedSame(TableOf(reports), TableOf(others), from, to);
  }

  /**
   * The messages of a checkpoint never change once its window is frozen: in every run of the service,
   * when the responses sent by then have been handled, and however many later ones, a fetch up to the
   * checkpoint's end returns the same messages in the same order.
   */
  lemma CheckpointIsStable(latency: nat, states: seq<Service>, actions: seq<Action>, m: nat, n: nat,
                           handled: nat, reports: seq<Reported>, blockTime: nat, from: nat)
    requires IsRun(latency, states, actions) && m <= n < |states|
    requires ToTimestamp(blockTime) >= 0 && Frozen(latency, blockTime, states[m].now)
    requires |states[m].log| <= handled <= |states[n].log| && Handles(reports, states[n].log[..handled])
    ensures Messages(Selected(TableOf(reports), from, ToTimestamp(blockTime)))
         == Messages(Selected(TableOf(Filed(states[m].log)), from, ToTimestamp(blockTime)))
  {
    var log, k := states[n].log[..handled], |states[m].log|;
    LogGrows(latency, states, actions, m, n);
    assert log[..k] == states[m].log;
    forall i | k <= i < |log| ensures ReportsAfter(log[i], ToTimestamp(blockTime)) {
      assert log[i] == states[n].log[i];
      if log[i].response.error == NoFailure {
        CheckpointWindowIsFrozen(latency, states, actions, m, n, i, blockTime);
      }
    }
    LaterLogKeepsFetch(log, k, from, ToTimestamp(blockTime));
    FetchSame(reports, Filed(log), from, ToTimestamp(blockTime));
  }

  /** How often a fetch returns a message. */
  lemma {:induction false} SelectedCounts(rows: seq<Row>, from: nat, to: nat, m: Message)
    requires UniqueKeys(rows) && Complete(rows)
    ensures multiset(Messages(Selected(rows, from, to)))[m] ==
      if m in Messages(rows) && from <= m.timestamp <= to then 1 else 0
    decreases |rows|
  {
    if rows != [] {
      var n := |rows| - 1;
      SelectedCounts(rows[..n], from, to, m);
      LastIsNew(rows, m);
      CountSnoc(Selected(rows[..n], from, to), rows[n], m);
    }
  }

  lemma CountSnoc(rows: seq<Row>, r: Row, m: Message)
    ensures multiset(Messages(rows + [r]))[m] == multiset(Messages(rows))[m] + if r.message == m then 1 else 0
  {
    MessagesSnoc(rows, r);
  }

  lemma LastIsNew(rows: seq<Row>, m: Message)
    requires UniqueKeys(rows) && rows != []
    ensures var n := |rows| - 1;
      && (m in Messages(rows) <==> m in Messages(rows[..n]) || m == rows[n].message)
      && rows[n].message !in Messages(rows[..n])
  {
    var n := |rows| - 1;
    assert rows == rows[..n] + [rows[n]];
    MessagesSnoc(rows[..n], rows[n]);
    assert forall i :: 0 <= i < n ==> Messages(rows[..n])[i].key != rows[n].message.key;
  }
}
