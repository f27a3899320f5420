/**
 * The time windows of checkpoint tasks. Every tick starts a sender of its own, so several senders
 * may read the chain before any of their tasks is created; SFFLTaskManager checks each
 * window when its transaction executes.
 */
module Checkpoint {
  import opened BlsTypes
  import BlsService
  import opened Database

  const U64: nat := 0x1_0000_0000_0000_0000

  /** Subtraction of 64-bit unsigned integers, which wraps around. */
  function Sub64(a: int, b: int): (r: nat) { (a - b) % U64 }

  datatype Window = Window(from: nat, to: nat)

  /** What a sender read: the time of a block, and then the end of the last window. */
  datatype Reading = Reading(blockTime: nat, last: nat)

  /** The window of `sendNewCheckpointTask`; `interval` is the checkpoint interval in seconds. */
  function WindowOf(interval: nat, r: Reading): (w: Window) {
    var submitted := Sub64(r.blockTime, BlsService.MESSAGE_SUBMISSION_TIMEOUT);
    var to := Sub64(submitted, BlsService.MESSAGE_BLS_AGGREGATION_TIMEOUT);
    var from := if r.last == 0 then Sub64(to, interval) else (r.last + 1) % U64;
    Window(from, to)
  }

  datatype Task = Task(window: Window, reading: Reading)

  /** SFFLTaskManager: the tasks created, the last of which gives `lastCheckpointToTimestamp`. */
  function Last(tasks: seq<Task>): nat {
    if tasks == [] then 0 else tasks[|tasks| - 1].window.to
  }

  /** The requirements of `createCheckpointTask` in a block of time `chainTime`. */
  predicate Accepts(tasks: seq<Task>, w: Window, chainTime: nat) {
    w.from <= w.to <= chainTime && (w.from == 0 || w.from > Last(tasks))
  }

  /** Senders that have read a block, those that have read both, and the contract. */
  datatype System = System(chainTime: nat, started: seq<nat>, ready: seq<Reading>, tasks: seq<Task>)

  datatype Action =
    | NewBlock(time: nat)
    | ReadBlock
    | ReadLast(i: nat)
    | Execute(i: nat)

  /** The chain is older than the first window, and its time fits the contract's integers. */
  ghost predicate ChainTimeOk(interval: nat, time: nat) {
    90 + interval < time < U64 - 1
  }

  ghost predicate Enabled(interval: nat, s: System, a: Action) {
    match a
    case NewBlock(t) => s.chainTime <= t && ChainTimeOk(interval, t)
    case ReadBlock => true
    case ReadLast(i) => i < |s.started|
    case Execute(i) => i < |s.ready|
  }

  ghost function Next(interval: nat, s: System, a: Action): (r: System)
    requires Enabled(interval, s, a)
  {
    match a
    case NewBlock(t) => s.(chainTime := t)
    case ReadBlock => s.(started := s.started + [s.chainTime])
    case ReadLast(i) =>
      s.(started := s.started[..i] + s.started[i + 1..], ready := s.ready + [Reading(s.started[i], Last(s.tasks))])
    case Execute(i) =>
      var r := s.ready[i];
      var w := WindowOf(interval, r);
      s.(ready := s.ready[..i] + s.ready[i + 1..],
         tasks := if Accepts(s.tasks, w, s.chainTime) then s.tasks + [Task(w, r)] else s.tasks)
  }

  ghost predicate Init(interval: nat, s: System) {
    ChainTimeOk(interval, s.chainTime) && s.started == [] && s.ready == [] && s.tasks == []
  }

  /** A reading is of a block that exists, and of a window end no later than the present one. */
  ghost predicate ReadingOk(interval: nat, s: System, r: Reading) {
    ChainTimeOk(interval, r.blockTime) && r.blockTime <= s.chainTime && r.last <= Last(s.tasks)
  }

  /** The window is positive and ends where its block says. */
  ghost predicate TaskOk(interval: nat, t: Task) {
    && ChainTimeOk(interval, t.reading.blockTime) && t.window == WindowOf(interval, t.reading)
    && 0 < t.window.from <= t.window.to
  }

  /** A task starts after the one before it, right after unless its sender had seen no task. */
  ghost predicate Follows(interval: nat, t: Task, u: Task) {
    && t.window.to < u.window.from
    && (u.window.from == t.window.to + 1 <==> u.reading.last != 0 || u.window.to - interval == t.window.to + 1)
  }

  ghost predicate Inv(interval: nat, s: System) {
    && ChainTimeOk(interval, s.chainTime)
    && (forall i :: 0 <= i < |s.started| ==> ChainTimeOk(interval, s.started[i]) && s.started[i] <= s.chainTime)
    && (forall i :: 0 <= i < |s.ready| ==> ReadingOk(interval, s, s.ready[i]))
    && (forall i :: 0 <= i < |s.tasks| ==> TaskOk(interval, s.tasks[i]))
    && (forall i :: 0 < i < |s.tasks| ==> Follows(interval, s.tasks[i - 1], s.tasks[i]))
  }

  /** The chain is older than the window that starts from `r`. */
  predicate OldEnough(interval: nat, r: Reading) {
    90 + (if r.last == 0 then interval else 0) <= r.blockTime
  }

  /** The 64-bit arithmetic is exact if and only if the chain is old enough. */
  lemma WindowIsExact(interval: nat, r: Reading)
    requires interval < U64 && r.blockTime < U64 && r.last < U64 - 1
    ensures var w := WindowOf(interval, r);
      (w.to == r.blockTime - 90 && w.from == if r.last == 0 then r.blockTime - 90 - interval else r.last + 1)
      <==> OldEnough(interval, r)
  {
  }

  /** On a chain that is not, no window is accepted. */
  lemma YoungChainCreatesNothing(interval: nat, r: Reading, tasks: seq<Task>, chainTime: nat)
    requires interval < U64 && r.blockTime <= chainTime < U64 - 90 && !OldEnough(interval, r)
    ensures !Accepts(tasks, WindowOf(interval, r), chainTime)
  {
  }

  /** The window that a reading is meant to give, in integers that do not wrap around. */
  ghost function Intended(interval: nat, r: Reading): Window
    requires 90 + interval <= r.blockTime
  {
    Window(if r.last == 0 then r.blockTime - 90 - interval else r.last + 1, r.blockTime - 90)
  }

  /**
   * In every run, a sender's task is created exactly if its window is not empty and starts after the end
   * of every task created by then, and it is then the window that was meant.
   */
  lemma CreatesIff(interval: nat, states: seq<System>, actions: seq<Action>, n: nat, i: nat)
    requires IsRun(interval, states, actions) && n < |actions| && actions[n] == Execute(i)
    ensures i < |states[n].ready| && 90 + interval <= states[n].ready[i].blockTime
    ensures var s, r, w := states[n], states[n].ready[i], Intended(interval, states[n].ready[i]);
      states[n + 1].tasks ==
        if w.from <= w.to && forall t <- s.tasks :: t.window.to < w.from then s.tasks + [Task(w, r)] else s.tasks
  {
    assert Enabled(interval, states[n], actions[n]);
    InvThroughout(interval, states, actions, n);
    var s, r := states[n], states[n].ready[i];
    assert ReadingOk(interval, s, r);
    LastBounded(interval, s);
    WindowIsExact(interval, r);
    LastIsLatest(interval, s);
    assert s.tasks != [] ==> s.tasks[|s.tasks| - 1] in s.tasks;
  }

  lemma LastIsLatest(interval: nat, s: System)
    requires Inv(interval, s)
    ensures forall t <- s.tasks :: t.window.to <= Last(s.tasks)
  {
    forall i | 0 <= i < |s.tasks| ensures s.tasks[i].window.to <= Last(s.tasks) {
      EndsRise(interval, s, i, |s.tasks| - 1);
    }
  }

  lemma {:induction false} EndsRise(interval: nat, s: System, i: nat, j: nat)
    requires Inv(interval, s) && i <= j < |s.tasks|
    ensures s.tasks[i].window.to <= s.tasks[j].window.to
  {
    if i < j {
      EndsRise(interval, s, i, j - 1);
      assert Follows(interval, s.tasks[j - 1], s.tasks[j]) && TaskOk(interval, s.tasks[j]);
    }
  }

  lemma ExecuteKeepsInv(interval: nat, s: System, i: nat)
    requires Inv(interval, s) && i < |s.ready|
    ensures Inv(interval, Next(interval, s, Execute(i)))
  {
    var r, t := s.ready[i], Next(interval, s, Execute(i));
    assert ReadingOk(interval, s, r);
    LastBounded(interval, s);
    WindowIsExact(interval, r);
    var w := WindowOf(interval, r);
    if Accepts(s.tasks, w, s.chainTime) {
      assert TaskOk(interval, Task(w, r));
      assert s.tasks != [] ==> Follows(interval, s.tasks[|s.tasks| - 1], Task(w, r));
    }
    forall k | 0 <= k < |t.ready| ensures ReadingOk(interval, t, t.ready[k]) {
      assert ReadingOk(interval, s, s.ready[if k < i then k else k + 1]);
    }
  }

  lemma LastBounded(interval: nat, s: System)
    requires Inv(interval, s)
    ensures Last(s.tasks) < U64 - 1 && (Last(s.tasks) == 0 <==> s.tasks == [])
  {
    if s.tasks != [] {
      var t := s.tasks[|s.tasks| - 1];
      assert TaskOk(interval, t);
      assert t.window.to == Sub64(Sub64(t.reading.blockTime, 60), 30);
    }
  }

  lemma NextKeepsInv(interval: nat, s: System, a: Action)
    requires Inv(interval, s) && Enabled(interval, s, a)
    ensures Inv(interval, Next(interval, s, a))
  {
    if a.Execute? {
      ExecuteKeepsInv(interval, s, a.i);
    } else {
      var t := Next(interval, s, a);
      forall k | 0 <= k < |t.ready| ensures ReadingOk(interval, t, t.ready[k]) {
        assert k < |s.ready| ==> ReadingOk(interval, s, s.ready[k]);
      }
    }
  }

  ghost predicate IsRun(interval: nat, states: seq<System>, actions: seq<Action>) {
    && |states| == |actions| + 1 && Init(interval, states[0])
    && forall i {:trigger actions[i]} :: 0 <= i < |actions| ==>
      Enabled(interval, states[i], actions[i]) && states[i + 1] == Next(interval, states[i], actions[i])
  }

  lemma {:induction false} InvThroughout(interval: nat, states: seq<System>, actions: seq<Action>, n: nat)
    requires IsRun(interval, states, actions) && n < |states|
    ensures Inv(interval, states[n])
  {
    if n > 0 {
      InvThroughout(interval, states, actions, n - 1);
      assert states[n] == Next(interval, states[n - 1], actions[n - 1]);
      NextKeepsInv(interval, states[n - 1], actions[n - 1]);
    }
  }

  /**
   * In every run, however senders interleave: windows never overlap and only advance, and there is
   * no gap before a task exactly when its sender had read a task's end, or happens to start there.
   */
  lemma WindowsFollow(interval: nat, states: seq<System>, actions: seq<Action>, n: nat, i: nat)
    requires IsRun(interval, states, actions) && n < |states| && 0 < i < |states[n].tasks|
    ensures var t, u := states[n].tasks[i - 1], states[n].tasks[i];
      && t.window.to < u.window.from <= u.window.to
      && (u.window.from == t.window.to + 1 <==> u.reading.last != 0 || u.window.to - interval == t.window.to + 1)
  {
    InvThroughout(interval, states, actions, n);
    assert Follows(interval, states[n].tasks[i - 1], states[n].tasks[i]);
    assert TaskOk(interval, states[n].tasks[i]);
  }

  lemma GoOn(interval: nat, states: seq<System>, actions: seq<Action>, a: Action, s: System)
      returns (states1: seq<System>, actions1: seq<Action>)
    requires IsRun(interval, states, actions) && Enabled(interval, states[|actions|], a)
    requires Next(interval, states[|actions|], a) == s
    ensures IsRun(interval, states1, actions1) && states1[|actions1|] == s
  {
    states1, actions1 := states + [s], actions + [a];
  }

  /** A sender that reads both at once. */
  lemma ReadBoth(interval: nat, states: seq<System>, actions: seq<Action>, s: System)
      returns (states1: seq<System>, actions1: seq<Action>)
    requires IsRun(interval, states, actions) && states[|actions|] == s && s.started == []
    ensures IsRun(interval, states1, actions1)
    ensures states1[|actions1|] == s.(ready := s.ready + [Reading(s.chainTime, Last(s.tasks))])
  {
    states1, actions1 := GoOn(interval, states, actions, ReadBlock, s.(started := [s.chainTime]));
    states1, actions1 := GoOn(interval, states1, actions1, ReadLast(0),
      s.(ready := s.ready + [Reading(s.chainTime, Last(s.tasks))]));
  }

  /** Two senders that both read before the first task. */
  lemma TwoFirstReaders() returns (states: seq<System>, actions: seq<Action>)
    ensures IsRun(5, states, actions)
    ensures states[|actions|] == System(2000, [], [Reading(1000, 0), Reading(2000, 0)], [])
  {
    states, actions := [System(1000, [], [], [])], [];
    states, actions := ReadBoth(5, states, actions, System(1000, [], [], []));
    var s := System(2000, [], [Reading(1000, 0)], []);
    states, actions := GoOn(5, states, actions, NewBlock(2000), s);
    states, actions := ReadBoth(5, states, actions, s);
    assert [Reading(1000, 0)] + [Reading(2000, 0)] == [Reading(1000, 0), Reading(2000, 0)];
  }

  /** The second of them can leave a gap. */
  lemma FirstSendersLeaveGap() returns (states: seq<System>, actions: seq<Action>)
    ensures IsRun(5, states, actions) && |states[|actions|].tasks| == 2
    ensures states[|actions|].tasks[1].window.from > states[|actions|].tasks[0].window.to + 1
  {
    states, actions := TwoFirstReaders();
    var s := states[|actions|];
    WindowIsExact(5, s.ready[0]);
    WindowIsExact(5, s.ready[1]);
    var t := Next(5, s, Execute(0));
    assert t.ready == [Reading(2000, 0)];
    states, actions := GoOn(5, states, actions, Execute(0), t);
    states, actions := GoOn(5, states, actions, Execute(0), Next(5, t, Execute(0)));
  }

  // ---------------------------------------------------------------------------------------------
  // What the windows cover

  /** Windows that leave no gap and do not overlap. */
  ghost predicate Tile(ws: seq<Window>) {
    && (forall i :: 0 <= i < |ws| ==> ws[i].from <= ws[i].to)
    && forall i :: 0 < i < |ws| ==> ws[i].from == ws[i - 1].to + 1
  }

  ghost function WindowsOf(tasks: seq<Task>): seq<Window> {
    seq(|tasks|, i requires 0 <= i < |tasks| => tasks[i].window)
  }

  /** If every sender but the first had read the end of an earlier window, the windows tile time. */
  lemma SequentialTasksTile(interval: nat, states: seq<System>, actions: seq<Action>, n: nat)
    requires IsRun(interval, states, actions) && n < |states|
    requires forall i :: 0 < i < |states[n].tasks| ==> states[n].tasks[i].reading.last != 0
    ensures Tile(WindowsOf(states[n].tasks))
  {
    var tasks := states[n].tasks;
    InvThroughout(interval, states, actions, n);
    forall i | 0 <= i < |tasks| ensures tasks[i].window.from <= tasks[i].window.to {
      assert TaskOk(interval, tasks[i]);
    }
    forall i | 0 < i < |tasks| ensures tasks[i].window.from == tasks[i - 1].window.to + 1 {
      WindowsFollow(interval, states, actions, n, i);
    }
  }

  /** The rows of all windows, window by window. */
  ghost function FetchAll(rows: seq<Row>, ws: seq<Window>): seq<Row> {
    if ws == [] then []
    else FetchAll(rows, ws[..|ws| - 1]) + Selected(rows, ws[|ws| - 1].from, ws[|ws| - 1].to)
  }

  /** A fetch of two adjoining windows is, as a collection, the fetch of both. */
  lemma {:induction false} SelectedSplits(rows: seq<Row>, from: nat, mid: nat, to: nat)
    requires from <= mid + 1 && mid <= to
    ensures multiset(Selected(rows, from, mid)) + multiset(Selected(rows, mid + 1, to)) ==
      multiset(Selected(rows, from, to))
  {
    if rows != [] {
      SelectedSplits(rows[..|rows| - 1], from, mid, to);
    }
  }

  lemma FirstWindowsTile(ws: seq<Window>)
    requires |ws| > 1 && Tile(ws)
    ensures var n := |ws| - 1;
      Tile(ws[..n]) && ws[n].from == ws[n - 1].to + 1
  {
  }

  lemma FetchLast(rows: seq<Row>, ws: seq<Window>)
    requires ws != []
    ensures var n := |ws| - 1;
      FetchAll(rows, ws) == FetchAll(rows, ws[..n]) + Selected(rows, ws[n].from, ws[n].to)
  {
  }

  lemma OneMoreWindow(rows: seq<Row>, fetched: seq<Row>, from: nat, mid: nat, to: nat)
    requires from <= mid <= to && multiset(fetched) == multiset(Selected(rows, from, mid))
    ensures multiset(fetched + Selected(rows, mid + 1, to)) == multiset(Selected(rows, from, to))
  {
    SelectedSplits(rows, from, mid, to);
  }

  /**
   * The checkpoints of windows that tile time return together exactly what one fetch of the whole
   * span returns: every aggregated message of the span is in exactly one of them, as often as stored.
   */
  lemma {:induction false} CheckpointsPartition(rows: seq<Row>, ws: seq<Window>)
    requires Tile(ws) && ws != []
    ensures ws[0].from <= ws[|ws| - 1].to
    ensures multiset(FetchAll(rows, ws)) == multiset(Selected(rows, ws[0].from, ws[|ws| - 1].to))
  {
    var n := |ws| - 1;
    if n == 0 {
      assert FetchAll(rows, ws[..0]) == [];
      assert FetchAll(rows, ws) == Selected(rows, ws[0].from, ws[0].to);
    } else {
      var front := ws[..n];
      FirstWindowsTile(ws);
      CheckpointsPartition(rows, front);
      FetchLast(rows, ws);
      OneMoreWindow(rows, FetchAll(rows, front), ws[0].from, ws[n - 1].to, ws[n].to);
    }
  }

  /** No row is in two of the windows. */
  lemma {:induction false} WindowsDisjoint(ws: seq<Window>, i: nat, j: nat, r: Row)
    requires Tile(ws) && i < j < |ws|
    ensures !(InWindow(r, ws[i].from, ws[i].to) && InWindow(r, ws[j].from, ws[j].to))
  {
    Ascending(ws, i, j);
  }

  lemma {:induction false} Ascending(ws: seq<Window>, i: nat, j: nat)
    requires Tile(ws) && i < j < |ws|
    ensures ws[i].to < ws[j].from
  {
    if i + 1 < j {
      Ascending(ws, i, j - 1);
    }
  }

  // ---------------------------------------------------------------------------------------------
  // Fetches at their own times

  /** A fetch after the service's state `frozen`: the first `handled` responses sent have been filed as `reports`. */
  datatype Fetch = Fetch(frozen: nat, handled: nat, reports: seq<Reported>)

  /** The window of a block of time `blockTime` is frozen by then, and what had been sent is filed. */
  ghost predicate InOrder(latency: nat, states: seq<BlsService.Service>, n: nat, blockTime: nat, f: Fetch) {
    && f.frozen <= n < |states| && BlsService.Frozen(latency, blockTime, states[f.frozen].now)
    && |states[f.frozen].log| <= f.handled <= |states[n].log|
    && Handles(f.reports, states[n].log[..f.handled])
  }

  ghost predicate AllInOrder(
    latency: nat, states: seq<BlsService.Service>, n: nat, tasks: seq<Task>, fetches: seq<Fetch>)
  {
    && n < |states| && |fetches| == |tasks|
    && forall i :: 0 <= i < |tasks| ==> InOrder(latency, states, n, tasks[i].reading.blockTime, fetches[i])
  }

  /** The fetch for each task returns its listing. */
  ghost predicate AllReturned(tasks: seq<Task>, fetches: seq<Fetch>, listings: seq<Listing>) {
    && |tasks| == |fetches| == |listings|
    && forall i :: 0 <= i < |tasks| ==>
      Returned(TableOf(fetches[i].reports), tasks[i].window.from, tasks[i].window.to, listings[i])
  }

  /** The messages of all listings, one after the other. */
  ghost function AllMessages(listings: seq<Listing>): seq<Message> {
    if listings == [] then []
    else AllMessages(listings[..|listings| - 1]) + listings[|listings| - 1].messages
  }

  /** A fetch in order returns what a fetch of the final table would. */
  lemma FetchIsFinal(interval: nat, t: Task, latency: nat, states: seq<BlsService.Service>,
                     actions: seq<BlsService.Action>, n: nat, f: Fetch, l: Listing)
    requires BlsService.IsRun(latency, states, actions) && TaskOk(interval, t)
    requires InOrder(latency, states, n, t.reading.blockTime, f)
    requires Returned(TableOf(f.reports), t.window.from, t.window.to, l)
    ensures l.messages == Messages(Selected(TableOf(Filed(states[n].log)), t.window.from, t.window.to))
  {
    ReturnedAreSelected(TableOf(f.reports), t.window.from, t.window.to, l);
    var log := states[n].log;
    assert t.window.to == BlsService.ToTimestamp(t.reading.blockTime);
    BlsService.LogGrows(latency, states, actions, f.frozen, n);
    assert log[..|log|] == log;
    CheckpointIsStable(latency, states, actions, f.frozen, n, f.handled, f.reports, t.reading.blockTime, t.window.from);
    CheckpointIsStable(latency, states, actions, f.frozen, n, |log|, Filed(log), t.reading.blockTime, t.window.from);
  }

  /** Each listing has the messages that a fetch of `rows` would return. */
  ghost predicate ListedFrom(rows: seq<Row>, tasks: seq<Task>, listings: seq<Listing>) {
    && |tasks| == |listings|
    && forall i :: 0 <= i < |tasks| ==>
      listings[i].messages == Messages(Selected(rows, tasks[i].window.from, tasks[i].window.to))
  }

  lemma CountEach(listings: seq<Listing>, m: Message)
    requires listings != []
    ensures var n := |listings| - 1;
      multiset(AllMessages(listings))[m] ==
      multiset(AllMessages(listings[..n]))[m] + multiset(listings[n].messages)[m]
  {
  }

  lemma ListedFromFront(rows: seq<Row>, tasks: seq<Task>, listings: seq<Listing>)
    requires tasks != [] && ListedFrom(rows, tasks, listings)
    ensures ListedFrom(rows, tasks[..|tasks| - 1], listings[..|tasks| - 1])
  {
  }

  lemma ListingCounts(rows: seq<Row>, tasks: seq<Task>, listings: seq<Listing>, i: nat, m: Message)
    requires UniqueKeys(rows) && Complete(rows) && ListedFrom(rows, tasks, listings) && i < |tasks|
    ensures multiset(listings[i].messages)[m] ==
      if m in Messages(rows) && tasks[i].window.from <= m.timestamp <= tasks[i].window.to then 1 else 0
  {
    SelectedCounts(rows, tasks[i].window.from, tasks[i].window.to, m);
  }

  /** How often the first listings have `m`, as windows that tile time would have it. */
  ghost predicate CountedOnce(rows: seq<Row>, from: nat, to: nat, listings: seq<Listing>, m: Message) {
    && from <= to
    && multiset(AllMessages(listings))[m] == if m in Messages(rows) && from <= m.timestamp <= to then 1 else 0
  }

  lemma CountOneMore(rows: seq<Row>, tasks: seq<Task>, listings: seq<Listing>, n: nat, from: nat, m: Message)
    requires UniqueKeys(rows) && Complete(rows) && ListedFrom(rows, tasks, listings) && 0 < n == |tasks| - 1
    requires tasks[n].window.from == tasks[n - 1].window.to + 1 && tasks[n].window.from <= tasks[n].window.to
    requires CountedOnce(rows, from, tasks[n - 1].window.to, listings[..n], m)
    ensures CountedOnce(rows, from, tasks[n].window.to, listings, m)
  {
    CountEach(listings, m);
    ListingCounts(rows, tasks, listings, n, m);
  }

  lemma CountFirst(rows: seq<Row>, tasks: seq<Task>, listings: seq<Listing>, m: Message)
    requires UniqueKeys(rows) && Complete(rows) && ListedFrom(rows, tasks, listings) && |tasks| == 1
    requires tasks[0].window.from <= tasks[0].window.to
    ensures CountedOnce(rows, tasks[0].window.from, tasks[0].window.to, listings, m)
  {
    CountEach(listings, m);
    assert AllMessages(listings[..0]) == [];
    ListingCounts(rows, tasks, listings, 0, m);
  }

  /** Fetches of windows that tile time count every message of the span once. */
  lemma {:induction false} TiledCounts(rows: seq<Row>, tasks: seq<Task>, listings: seq<Listing>, m: Message)
    requires UniqueKeys(rows) && Complete(rows) && tasks != []
    requires Tile(WindowsOf(tasks)) && ListedFrom(rows, tasks, listings)
    ensures CountedOnce(rows, tasks[0].window.from, tasks[|tasks| - 1].window.to, listings, m)
    decreases |tasks|
  {
    var n := |tasks| - 1;
    if n == 0 {
      assert WindowsOf(tasks)[0] == tasks[0].window;
      CountFirst(rows, tasks, listings, m);
    } else {
      TileFront(tasks);
      ListedFromFront(rows, tasks, listings);
      TiledCounts(rows, tasks[..n], listings[..n], m);
      assert tasks[..n][0] == tasks[0] && tasks[..n][n - 1] == tasks[n - 1];
      CountOneMore(rows, tasks, listings, n, tasks[0].window.from, m);
    }
  }

  lemma TileFront(tasks: seq<Task>)
    requires |tasks| > 1 && Tile(WindowsOf(tasks))
    ensures var n := |tasks| - 1;
      && Tile(WindowsOf(tasks[..n]))
      && tasks[n - 1].window.to + 1 == tasks[n].window.from <= tasks[n].window.to
  {
    var n := |tasks| - 1;
    FirstWindowsTile(WindowsOf(tasks));
    assert WindowsOf(tasks[..n]) == WindowsOf(tasks)[..n];
    assert WindowsOf(tasks)[n] == tasks[n].window && WindowsOf(tasks)[n - 1] == tasks[n - 1].window;
  }

  /** Tasks as the contract accepts them, whose windows tile time. */
  ghost predicate Tiling(interval: nat, tasks: seq<Task>) {
    tasks != [] && Tile(WindowsOf(tasks)) && forall i :: 0 <= i < |tasks| ==> TaskOk(interval, tasks[i])
  }

  /** The listings together have `m` once if it is filed with a time in the span of the tasks, and else not. */
  ghost predicate ReturnOnce(tasks: seq<Task>, listings: seq<Listing>, rows: seq<Row>, m: Message)
    requires tasks != []
  {
    multiset(AllMessages(listings))[m] ==
    if m in Messages(rows) && tasks[0].window.from <= m.timestamp <= tasks[|tasks| - 1].window.to then 1 else 0
  }

  lemma TasksCoverOnce(interval: nat, tasks: seq<Task>, latency: nat, states: seq<BlsService.Service>,
                       actions: seq<BlsService.Action>, n: nat, fetches: seq<Fetch>, listings: seq<Listing>,
                       m: Message)
    requires Tiling(interval, tasks)
    requires BlsService.IsRun(latency, states, actions) && AllInOrder(latency, states, n, tasks, fetches)
    requires AllReturned(tasks, fetches, listings)
    ensures ReturnOnce(tasks, listings, TableOf(Filed(states[n].log)), m)
  {
    var rows := TableOf(Filed(states[n].log));
    forall i | 0 <= i < |tasks|
      ensures listings[i].messages == Messages(Selected(rows, tasks[i].window.from, tasks[i].window.to))
    {
      FetchIsFinal(interval, tasks[i], latency, states, actions, n, fetches[i], listings[i]);
    }
    TableIsComplete(Filed(states[n].log));
    TiledCounts(rows, tasks, listings, m);
  }

  lemma SequentialTiling(interval: nat, states: seq<System>, actions: seq<Action>, n: nat)
    requires IsRun(interval, states, actions) && n < |states| && states[n].tasks != []
    requires forall i :: 0 < i < |states[n].tasks| ==> states[n].tasks[i].reading.last != 0
    ensures Tiling(interval, states[n].tasks)
  {
    SequentialTasksTile(interval, states, actions, n);
    InvThroughout(interval, states, actions, n);
  }

  /**
   * Checkpoints fetched each at its own time: in every run of the senders in which each but the first
   * had seen a checkpoint, and every run of the service, the fetches, made when their windows are
   * frozen, together return each message filed with a time in the whole span, once, and no other.
   */
  lemma CheckpointsCoverOnce(interval: nat, chain: seq<System>, moves: seq<Action>, c: nat, latency: nat,
                             states: seq<BlsService.Service>, actions: seq<BlsService.Action>, n: nat,
                             fetches: seq<Fetch>, listings: seq<Listing>, m: Message)
    requires IsRun(interval, chain, moves) && c < |chain| && chain[c].tasks != []
    requires forall i :: 0 < i < |chain[c].tasks| ==> chain[c].tasks[i].reading.last != 0
    requires BlsService.IsRun(latency, states, actions) && AllInOrder(latency, states, n, chain[c].tasks, fetches)
    requires AllReturned(chain[c].tasks, fetches, listings)
    ensures ReturnOnce(chain[c].tasks, listings, TableOf(Filed(states[n].log)), m)
  {
    SequentialTiling(interval, chain, moves, c);
    TasksCoverOnce(interval, chain[c].tasks, latency, states, actions, n, fetches, listings, m);
  }
}
