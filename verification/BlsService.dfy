/**
 * The aggregation service over time: signers whose message passed the timestamp check, the channel
 * registry, and one goroutine per registered channel. Any number of calls run at once, each lock
 * section, fetch, delivery and timer being a step of its own.
 */
module BlsService {
  import opened BlsTypes
  import opened BlsLedger
  import opened BlsGoroutine

  /** Clock readings are in nanoseconds. */
  const SECOND: nat := 1_000_000_000
  const MESSAGE_SUBMISSION_TIMEOUT: nat := 60
  const MESSAGE_TTL: nat := 60
  const MESSAGE_BLS_AGGREGATION_TIMEOUT: nat := 30

  /** `validateMessageTimestamp`: the clock is read in whole seconds. */
  predicate TimestampOk(now: nat, timestamp: nat) {
    var seconds := now / SECOND;
    !(seconds > MESSAGE_SUBMISSION_TIMEOUT && timestamp < seconds - MESSAGE_SUBMISSION_TIMEOUT)
  }

  /** The check passes exactly until the end of the 60th second after the timestamp. */
  lemma TimestampOkUntil(now: nat, timestamp: nat)
    ensures TimestampOk(now, timestamp) <==> now < (timestamp + 61) * 1_000_000_000
  {
    assert now == (now / SECOND) * SECOND + now % SECOND;
  }

  /** A call to process a signature. It holds no channel until it has looked one up. */
  datatype Call = Call(message: Message, operator: OperatorId, sig: Point, checkedAt: nat, chan: Option<nat>)

  datatype Task =
    | Fetching(key: MessageKey)
    | FetchFailed(key: MessageKey)
    | Running(key: MessageKey, g: Goroutine, deadline: nat)
    | Closed(key: MessageKey)

  datatype Emission = Emission(at: nat, response: Response)

  /** Channels are numbered by creation: channel `c` belongs to `tasks[c]`. */
  datatype Service = Service(
    now: nat, chans: map<MessageKey, nat>, tasks: seq<Task>, calls: seq<Call>, log: seq<Emission>)

  datatype Action =
    | Tick(to: nat)
    | Submit(message: Message, operator: OperatorId, sig: Point)
    | Initialize(call: nat)
    | FetchSucceeds(chan: nat, info: Info)
    | FetchFails(chan: nat)
    | LookUp(call: nat)
    | Deliver(call: nat, indicesOk: bool)
    | TimerFires(chan: nat, indicesOk: bool)
    | Close(chan: nat)

  ghost predicate Live(t: Task) { t.Running? && !t.g.phase.Stopped? }

  /** Time does not run past `latency` after the timer of a live goroutine. */
  ghost predicate MayTick(latency: nat, s: Service, to: nat) {
    s.now <= to && forall c :: 0 <= c < |s.tasks| && Live(s.tasks[c]) ==> to <= s.tasks[c].deadline + latency
  }

  ghost function EventOf(c: Call, indicesOk: bool): Event {
    SignedMessage(c.message, c.operator, c.sig, indicesOk)
  }

  /** A signature reaches the goroutine within `latency` of its timestamp check. */
  ghost predicate MayDeliver(latency: nat, s: Service, i: nat) {
    && i < |s.calls| && s.calls[i].chan.Some? && s.calls[i].chan.value < |s.tasks|
    && Live(s.tasks[s.calls[i].chan.value])
    && WellFormed(s.tasks[s.calls[i].chan.value].g.info, s.tasks[s.calls[i].chan.value].g.ledger)
    && s.now <= s.calls[i].checkedAt + latency
  }

  ghost predicate Enabled(latency: nat, s: Service, a: Action) {
    match a
    case Tick(to) => MayTick(latency, s, to)
    case Submit(m, _, _) => TimestampOk(s.now, m.timestamp)
    case Initialize(i) => i < |s.calls|
    case FetchSucceeds(c, info) => c < |s.tasks| && s.tasks[c].Fetching? && Sound(info)
    case FetchFails(c) => c < |s.tasks| && s.tasks[c].Fetching?
    case LookUp(i) => i < |s.calls| && s.calls[i].message.key in s.chans
    case Deliver(i, _) => MayDeliver(latency, s, i)
    case TimerFires(c, _) =>
      && c < |s.tasks| && Live(s.tasks[c]) && s.tasks[c].deadline <= s.now
      && WellFormed(s.tasks[c].g.info, s.tasks[c].g.ledger)
    case Close(c) => c < |s.tasks| && s.tasks[c].Running? && s.tasks[c].g.phase.Stopped?
  }

  /** The goroutine of `t` receives `e`; reaching the threshold starts the aggregation timer. */
  ghost function Receive(now: nat, t: Task, e: Event): (r: Task)
    requires Live(t) && WellFormed(t.g.info, t.g.ledger)
  {
    var g := Step(t.g, e);
    var reached := t.g.phase == PreThreshold && g.phase.Reached?;
    t.(g := g, deadline := if reached then now + MESSAGE_BLS_AGGREGATION_TIMEOUT * SECOND else t.deadline)
  }

  /** The responses that a step of a goroutine added, stamped. */
  ghost function Stamped(now: nat, before: Task, after: Task): seq<Emission>
    requires before.Running? && after.Running? && |before.g.emitted| <= |after.g.emitted|
  {
    seq(|after.g.emitted| - |before.g.emitted|,
      i requires 0 <= i < |after.g.emitted| - |before.g.emitted| =>
        Emission(now, after.g.emitted[|before.g.emitted| + i]))
  }

  ghost function Received(s: Service, c: nat, e: Event): Service
    requires c < |s.tasks| && Live(s.tasks[c]) && WellFormed(s.tasks[c].g.info, s.tasks[c].g.ledger)
  {
    var t := Receive(s.now, s.tasks[c], e);
    StepEmits(s.tasks[c].g, e);
    s.(tasks := s.tasks[c := t], log := s.log + Stamped(s.now, s.tasks[c], t))
  }

  /** A step sends at most one response, and only ever adds to those sent. */
  lemma StepEmits(g: Goroutine, e: Event)
    requires WellFormed(g.info, g.ledger) && !g.phase.Stopped?
    ensures var h := Step(g, e);
      |g.emitted| <= |h.emitted| <= |g.emitted| + 1 && h.emitted[..|g.emitted|] == g.emitted
  {
  }

  ghost function WithoutCall(s: Service, i: nat): Service
    requires i < |s.calls|
  {
    s.(calls := s.calls[..i] + s.calls[i + 1..])
  }

  ghost function Next(latency: nat, s: Service, a: Action): (r: Service)
    requires Enabled(latency, s, a)
  {
    match a
    case Tick(to) => s.(now := to)
    case Submit(m, o, sig) => s.(calls := s.calls + [Call(m, o, sig, s.now, None)])
    case Initialize(i) =>
      var key := s.calls[i].message.key;
      if key in s.chans then s
      else s.(chans := s.chans[key := |s.tasks|], tasks := s.tasks + [Fetching(key)])
    case FetchSucceeds(c, info) =>
      s.(tasks := s.tasks[c := Running(s.tasks[c].key, Start(info), s.now + MESSAGE_TTL * SECOND)])
    case FetchFails(c) => s.(tasks := s.tasks[c := FetchFailed(s.tasks[c].key)])
    case LookUp(i) => s.(calls := s.calls[i := s.calls[i].(chan := Some(s.chans[s.calls[i].message.key]))])
    case Deliver(i, ok) =>
      Received(WithoutCall(s, i), s.calls[i].chan.value, EventOf(s.calls[i], ok))
    case TimerFires(c, ok) => Received(s, c, Timer(ok))
    case Close(c) => s.(chans := s.chans - {s.tasks[c].key}, tasks := s.tasks[c := Closed(s.tasks[c].key)])
  }

  ghost predicate Init(s: Service) {
    s.chans == map[] && s.tasks == [] && s.calls == [] && s.log == []
  }

  // ---------------------------------------------------------------------------------------------
  // The registry

  /** A key is registered exactly while a task of it is not closed, and to that one task. */
  ghost predicate Registry(s: Service) {
    && (forall k :: k in s.chans ==>
          s.chans[k] < |s.tasks| && s.tasks[s.chans[k]].key == k && !s.tasks[s.chans[k]].Closed?)
    && (forall c :: 0 <= c < |s.tasks| && !s.tasks[c].Closed? ==>
          s.tasks[c].key in s.chans && s.chans[s.tasks[c].key] == c)
  }

  lemma ReceivedKeepsRegistry(s: Service, c: nat, e: Event)
    requires Registry(s) && c < |s.tasks| && Live(s.tasks[c]) && WellFormed(s.tasks[c].g.info, s.tasks[c].g.ledger)
    ensures Registry(Received(s, c, e))
  {
  }

  lemma InitializeKeepsRegistry(latency: nat, s: Service, i: nat)
    requires Registry(s) && i < |s.calls|
    ensures Registry(Next(latency, s, Initialize(i)))
  {
  }

  lemma CloseKeepsRegistry(latency: nat, s: Service, c: nat)
    requires Registry(s) && Enabled(latency, s, Close(c))
    ensures Registry(Next(latency, s, Close(c)))
  {
  }

  lemma NextKeepsRegistry(latency: nat, s: Service, a: Action)
    requires Registry(s) && Enabled(latency, s, a)
    ensures Registry(Next(latency, s, a))
  {
    match a
    case Deliver(i, ok) =>
      ReceivedKeepsRegistry(WithoutCall(s, i), s.calls[i].chan.value, EventOf(s.calls[i], ok));
    case TimerFires(c, ok) => ReceivedKeepsRegistry(s, c, Timer(ok));
    case Initialize(i) => InitializeKeepsRegistry(latency, s, i);
    case Close(c) => CloseKeepsRegistry(latency, s, c);
    case _ =>
  }

  /** Runs, as the states they pass through. */
  ghost predicate IsRun(latency: nat, states: seq<Service>, actions: seq<Action>) {
    && |states| == |actions| + 1 && Init(states[0])
    && forall i {:trigger actions[i]} :: 0 <= i < |actions| ==>
      Enabled(latency, states[i], actions[i]) && states[i + 1] == Next(latency, states[i], actions[i])
  }

  /** At most one task of a key is open in any state of any run, so at most one goroutine is live. */
  lemma OneTaskPerKey(latency: nat, states: seq<Service>, actions: seq<Action>, n: nat, c: nat, d: nat)
    requires IsRun(latency, states, actions) && n < |states|
    requires c < |states[n].tasks| && d < |states[n].tasks| && states[n].tasks[c].key == states[n].tasks[d].key
    requires !states[n].tasks[c].Closed? && !states[n].tasks[d].Closed?
    ensures c == d
  {
    RegistryThroughout(latency, states, actions, n);
  }

  lemma {:induction false} RegistryThroughout(latency: nat, states: seq<Service>, actions: seq<Action>, n: nat)
    requires IsRun(latency, states, actions) && n < |states|
    ensures Registry(states[n])
  {
    if n > 0 {
      RegistryThroughout(latency, states, actions, n - 1);
      assert states[n] == Next(latency, states[n - 1], actions[n - 1]);
      NextKeepsRegistry(latency, states[n - 1], actions[n - 1]);
    }
  }

  /** After a failed fetch the key stays registered for ever, and no goroutine of it ever runs. */
  lemma {:induction false} FailedFetchBlocksKey(latency: nat, states: seq<Service>, actions: seq<Action>, m: nat,
                                                n: nat, c: nat)
    requires IsRun(latency, states, actions) && m <= n < |states|
    requires c < |states[m].tasks| && states[m].tasks[c].FetchFailed?
    ensures c < |states[n].tasks| && states[n].tasks[c] == states[m].tasks[c]
    ensures states[m].tasks[c].key in states[n].chans
    ensures forall d :: 0 <= d < |states[n].tasks| && Live(states[n].tasks[d]) ==>
      states[n].tasks[d].key != states[m].tasks[c].key
  {
    if m < n {
      FailedFetchBlocksKey(latency, states, actions, m, n - 1, c);
      assert states[n] == Next(latency, states[n - 1], actions[n - 1]);
      FailedStays(latency, states[n - 1], actions[n - 1], c);
    }
    RegistryThroughout(latency, states, actions, n);
  }

  lemma FailedStays(latency: nat, s: Service, a: Action, c: nat)
    requires Enabled(latency, s, a) && c < |s.tasks| && s.tasks[c].FetchFailed?
    ensures c < |Next(latency, s, a).tasks| && Next(latency, s, a).tasks[c] == s.tasks[c]
  {
  }

  // ---------------------------------------------------------------------------------------------
  // How late a response can be

  /** When the timestamp check passed, at the latest. */
  ghost function CheckedBefore(m: Message): nat { (m.timestamp + 61) * 1_000_000_000 }

  /** Until when the message is reported, at the latest. */
  ghost function ReportedBefore(latency: nat, m: Message): nat {
    CheckedBefore(m) + 30_000_000_000 + 2 * latency
  }

  ghost predicate CallInv(s: Service, c: Call) {
    && c.checkedAt < CheckedBefore(c.message)
    && (c.chan.Some? ==> c.chan.value < |s.tasks| && s.tasks[c.chan.value].key == c.message.key)
  }

  ghost predicate TaskInv(latency: nat, now: nat, t: Task) {
    t.Running? ==>
      && Inv(t.g)
      && (Live(t) ==> now <= t.deadline + latency)
      && (t.g.phase.Reached? ==>
          && t.g.phase.message.key == t.key
          && t.deadline < CheckedBefore(t.g.phase.message) + latency + 30_000_000_000)
  }

  /** A response without error is for a message, and not too late for it. */
  ghost predicate InTime(latency: nat, e: Emission) {
    e.response.error == NoFailure ==>
      e.response.message.Some? && e.at < ReportedBefore(latency, e.response.message.value)
  }

  ghost predicate ServiceInv(latency: nat, s: Service) {
    && (forall i :: 0 <= i < |s.calls| ==> CallInv(s, s.calls[i]))
    && (forall c :: 0 <= c < |s.tasks| ==> TaskInv(latency, s.now, s.tasks[c]))
    && (forall i :: 0 <= i < |s.log| ==> InTime(latency, s.log[i]))
  }

  /** What a goroutine reports on a signature: that signature's message, if anything. */
  lemma StepReportsReceived(g: Goroutine, e: Event)
    requires WellFormed(g.info, g.ledger) && !g.phase.Stopped? && e.SignedMessage?
    ensures var h := Step(g, e);
      && (|h.emitted| > |g.emitted| ==> h.emitted[|g.emitted|].message == Some(e.message))
      && (h.phase.Reached? && h.phase != g.phase ==> h.phase.message == e.message)
  {
  }

  /** A delivered signature leaves its aggregation in order and reports in time. */
  lemma DeliverInTime(latency: nat, now: nat, t: Task, c: Call, ok: bool)
    requires TaskInv(latency, now, t) && Live(t) && c.message.key == t.key
    requires c.checkedAt < CheckedBefore(c.message) && now <= c.checkedAt + latency
    ensures var r := Receive(now, t, EventOf(c, ok));
      && r.Running? && |t.g.emitted| <= |r.g.emitted|
      && TaskInv(latency, now, r) && forall e <- Stamped(now, t, r) :: InTime(latency, e)
  {
    StepEmits(t.g, EventOf(c, ok));
    DeliverKeepsTask(latency, now, t, c, ok);
    DeliverReports(latency, now, t, c, ok);
  }

  lemma DeliverKeepsTask(latency: nat, now: nat, t: Task, c: Call, ok: bool)
    requires TaskInv(latency, now, t) && Live(t) && c.message.key == t.key
    requires c.checkedAt < CheckedBefore(c.message) && now <= c.checkedAt + latency
    ensures TaskInv(latency, now, Receive(now, t, EventOf(c, ok)))
  {
    StepKeepsInv(t.g, EventOf(c, ok));
    StepReportsReceived(t.g, EventOf(c, ok));
  }

  lemma DeliverReports(latency: nat, now: nat, t: Task, c: Call, ok: bool)
    requires Live(t) && WellFormed(t.g.info, t.g.ledger)
    requires c.checkedAt < CheckedBefore(c.message) && now <= c.checkedAt + latency
    ensures var r := Receive(now, t, EventOf(c, ok));
      && r.Running? && |t.g.emitted| <= |r.g.emitted|
      && forall e <- Stamped(now, t, r) :: InTime(latency, e)
  {
    StepEmits(t.g, EventOf(c, ok));
    StepReportsReceived(t.g, EventOf(c, ok));
  }

  /** So does a fired timer: before the threshold it reports an error, after it in time. */
  lemma TimerInTime(latency: nat, now: nat, t: Task, ok: bool)
    requires TaskInv(latency, now, t) && Live(t)
    ensures var r := Receive(now, t, Timer(ok));
      && r.Running? && |t.g.emitted| <= |r.g.emitted|
      && TaskInv(latency, now, r) && forall e <- Stamped(now, t, r) :: InTime(latency, e)
  {
    StepEmits(t.g, Timer(ok));
    StepKeepsInv(t.g, Timer(ok));
  }

  lemma ReceivedKeepsCalls(s: Service, c: nat, e: Event)
    requires c < |s.tasks| && Live(s.tasks[c]) && WellFormed(s.tasks[c].g.info, s.tasks[c].g.ledger)
    requires forall i :: 0 <= i < |s.calls| ==> CallInv(s, s.calls[i])
    ensures var r := Received(s, c, e); forall i :: 0 <= i < |r.calls| ==> CallInv(r, r.calls[i])
  {
    var r := Received(s, c, e);
    assert forall d :: 0 <= d < |s.tasks| ==> r.tasks[d].key == s.tasks[d].key;
    forall i | 0 <= i < |r.calls| ensures CallInv(r, r.calls[i]) {
      assert CallInv(s, s.calls[i]);
    }
  }

  lemma AllInTime(latency: nat, log: seq<Emission>, more: seq<Emission>)
    requires forall i :: 0 <= i < |log| ==> InTime(latency, log[i])
    requires forall x <- more :: InTime(latency, x)
    ensures forall i :: 0 <= i < |log + more| ==> InTime(latency, (log + more)[i])
  {
  }

  lemma ReceivedKeepsInv(latency: nat, s: Service, c: nat, e: Event)
    requires ServiceInv(latency, s) && c < |s.tasks| && Live(s.tasks[c])
    requires var t := s.tasks[c];
      var r := Receive(s.now, t, e);
      && r.Running? && |t.g.emitted| <= |r.g.emitted|
      && TaskInv(latency, s.now, r) && forall x <- Stamped(s.now, t, r) :: InTime(latency, x)
    ensures ServiceInv(latency, Received(s, c, e))
  {
    ReceivedKeepsCalls(s, c, e);
    AllInTime(latency, s.log, Stamped(s.now, s.tasks[c], Receive(s.now, s.tasks[c], e)));
  }

  lemma WithoutCallKeepsInv(latency: nat, s: Service, i: nat)
    requires ServiceInv(latency, s) && i < |s.calls|
    ensures ServiceInv(latency, WithoutCall(s, i))
  {
    var r := WithoutCall(s, i);
    forall k | 0 <= k < |r.calls| ensures CallInv(r, r.calls[k]) {
      assert CallInv(s, s.calls[if k < i then k else k + 1]);
    }
  }

  lemma DeliverKeepsInv(latency: nat, s: Service, i: nat, ok: bool)
    requires ServiceInv(latency, s) && Enabled(latency, s, Deliver(i, ok))
    ensures ServiceInv(latency, Next(latency, s, Deliver(i, ok)))
  {
    assert CallInv(s, s.calls[i]);
    var c := s.calls[i].chan.value;
    DeliverInTime(latency, s.now, s.tasks[c], s.calls[i], ok);
    WithoutCallKeepsInv(latency, s, i);
    ReceivedKeepsInv(latency, WithoutCall(s, i), c, EventOf(s.calls[i], ok));
  }

  lemma TimerKeepsInv(latency: nat, s: Service, c: nat, ok: bool)
    requires ServiceInv(latency, s) && Enabled(latency, s, TimerFires(c, ok))
    ensures ServiceInv(latency, Next(latency, s, TimerFires(c, ok)))
  {
    TimerInTime(latency, s.now, s.tasks[c], ok);
    ReceivedKeepsInv(latency, s, c, Timer(ok));
  }

  lemma OtherKeepsInv(latency: nat, s: Service, a: Action)
    requires Registry(s) && ServiceInv(latency, s) && Enabled(latency, s, a) && !a.Deliver? && !a.TimerFires?
    ensures ServiceInv(latency, Next(latency, s, a))
  {
    var r := Next(latency, s, a);
    if a.Submit? {
      TimestampOkUntil(s.now, a.message.timestamp);
    }
    if a.FetchSucceeds? {
      StartInv(a.info);
    }
    assert forall d :: 0 <= d < |s.tasks| ==> r.tasks[d].key == s.tasks[d].key;
    forall i | 0 <= i < |r.calls| ensures CallInv(r, r.calls[i]) {
      assert i < |s.calls| ==> CallInv(s, s.calls[i]);
    }
    forall c | 0 <= c < |r.tasks| ensures TaskInv(latency, r.now, r.tasks[c]) {
      assert c < |s.tasks| ==> TaskInv(latency, s.now, s.tasks[c]);
    }
  }

  lemma NextKeepsInv(latency: nat, s: Service, a: Action)
    requires Registry(s) && ServiceInv(latency, s) && Enabled(latency, s, a)
    ensures ServiceInv(latency, Next(latency, s, a))
  {
    match a
    case Deliver(i, ok) => DeliverKeepsInv(latency, s, i, ok);
    case TimerFires(c, ok) => TimerKeepsInv(latency, s, c, ok);
    case _ => OtherKeepsInv(latency, s, a);
  }

  lemma {:induction false} InvThroughout(latency: nat, states: seq<Service>, actions: seq<Action>, n: nat)
    requires IsRun(latency, states, actions) && n < |states|
    ensures Registry(states[n]) && ServiceInv(latency, states[n])
  {
    RegistryThroughout(latency, states, actions, n);
    if n > 0 {
      var s, a := states[n - 1], actions[n - 1];
      InvThroughout(latency, states, actions, n - 1);
      assert states[n] == Next(latency, s, a);
      NextKeepsInv(latency, s, a);
    }
  }

  /** Every goroutine's ledger is well formed, so asking for that never keeps an action from happening. */
  lemma GuardsNeverBlock(latency: nat, states: seq<Service>, actions: seq<Action>, n: nat, c: nat)
    requires IsRun(latency, states, actions) && n < |states|
    requires c < |states[n].tasks| && states[n].tasks[c].Running?
    ensures WellFormed(states[n].tasks[c].g.info, states[n].tasks[c].g.ledger)
  {
    InvThroughout(latency, states, actions, n);
    assert TaskInv(latency, states[n].now, states[n].tasks[c]);
  }

  /** Responses are only added, and stamped with the time of the step. */
  lemma NextAddsToLog(latency: nat, s: Service, a: Action)
    requires Enabled(latency, s, a)
    ensures var r := Next(latency, s, a);
      && s.now <= r.now && |s.log| <= |r.log| && r.log[..|s.log|] == s.log
      && forall i :: |s.log| <= i < |r.log| ==> r.log[i].at == s.now
  {
    match a
    case Deliver(i, ok) => ReceivedAddsToLog(WithoutCall(s, i), s.calls[i].chan.value, EventOf(s.calls[i], ok));
    case TimerFires(c, ok) => ReceivedAddsToLog(s, c, Timer(ok));
    case _ =>
  }

  lemma ReceivedAddsToLog(s: Service, c: nat, e: Event)
    requires c < |s.tasks| && Live(s.tasks[c]) && WellFormed(s.tasks[c].g.info, s.tasks[c].g.ledger)
    ensures var r := Received(s, c, e);
      && s.now == r.now && |s.log| <= |r.log| && r.log[..|s.log|] == s.log
      && forall i :: |s.log| <= i < |r.log| ==> r.log[i].at == s.now
  {
  }

  /** `r` is later than `s`: its log adds to that of `s`, at no earlier time. */
  ghost predicate Later(s: Service, r: Service) {
    && s.now <= r.now && |s.log| <= |r.log|
    && (forall i :: 0 <= i < |s.log| ==> r.log[i] == s.log[i])
    && forall i :: |s.log| <= i < |r.log| ==> s.now <= r.log[i].at
  }

  lemma NextIsLater(latency: nat, s: Service, a: Action)
    requires Enabled(latency, s, a)
    ensures Later(s, Next(latency, s, a))
  {
    NextAddsToLog(latency, s, a);
    var r := Next(latency, s, a);
    assert forall i :: 0 <= i < |s.log| ==> r.log[..|s.log|][i] == r.log[i];
  }

  lemma {:induction false} LogGrows(latency: nat, states: seq<Service>, actions: seq<Action>, m: nat, n: nat)
    requires IsRun(latency, states, actions) && m <= n < |states|
    ensures Later(states[m], states[n])
  {
    if m < n {
      LogGrows(latency, states, actions, m, n - 1);
      assert states[n] == Next(latency, states[n - 1], actions[n - 1]);
      NextIsLater(latency, states[n - 1], actions[n - 1]);
    }
  }

  /** The last timestamp covered by a checkpoint over a block of time `blockTime`. */
  ghost function ToTimestamp(blockTime: nat): int {
    blockTime - 90
  }

  /** When a checkpoint over a block of time `blockTime` covers only what can no longer change. */
  ghost predicate Frozen(latency: nat, blockTime: nat, now: nat) {
    (blockTime + 1) * 1_000_000_000 + 2 * latency <= now
  }

  /**
   * From the moment the block's second is over, plus twice the latency, nothing the checkpoint
   * covers is reported any more: in every run, whatever is reported later has a later timestamp.
   */
  lemma CheckpointWindowIsFrozen(
    latency: nat, states: seq<Service>, actions: seq<Action>, m: nat, n: nat, i: nat, blockTime: nat)
    requires IsRun(latency, states, actions) && m <= n < |states| && Frozen(latency, blockTime, states[m].now)
    requires |states[m].log| <= i < |states[n].log| && states[n].log[i].response.error == NoFailure
    ensures states[n].log[i].response.message.Some?
    ensures states[n].log[i].response.message.value.timestamp > ToTimestamp(blockTime)
  {
    LogGrows(latency, states, actions, m, n);
    InvThroughout(latency, states, actions, n);
    assert InTime(latency, states[n].log[i]);
  }

  // ---------------------------------------------------------------------------------------------
  // When the timers fire

  /** Step `j` of the run is the end of the fetch of channel `c`. */
  ghost predicate StartedAt(actions: seq<Action>, j: nat, c: nat) {
    j < |actions| && actions[j].FetchSucceeds? && actions[j].chan == c
  }

  /** Step `j` of the run takes the goroutine of channel `c` over the threshold. */
  ghost predicate ReachedAt(states: seq<Service>, j: nat, c: nat) {
    && j + 1 < |states| && c < |states[j].tasks| && c < |states[j + 1].tasks|
    && states[j].tasks[c].Running? && states[j].tasks[c].g.phase == PreThreshold
    && states[j + 1].tasks[c].Running? && states[j + 1].tasks[c].g.phase.Reached?
  }

  /** The deadline stays with the phase. */
  ghost predicate SameTimer(t: Task, u: Task) {
    Live(t) && Live(u) && t.deadline == u.deadline && (t.g.phase == PreThreshold <==> u.g.phase == PreThreshold)
  }

  lemma ReceiveKeepsTimer(now: nat, t: Task, e: Event)
    requires Live(t) && Inv(t.g) && Live(Receive(now, t, e))
    ensures var u := Receive(now, t, e);
      SameTimer(t, u) ||
      (t.g.phase == PreThreshold && u.g.phase.Reached? && u.deadline == now + 30_000_000_000)
  {
  }

  /** A live goroutine's timer was set by this step, at its start or at the threshold, or stands. */
  lemma NextKeepsTimer(latency: nat, s: Service, a: Action, c: nat)
    requires ServiceInv(latency, s) && Enabled(latency, s, a)
    requires c < |Next(latency, s, a).tasks| && Live(Next(latency, s, a).tasks[c])
    ensures var u := Next(latency, s, a).tasks[c];
      || (a.FetchSucceeds? && a.chan == c && u.g.phase == PreThreshold && u.deadline == s.now + 60_000_000_000)
      || (c < |s.tasks| && SameTimer(s.tasks[c], u))
      || (&& c < |s.tasks| && Live(s.tasks[c]) && s.tasks[c].g.phase == PreThreshold && u.g.phase.Reached?
          && u.deadline == s.now + 30_000_000_000)
  {
    if c < |s.tasks| {
      assert TaskInv(latency, s.now, s.tasks[c]);
      match a
      case Deliver(i, ok) =>
        if s.calls[i].chan.value == c {
          ReceiveKeepsTimer(s.now, s.tasks[c], EventOf(s.calls[i], ok));
        }
      case TimerFires(d, ok) =>
        if d == c {
          ReceiveKeepsTimer(s.now, s.tasks[c], Timer(ok));
        }
      case _ =>
    }
  }

  /** Step `j` set the timer that task `t` of channel `c` waits for. */
  ghost predicate SetAt(states: seq<Service>, actions: seq<Action>, j: nat, c: nat, t: Task)
    requires Live(t)
  {
    && j < |states|
    && if t.g.phase == PreThreshold
       then StartedAt(actions, j, c) && t.deadline == states[j].now + 60_000_000_000
       else ReachedAt(states, j, c) && t.deadline == states[j].now + 30_000_000_000
  }

  lemma SetNow(latency: nat, states: seq<Service>, actions: seq<Action>, n: nat, c: nat)
    requires IsRun(latency, states, actions) && 0 < n < |states|
    requires c < |states[n].tasks| && Live(states[n].tasks[c])
    requires !(c < |states[n - 1].tasks| && SameTimer(states[n - 1].tasks[c], states[n].tasks[c]))
    ensures SetAt(states, actions, n - 1, c, states[n].tasks[c])
  {
    InvThroughout(latency, states, actions, n - 1);
    assert states[n] == Next(latency, states[n - 1], actions[n - 1]);
    NextKeepsTimer(latency, states[n - 1], actions[n - 1], c);
  }

  lemma {:induction false} DeadlineSet(latency: nat, states: seq<Service>, actions: seq<Action>, n: nat, c: nat)
      returns (j: nat)
    requires IsRun(latency, states, actions) && n < |states|
    requires c < |states[n].tasks| && Live(states[n].tasks[c])
    ensures j < n && SetAt(states, actions, j, c, states[n].tasks[c])
  {
    if c < |states[n - 1].tasks| && SameTimer(states[n - 1].tasks[c], states[n].tasks[c]) {
      j := DeadlineSet(latency, states, actions, n - 1, c);
    } else {
      j := n - 1;
      SetNow(latency, states, actions, n, c);
    }
  }

  /**
   * In every run, a timer that fires before the threshold does so sixty seconds after the operators were
   * fetched, and one that fires after it thirty seconds after it was reached, or at most `latency` later.
   */
  lemma TimersFireOnTime(latency: nat, states: seq<Service>, actions: seq<Action>, n: nat, c: nat, ok: bool)
      returns (j: nat)
    requires IsRun(latency, states, actions) && n < |actions| && actions[n] == TimerFires(c, ok)
    ensures j < n && c < |states[n].tasks| && Live(states[n].tasks[c])
    ensures if states[n].tasks[c].g.phase == PreThreshold
      then StartedAt(actions, j, c) && 60_000_000_000 <= states[n].now - states[j].now <= 60_000_000_000 + latency
      else ReachedAt(states, j, c) && 30_000_000_000 <= states[n].now - states[j].now <= 30_000_000_000 + latency
  {
    assert Enabled(latency, states[n], actions[n]);
    InvThroughout(latency, states, actions, n);
    j := DeadlineSet(latency, states, actions, n, c);
  }

  // ---------------------------------------------------------------------------------------------
  // No earlier moment would do

  /** In no run is anything the checkpoint covers reported at time `now` or later. */
  ghost predicate NothingToCome(latency: nat, blockTime: nat, now: nat) {
    forall states: seq<Service>, actions: seq<Action>, i: nat ::
      IsRun(latency, states, actions) && LateReport(states, i, now) ==>
      states[|states| - 1].log[i].response.message.value.timestamp > ToTimestamp(blockTime)
  }

  /** Entry `i` of the log at the end of the run is without error, and is no earlier than `now`. */
  ghost predicate LateReport(states: seq<Service>, i: nat, now: nat) {
    && states != []
    && var s := states[|states| - 1];
    i < |s.log| && s.log[i].response.error == NoFailure && s.log[i].response.message.Some? && now <= s.log[i].at
  }

  /** Two operators with two thirds and one third of the stake of quorum 0. */
  ghost function TwoOperators(): Info {
    Info(map[1 := Operator(1, 1, map[0 := 2]), 2 := Operator(1, 1, map[0 := 1])], map[0 := 3], map[0 := 66],
      (d: Digest) => 1)
  }

  ghost function SlowSigned(m: Message): Goroutine {
    var s := Submission(1, Digest(m), 1);
    var l := InitialLedger(TwoOperators()).(digests := map[Digest(m) := Aggregated(1, 1, 1, {1})]);
    var g := Start(TwoOperators()).(ledger := l, accepted := [s]);
    Emit(g, ResponseFor(TwoOperators(), l, m, false, true), Reached(m))
  }

  lemma SlowDelivery(m: Message)
    ensures WellFormed(TwoOperators(), InitialLedger(TwoOperators()))
    ensures Step(Start(TwoOperators()), SignedMessage(m, 1, 1, true)) == SlowSigned(m)
    ensures WellFormed(SlowSigned(m).info, SlowSigned(m).ledger)
  {
    var info := TwoOperators();
    var e := SignedMessage(m, 1, 1, true);
    assert Scale(1, 1) == 1 && Plus(0, 1) == 1;
    assert CheckSignature(info, e) == NoError;
    var l := Accept(info, InitialLedger(info), SubmissionOf(e));
    assert l == SlowSigned(m).ledger;
    assert l.Total(Digest(m)) == map[0 := 2];
    assert !FullStakeMet(info, l.Total(Digest(m))) by { assert l.Total(Digest(m))[0] != Get(info.totalStake, 0); }
    assert ThresholdsMet(info, l.Total(Digest(m)));
    assert [] + [SubmissionOf(e)] == [Submission(1, Digest(m), 1)];
  }

  lemma SlowTimer(m: Message)
    requires WellFormed(SlowSigned(m).info, SlowSigned(m).ledger)
    ensures var g := Step(SlowSigned(m), Timer(true));
      |g.emitted| == 2 && g.emitted[1].error == NoFailure && g.emitted[1].message == Some(m)
  {
  }

  lemma Extend(latency: nat, states: seq<Service>, actions: seq<Action>, a: Action)
    requires IsRun(latency, states, actions) && Enabled(latency, states[|actions|], a)
    ensures IsRun(latency, states + [Next(latency, states[|actions|], a)], actions + [a])
  {
  }

  lemma GoOn(latency: nat, states: seq<Service>, actions: seq<Action>, a: Action, s: Service)
      returns (states1: seq<Service>, actions1: seq<Action>)
    requires IsRun(latency, states, actions) && Enabled(latency, states[|actions|], a)
    requires Next(latency, states[|actions|], a) == s
    ensures IsRun(latency, states1, actions1) && states1[|actions1|] == s
  {
    Extend(latency, states, actions, a);
    states1, actions1 := states + [s], actions + [a];
  }

  /** The larger operator signs at the last moment and everything takes as long as it may. */
  lemma SlowStart(latency: nat, m: Message) returns (states: seq<Service>, actions: seq<Action>)
    ensures IsRun(latency, states, actions)
    ensures states[|actions|] == SlowFetching(m)
  {
    var start := CheckedBefore(m) - 1;
    TimestampOkUntil(start, m.timestamp);
    var s := Service(start, map[], [], [], []);
    states, actions := [s], [];
    s := s.(calls := [Call(m, 1, 1, start, None)]);
    states, actions := GoOn(latency, states, actions, Submit(m, 1, 1), s);
    states, actions := GoOn(latency, states, actions, Initialize(0), SlowFetching(m));
  }

  /** Until the signature is delivered. */
  lemma SlowCall(latency: nat, m: Message) returns (states: seq<Service>, actions: seq<Action>)
    ensures IsRun(latency, states, actions)
    ensures states[|actions|] == SlowCalled(latency, m)
  {
    states, actions := SlowStart(latency, m);
    assert Sound(TwoOperators());
    var s := SlowFetching(m);
    s := s.(tasks := [Running(m.key, Start(TwoOperators()), s.now + MESSAGE_TTL * SECOND)]);
    states, actions := GoOn(latency, states, actions, FetchSucceeds(0, TwoOperators()), s);
    s := s.(calls := [Call(m, 1, 1, s.now, Some(0))]);
    states, actions := GoOn(latency, states, actions, LookUp(0), s);
    states, actions := GoOn(latency, states, actions, Tick(s.now + latency), SlowCalled(latency, m));
  }

  ghost function SlowFetching(m: Message): Service {
    var start := CheckedBefore(m) - 1;
    Service(start, map[m.key := 0], [Fetching(m.key)], [Call(m, 1, 1, start, None)], [])
  }

  ghost function SlowCalled(latency: nat, m: Message): Service {
    var start := CheckedBefore(m) - 1;
    Service(start + latency, map[m.key := 0],
      [Running(m.key, Start(TwoOperators()), start + MESSAGE_TTL * SECOND)], [Call(m, 1, 1, start, Some(0))], [])
  }

  ghost function SlowReached(latency: nat, m: Message): Service {
    var at := CheckedBefore(m) - 1 + latency;
    Service(at, map[m.key := 0], [Running(m.key, SlowSigned(m), at + MESSAGE_BLS_AGGREGATION_TIMEOUT * SECOND)], [],
      [Emission(at, SlowSigned(m).emitted[0])])
  }

  lemma SlowDeliver(latency: nat, m: Message)
    ensures Enabled(latency, SlowCalled(latency, m), Deliver(0, true))
    ensures Next(latency, SlowCalled(latency, m), Deliver(0, true)) == SlowReached(latency, m)
  {
    SlowDelivery(m);
    var s := SlowCalled(latency, m);
    var t := s.tasks[0];
    assert EventOf(s.calls[0], true) == SignedMessage(m, 1, 1, true);
    var r := Receive(s.now, t, EventOf(s.calls[0], true));
    assert r == SlowReached(latency, m).tasks[0];
    assert Stamped(s.now, t, r) == SlowReached(latency, m).log;
  }

  lemma SlowFire(latency: nat, m: Message)
    ensures Enabled(latency, SlowReached(latency, m), Tick(ReportedBefore(latency, m) - 1))
    ensures var s := SlowReached(latency, m).(now := ReportedBefore(latency, m) - 1);
      && Enabled(latency, s, TimerFires(0, true))
      && var r := Next(latency, s, TimerFires(0, true));
      && |r.log| == 2 && r.log[1].at == s.now
      && r.log[1].response.error == NoFailure && r.log[1].response.message == Some(m)
  {
    SlowDelivery(m);
    SlowTimer(m);
  }

  /** Until the threshold is reached. */
  lemma SlowMiddle(latency: nat, m: Message) returns (states: seq<Service>, actions: seq<Action>)
    ensures IsRun(latency, states, actions)
    ensures states[|actions|] == SlowReached(latency, m)
  {
    states, actions := SlowCall(latency, m);
    SlowDeliver(latency, m);
    states, actions := GoOn(latency, states, actions, Deliver(0, true), SlowReached(latency, m));
  }

  /** The whole slow run. */
  lemma SlowRun(latency: nat, m: Message) returns (states: seq<Service>, actions: seq<Action>)
    ensures IsRun(latency, states, actions)
    ensures LateReport(states, 1, ReportedBefore(latency, m) - 1)
    ensures states[|states| - 1].log[1].response.message == Some(m)
  {
    states, actions := SlowMiddle(latency, m);
    SlowFire(latency, m);
    var s := SlowReached(latency, m).(now := ReportedBefore(latency, m) - 1);
    states, actions := GoOn(latency, states, actions, Tick(s.now), s);
    states, actions := GoOn(latency, states, actions, TimerFires(0, true), Next(latency, s, TimerFires(0, true)));
  }

  /** Frozen is exact: at any earlier moment some run still reports a covered message. */
  lemma FrozenIsExact(latency: nat, blockTime: nat, now: nat)
    requires ToTimestamp(blockTime) >= 0
    ensures Frozen(latency, blockTime, now) <==> NothingToCome(latency, blockTime, now)
  {
    if Frozen(latency, blockTime, now) {
      forall states: seq<Service>, actions: seq<Action>, i: nat
        | IsRun(latency, states, actions) && LateReport(states, i, now)
        ensures states[|states| - 1].log[i].response.message.value.timestamp > ToTimestamp(blockTime)
      {
        InvThroughout(latency, states, actions, |states| - 1);
        assert InTime(latency, states[|states| - 1].log[i]);
      }
    } else {
      var m := Message(0, ToTimestamp(blockTime), 0);
      var states, actions := SlowRun(latency, m);
      assert IsRun(latency, states, actions);
      assert LateReport(states, 1, now);
    }
  }
}
