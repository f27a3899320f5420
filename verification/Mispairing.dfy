/**
 * Runs of the service in which a message is filed with the aggregation of another. In the first an
 * operator signs two messages of one key; in the second each operator signs one, and one of them
 * twice; in the third the goroutines of the key do not fetch the same operators.
 */
module Mispairing {
  import opened BlsTypes
  import opened BlsLedger
  import opened BlsGoroutine
  import opened BlsService
  import opened Database
  import opened Pairing

  // ---------------------------------------------------------------------------------------------
  // Runs and their votes

  datatype Trace = Trace(states: seq<Service>, actions: seq<Action>) {
    ghost function End(): Service
      requires |states| == |actions| + 1
    {
      states[|actions|]
    }
  }

  /** Only `infos` are fetched. */
  ghost predicate Only(actions: seq<Action>, infos: seq<Info>) {
    forall i {:trigger actions[i]} :: 0 <= i < |actions| ==>
      actions[i].FetchSucceeds? ==> actions[i].info in infos
  }

  /** A run that fetches only `infos` and in which `votes` are cast. */
  ghost predicate Plays(latency: nat, t: Trace, infos: seq<Info>, votes: seq<Vote>) {
    && IsRun(latency, t.states, t.actions) && Only(t.actions, infos)
    && Votes(latency, t.states, t.actions, |t.actions|) == votes
  }

  ghost function Nothing(): Service {
    Service(0, map[], [], [], [])
  }

  lemma NothingPlays(latency: nat, infos: seq<Info>)
    ensures Plays(latency, Trace([Nothing()], []), infos, [])
  {
  }

  lemma {:induction false} SameVotes(latency: nat, t: Trace, next: Service, a: Action, n: nat)
    requires |t.states| == |t.actions| + 1 && n <= |t.actions|
    ensures Votes(latency, t.states + [next], t.actions + [a], n) == Votes(latency, t.states, t.actions, n)
  {
    if n > 0 {
      SameVotes(latency, t, next, a, n - 1);
    }
  }

  lemma VotesAfter(latency: nat, t: Trace, next: Service, a: Action)
    requires |t.states| == |t.actions| + 1
    ensures Votes(latency, t.states + [next], t.actions + [a], |t.actions| + 1) ==
            Votes(latency, t.states, t.actions, |t.actions|) + VoteOf(latency, t.End(), a)
  {
    SameVotes(latency, t, next, a, |t.actions|);
  }

  lemma OnlyAfter(actions: seq<Action>, infos: seq<Info>, a: Action)
    requires Only(actions, infos) && (a.FetchSucceeds? ==> a.info in infos)
    ensures Only(actions + [a], infos)
  {
  }

  /** The run so far goes on with `a`, which brings the votes `more`. */
  lemma PlaysOn(latency: nat, t: Trace, infos: seq<Info>, votes: seq<Vote>, a: Action, more: seq<Vote>, next: Service)
      returns (t1: Trace)
    requires Plays(latency, t, infos, votes) && (a.FetchSucceeds? ==> a.info in infos)
    requires Enabled(latency, t.End(), a) && Next(latency, t.End(), a) == next && VoteOf(latency, t.End(), a) == more
    ensures Plays(latency, t1, infos, votes + more) && t1.End() == next
  {
    Extend(latency, t.states, t.actions, a);
    VotesAfter(latency, t, next, a);
    OnlyAfter(t.actions, infos, a);
    t1 := Trace(t.states + [next], t.actions + [a]);
  }

  lemma GoesOn(latency: nat, t: Trace, infos: seq<Info>, votes: seq<Vote>, a: Action, next: Service) returns (t1: Trace)
    requires Plays(latency, t, infos, votes) && (a.FetchSucceeds? ==> a.info in infos) && !a.Deliver?
    requires Enabled(latency, t.End(), a) && Next(latency, t.End(), a) == next
    ensures Plays(latency, t1, infos, votes) && t1.End() == next
  {
    t1 := PlaysOn(latency, t, infos, votes, a, [], next);
    assert votes + [] == votes;
  }

  lemma GoesOnTwice(latency: nat, t: Trace, infos: seq<Info>, votes: seq<Vote>, s: Service, a: Action, next: Service,
                    b: Action, after: Service)
      returns (t1: Trace)
    requires Plays(latency, t, infos, votes) && t.End() == s && !a.Deliver? && !b.Deliver?
    requires (a.FetchSucceeds? ==> a.info in infos) && (b.FetchSucceeds? ==> b.info in infos)
    requires Enabled(latency, s, a) && Next(latency, s, a) == next
    requires Enabled(latency, next, b) && Next(latency, next, b) == after
    ensures Plays(latency, t1, infos, votes) && t1.End() == after
  {
    t1 := GoesOn(latency, t, infos, votes, a, next);
    t1 := GoesOn(latency, t1, infos, votes, b, after);
  }

  lemma VoteCast(latency: nat, t: Trace, infos: seq<Info>, votes: seq<Vote>, s: Service, vote: Vote, next: Service)
      returns (t1: Trace)
    requires Plays(latency, t, infos, votes) && t.End() == s && VoteOf(latency, s, Deliver(0, true)) == [vote]
    requires Enabled(latency, s, Deliver(0, true)) && Next(latency, s, Deliver(0, true)) == next
    ensures Plays(latency, t1, infos, votes + [vote]) && t1.End() == next
  {
    t1 := PlaysOn(latency, t, infos, votes, Deliver(0, true), [vote], next);
  }

  // ---------------------------------------------------------------------------------------------
  // One message signed, in a goroutine of its own

  /** Nothing is under way, and it is early enough for any timestamp. */
  ghost predicate Quiet(s: Service, key: MessageKey) {
    s.now <= MESSAGE_SUBMISSION_TIMEOUT * SECOND && s.calls == [] && key !in s.chans
  }

  /** The state once `o` has submitted `m`, and it was registered, fetched for and looked up. */
  ghost function Called(s: Service, m: Message, o: OperatorId, info: Info): Service {
    s.(chans := s.chans[m.key := |s.tasks|],
       tasks := s.tasks + [Running(m.key, Start(info), s.now + MESSAGE_TTL * SECOND)],
       calls := [Call(m, o, 1, s.now, Some(|s.tasks|))])
  }

  /** The state with its new task at `task`. */
  ghost function Fetched(s: Service, m: Message, o: OperatorId, task: Task): Service {
    s.(chans := s.chans[m.key := |s.tasks|], tasks := s.tasks + [task], calls := [Call(m, o, 1, s.now, None)])
  }

  lemma RegisterRound(latency: nat, t: Trace, infos: seq<Info>, votes: seq<Vote>, m: Message, o: OperatorId)
      returns (t1: Trace)
    requires Plays(latency, t, infos, votes) && Quiet(t.End(), m.key)
    ensures Plays(latency, t1, infos, votes) && t1.End() == Fetched(t.End(), m, o, Fetching(m.key))
  {
    var s := t.End();
    TimestampOkUntil(s.now, m.timestamp);
    t1 := GoesOn(latency, t, infos, votes, Submit(m, o, 1), s.(calls := [Call(m, o, 1, s.now, None)]));
    t1 := GoesOn(latency, t1, infos, votes, Initialize(0), Fetched(s, m, o, Fetching(m.key)));
  }

  lemma CallRound(latency: nat, t: Trace, infos: seq<Info>, votes: seq<Vote>, m: Message, o: OperatorId, info: Info)
      returns (t1: Trace)
    requires Plays(latency, t, infos, votes) && Quiet(t.End(), m.key) && Sound(info) && info in infos
    ensures Plays(latency, t1, infos, votes) && t1.End() == Called(t.End(), m, o, info)
  {
    var s := t.End();
    t1 := RegisterRound(latency, t, infos, votes, m, o);
    var running := Running(m.key, Start(info), s.now + MESSAGE_TTL * SECOND);
    FetchGives(latency, s, m, o, info);
    LookUpGives(latency, s, m, o, info);
    t1 := GoesOnTwice(latency, t1, infos, votes, Fetched(s, m, o, Fetching(m.key)), FetchSucceeds(|s.tasks|, info),
      Fetched(s, m, o, running), LookUp(0), Called(s, m, o, info));
  }

  lemma LookUpGives(latency: nat, s: Service, m: Message, o: OperatorId, info: Info)
    ensures var before := Fetched(s, m, o, Running(m.key, Start(info), s.now + MESSAGE_TTL * SECOND));
      Enabled(latency, before, LookUp(0)) && Next(latency, before, LookUp(0)) == Called(s, m, o, info)
  {
  }

  lemma FetchGives(latency: nat, s: Service, m: Message, o: OperatorId, info: Info)
    requires Sound(info)
    ensures var before := Fetched(s, m, o, Fetching(m.key));
      var running := Running(m.key, Start(info), s.now + MESSAGE_TTL * SECOND);
      && Enabled(latency, before, FetchSucceeds(|s.tasks|, info))
      && Next(latency, before, FetchSucceeds(|s.tasks|, info)) == Fetched(s, m, o, running)
  {
    var running := Running(m.key, Start(info), s.now + MESSAGE_TTL * SECOND);
    assert (s.tasks + [Fetching(m.key)])[|s.tasks| := running] == s.tasks + [running];
  }

  ghost function Stamp(now: nat, rs: seq<Response>): seq<Emission> {
    seq(|rs|, i requires 0 <= i < |rs| => Emission(now, rs[i]))
  }

  /** Goroutine `c` goes on as `h`, having sent `sent`. */
  ghost function Went(s: Service, c: nat, h: Goroutine, deadline: nat, sent: seq<Response>): Service
    requires c < |s.tasks|
  {
    s.(tasks := s.tasks[c := Running(s.tasks[c].key, h, deadline)], log := s.log + Stamp(s.now, sent))
  }

  lemma ReceivedGives(s: Service, c: nat, e: Event, h: Goroutine, sent: seq<Response>)
    requires c < |s.tasks| && Live(s.tasks[c]) && WellFormed(s.tasks[c].g.info, s.tasks[c].g.ledger)
    requires Step(s.tasks[c].g, e) == h && h.emitted == s.tasks[c].g.emitted + sent
    ensures Received(s, c, e) == Went(s, c, h, Receive(s.now, s.tasks[c], e).deadline, sent)
  {
    StepEmits(s.tasks[c].g, e);
    var t, r := s.tasks[c], Receive(s.now, s.tasks[c], e);
    assert Stamped(s.now, t, r) == Stamp(s.now, sent);
  }

  /** The one call there is reaches goroutine `c`, which accepts it. */
  lemma DeliverGives(latency: nat, s: Service, c: nat, m: Message, o: OperatorId, h: Goroutine, sent: seq<Response>)
    requires s.calls == [Call(m, o, 1, s.now, Some(c))] && c < |s.tasks| && Live(s.tasks[c])
    requires WellFormed(s.tasks[c].g.info, s.tasks[c].g.ledger)
    requires Step(s.tasks[c].g, SignedMessage(m, o, 1, true)) == h && h.emitted == s.tasks[c].g.emitted + sent
    requires h.accepted != s.tasks[c].g.accepted
    ensures Enabled(latency, s, Deliver(0, true)) && VoteOf(latency, s, Deliver(0, true)) == [Vote(c, o, m)]
    ensures Next(latency, s, Deliver(0, true)) ==
      Went(s.(calls := []), c, h, Receive(s.now, s.tasks[c], SignedMessage(m, o, 1, true)).deadline, sent)
  {
    assert EventOf(s.calls[0], true) == SignedMessage(m, o, 1, true);
    assert WithoutCall(s, 0) == s.(calls := []);
    ReceivedGives(s.(calls := []), c, SignedMessage(m, o, 1, true), h, sent);
  }

  lemma CloseGives(latency: nat, s: Service, c: nat, chans: map<MessageKey, nat>)
    requires c < |s.tasks| && s.tasks[c].Running? && s.tasks[c].g.phase.Stopped? && s.tasks[c].key !in chans
    requires s.chans == chans[s.tasks[c].key := c]
    ensures Enabled(latency, s, Close(c))
    ensures Next(latency, s, Close(c)) == s.(chans := chans, tasks := s.tasks[c := Closed(s.tasks[c].key)])
  {
    assert chans[s.tasks[c].key := c] - {s.tasks[c].key} == chans;
  }

  /** The state once the goroutine of `m` has stopped as `g` with response `r`. */
  ghost function Answered(s: Service, m: Message, g: Goroutine, r: Response): Service {
    s.(chans := s.chans[m.key := |s.tasks|],
       tasks := s.tasks + [Running(m.key, g, s.now + MESSAGE_TTL * SECOND)],
       calls := [], log := s.log + [Emission(s.now, r)])
  }

  /** The state once the goroutine is closed as well. */
  ghost function Done(s: Service, m: Message, r: Response): Service {
    s.(tasks := s.tasks + [Closed(m.key)], log := s.log + [Emission(s.now, r)])
  }

  /** The first event of a goroutine, a signature of `o` on `m`, makes it stop as `g` with one response. */
  ghost predicate StopsAtOnce(info: Info, m: Message, o: OperatorId, g: Goroutine, r: Response) {
    && Sound(info) && WellFormed(info, InitialLedger(info))
    && Step(Start(info), SignedMessage(m, o, 1, true)) == g
    && g.emitted == [r] && g.phase.Stopped? && g.accepted != []
  }

  lemma AnswerGives(latency: nat, s: Service, called: Service, m: Message, o: OperatorId, info: Info, g: Goroutine,
                    r: Response)
    requires called == Called(s, m, o, info) && StopsAtOnce(info, m, o, g, r)
    ensures Enabled(latency, called, Deliver(0, true))
    ensures VoteOf(latency, called, Deliver(0, true)) == [Vote(|s.tasks|, o, m)]
    ensures Next(latency, called, Deliver(0, true)) == Answered(s, m, g, r)
  {
    DeliverGives(latency, called, |s.tasks|, m, o, g, [r]);
    assert Stamp(s.now, [r]) == [Emission(s.now, r)];
  }

  lemma Closes(latency: nat, s: Service, m: Message, g: Goroutine, r: Response)
    requires Quiet(s, m.key) && g.phase.Stopped?
    ensures Enabled(latency, Answered(s, m, g, r), Close(|s.tasks|))
    ensures Next(latency, Answered(s, m, g, r), Close(|s.tasks|)) == Done(s, m, r)
  {
    var t := Answered(s, m, g, r);
    CloseGives(latency, t, |s.tasks|, s.chans);
    assert t.tasks[|s.tasks| := Closed(m.key)] == s.tasks + [Closed(m.key)];
  }

  /** From the submission of a signature to the close of its goroutine. */
  lemma Round(latency: nat, t: Trace, infos: seq<Info>, votes: seq<Vote>, m: Message, o: OperatorId,
              info: Info, g: Goroutine, r: Response)
      returns (t1: Trace)
    requires Plays(latency, t, infos, votes) && Quiet(t.End(), m.key) && info in infos
    requires StopsAtOnce(info, m, o, g, r)
    ensures Plays(latency, t1, infos, votes + [Vote(|t.End().tasks|, o, m)]) && t1.End() == Done(t.End(), m, r)
  {
    var s := t.End();
    var vote := Vote(|s.tasks|, o, m);
    t1 := CallRound(latency, t, infos, votes, m, o, info);
    AnswerGives(latency, s, Called(s, m, o, info), m, o, info, g, r);
    t1 := VoteCast(latency, t1, infos, votes, Called(s, m, o, info), vote, Answered(s, m, g, r));
    Closes(latency, s, m, g, r);
    t1 := GoesOn(latency, t1, infos, votes + [vote], Close(|s.tasks|), Done(s, m, r));
  }

  // ---------------------------------------------------------------------------------------------
  // Two rounds

  /** One operator with all the stake. */
  ghost function Alone(o: OperatorId): Info {
    Info(map[o := Operator(1, 1, map[0 := 1])], map[0 := 1], map[0 := 66], (d: Digest) => 1)
  }

  ghost function AloneSigned(o: OperatorId, m: Message): Ledger {
    InitialLedger(Alone(o)).(digests := map[Digest(m) := Aggregated(1, 1, o, {o})])
  }

  ghost function AloneAggregation(o: OperatorId): Aggregation {
    AggregationOf(Alone(o), Aggregated(1, 1, o, {o}))
  }

  ghost function AloneResponse(o: OperatorId, m: Message): Response {
    Response(Some(m), FullStakeThresholdMet, true, NoFailure, Some(AloneAggregation(o)))
  }

  ghost function AloneStopped(o: OperatorId, m: Message): Goroutine {
    Goroutine(Alone(o), AloneSigned(o, m), Stopped, [Submission(o, Digest(m), 1)], [AloneResponse(o, m)])
  }

  lemma AloneAccepted(o: OperatorId, m: Message)
    ensures WellFormed(Alone(o), InitialLedger(Alone(o)))
    ensures Accept(Alone(o), InitialLedger(Alone(o)), Submission(o, Digest(m), 1)) == AloneSigned(o, m)
  {
    assert Plus(0, 1) == 1;
  }

  lemma AloneSteps(o: OperatorId, m: Message)
    ensures StopsAtOnce(Alone(o), m, o, AloneStopped(o, m), AloneResponse(o, m))
  {
    AloneAccepted(o, m);
    assert Scale(1, 1) == 1;
    var total := AloneSigned(o, m).Total(Digest(m));
    assert total == map[0 := 1];
    assert FullStakeMet(Alone(o), total);
    assert SubmissionOf(SignedMessage(m, o, 1, true)) == Submission(o, Digest(m), 1);
  }

  lemma AloneRound(latency: nat, t: Trace, infos: seq<Info>, votes: seq<Vote>, o: OperatorId, m: Message)
      returns (t1: Trace)
    requires Plays(latency, t, infos, votes) && Quiet(t.End(), m.key) && Alone(o) in infos
    ensures Plays(latency, t1, infos, votes + [Vote(|t.End().tasks|, o, m)])
    ensures t1.End() == Done(t.End(), m, AloneResponse(o, m))
  {
    AloneSteps(o, m);
    t1 := Round(latency, t, infos, votes, m, o, Alone(o), AloneStopped(o, m), AloneResponse(o, m));
  }

  /** Operator `o` has all the stake and signs `m`; then `p` has, and signs `k` of the same key. */
  lemma TwoRounds(latency: nat, o: OperatorId, m: Message, p: OperatorId, k: Message) returns (t: Trace)
    requires m.key == k.key
    ensures Plays(latency, t, [Alone(o), Alone(p)], [Vote(0, o, m), Vote(1, p, k)])
    ensures TableOf(Filed(t.End().log)) == [Row(m, Some(Stored(Digest(k), AloneAggregation(p))))]
  {
    var infos := [Alone(o), Alone(p)];
    NothingPlays(latency, infos);
    assert infos[0] == Alone(o) && infos[1] == Alone(p);
    t := AloneRound(latency, Trace([Nothing()], []), infos, [], o, m);
    t := AloneRound(latency, t, infos, [] + [Vote(0, o, m)], p, k);
    assert [] + [Vote(0, o, m)] + [Vote(1, p, k)] == [Vote(0, o, m), Vote(1, p, k)];
    var e, f := Emission(0, AloneResponse(o, m)), Emission(0, AloneResponse(p, k));
    assert t.End().log == [e, f];
    TwoFiled(e, f, Reported(m, AloneAggregation(o)), Reported(k, AloneAggregation(p)));
    TwoRows(Reported(m, AloneAggregation(o)), Reported(k, AloneAggregation(p)));
  }

  /**
   * An operator signs two messages of one key, one after the other: each is reported by a goroutine of
   * its own, and the first is filed with the aggregation of the second.
   */
  lemma SecondMessageIsMispaired(latency: nat, m: Message, k: Message) returns (t: Trace)
    requires m.key == k.key && m != k
    ensures Plays(latency, t, [Alone(1), Alone(1)], [Vote(0, 1, m), Vote(1, 1, k)])
    ensures TableOf(Filed(t.End().log)) == [Row(m, Some(Stored(Digest(k), AloneAggregation(1))))]
  {
    t := TwoRounds(latency, 1, m, 1, k);
  }

  /**
   * The same if two operators sign one message each, once, and the second goroutine fetches other
   * operators than the first; whatever else one takes them to have fetched, it was not the same.
   */
  lemma OtherOperatorsAreMispaired(latency: nat, m: Message, k: Message) returns (t: Trace)
    requires m.key == k.key && m != k
    ensures Plays(latency, t, [Alone(1), Alone(2)], [Vote(0, 1, m), Vote(1, 2, k)])
    ensures OneVote([Vote(0, 1, m), Vote(1, 2, k)])
    ensures TableOf(Filed(t.End().log)) == [Row(m, Some(Stored(Digest(k), AloneAggregation(2))))]
    ensures forall infos: map<MessageKey, Info>, q: QuorumNum ::
      !SameOperators(t.states, t.actions, |t.actions|, infos, q)
  {
    t := TwoRounds(latency, 1, m, 2, k);
    forall infos: map<MessageKey, Info>, q: QuorumNum
      ensures !SameOperators(t.states, t.actions, |t.actions|, infos, q)
    {
      if SameOperators(t.states, t.actions, |t.actions|, infos, q) {
        var log := t.End().log;
        assert log[..|log|] == log;
        FiledWithItsOwn(latency, t.states, t.actions, |t.actions|, infos, q, |log|, Filed(log), 0);
      }
    }
  }

  ghost predicate Files(e: Emission, r: Reported) {
    && e.response.error == NoFailure
    && e.response.message == Some(r.message) && e.response.aggregation == Some(r.aggregation)
  }

  lemma TwoFiled(e: Emission, f: Emission, x: Reported, y: Reported)
    requires Files(e, x) && Files(f, y)
    ensures Filed([e, f]) == [x, y]
  {
    assert [e, f][..1] == [e] && [e][..0] == [];
    assert Filed([e]) == [x];
  }

  lemma TwoRows(x: Reported, y: Reported)
    requires x.message.key == y.message.key
    ensures TableOf([x, y]) == [Row(x.message, Some(Stored(Digest(y.message), y.aggregation)))]
  {
    assert [x, y][..1] == [x] && [x][..0] == [];
    assert TableOf([x]) == [Row(x.message, Some(Stored(Digest(x.message), x.aggregation)))];
  }

  // ---------------------------------------------------------------------------------------------
  // Why a vote must be counted once

  /** The ledger after the smaller operator has signed `m` `n` times. */
  ghost function RepeatLedger(m: Message, n: Point): Ledger {
    Ledger(map[1 := map[0 := n as int], 2 := map[0 := 2]], map[Digest(m) := Aggregated(n, n, 1, {1})])
  }

  ghost function RepeatResponse(m: Message, forced: bool): Response {
    Response(Some(m), ThresholdReached, forced, NoFailure,
      Some(AggregationOf(UnequalOperators(), Aggregated(2, 2, 1, {1}))))
  }

  ghost function SignedOnce(m: Message): Goroutine {
    Goroutine(UnequalOperators(), RepeatLedger(m, 1), PreThreshold, [Submission(1, Digest(m), 1)], [])
  }

  ghost function SignedTwice(m: Message): Goroutine {
    Goroutine(UnequalOperators(), RepeatLedger(m, 2), Reached(m),
      [Submission(1, Digest(m), 1), Submission(1, Digest(m), 1)], [RepeatResponse(m, false)])
  }

  ghost function RepeatStopped(m: Message): Goroutine {
    SignedTwice(m).(phase := Stopped, emitted := [RepeatResponse(m, false), RepeatResponse(m, true)])
  }

  lemma RepeatAccepted(m: Message)
    ensures var info, s := UnequalOperators(), Submission(1, Digest(m), 1);
      && WellFormed(info, InitialLedger(info)) && Accept(info, InitialLedger(info), s) == RepeatLedger(m, 1)
      && WellFormed(info, RepeatLedger(m, 1)) && Accept(info, RepeatLedger(m, 1), s) == RepeatLedger(m, 2)
  {
    assert Plus(0, 1) == 1 && Plus(1, 1) == 2;
    var info, one, two := UnequalOperators(), RepeatLedger(m, 1), RepeatLedger(m, 2);
    assert InitialLedger(info).stakes == one.stakes;
    assert AddStakes(one.stakes[1], one.stakes[1]) == two.stakes[1];
    assert one.stakes[1 := two.stakes[1]] == two.stakes;
    assert {1} + {1} == {1};
  }

  lemma RepeatStatus(m: Message)
    ensures var info, d := UnequalOperators(), Digest(m);
      && StatusOf(info, RepeatLedger(m, 1).Total(d)) == ThresholdNotReached
      && StatusOf(info, RepeatLedger(m, 2).Total(d)) == ThresholdReached
  {
    var info, d := UnequalOperators(), Digest(m);
    var one, two := RepeatLedger(m, 1).Total(d), RepeatLedger(m, 2).Total(d);
    assert one[0] == 1 && two[0] == 2 && 0 in info.thresholds;
  }

  lemma RepeatSteps(m: Message)
    ensures var info, e := UnequalOperators(), SignedMessage(m, 1, 1, true);
      && WellFormed(info, InitialLedger(info)) && Step(Start(info), e) == SignedOnce(m)
      && WellFormed(info, RepeatLedger(m, 1)) && Step(SignedOnce(m), e) == SignedTwice(m)
  {
    RepeatAccepted(m);
    RepeatStatus(m);
    assert Scale(1, 1) == 1;
    assert SubmissionOf(SignedMessage(m, 1, 1, true)) == Submission(1, Digest(m), 1);
    assert [] + [Submission(1, Digest(m), 1)] == [Submission(1, Digest(m), 1)];
  }

  /**
   * What the goroutine then sends is not sound: the totals say that its one signer has the stake asked
   * for, and it has not.
   */
  lemma RepeatedVoteIsUnsound(m: Message)
    ensures var e := SignedMessage(m, 1, 1, true);
      Run(UnequalOperators(), [e] + [e]).emitted == [RepeatResponse(m, false)]
    ensures RepeatResponse(m, false).error == NoFailure && !SoundResponse(UnequalOperators(), RepeatResponse(m, false))
  {
    RepeatSteps(m);
    var info, e := UnequalOperators(), SignedMessage(m, 1, 1, true);
    TwoEvents(info, e, SignedOnce(m), SignedTwice(m));
    SmallerIsUnsound(m);
  }

  lemma TwoEvents(info: Info, e: Event, g: Goroutine, h: Goroutine)
    requires WellFormed(info, InitialLedger(info)) && Step(Start(info), e) == g && !g.phase.Stopped?
    requires WellFormed(g.info, g.ledger) && Step(g, e) == h
    ensures Run(info, [e] + [e]) == h
  {
    assert [] + [e] == [e];
    RunNext(info, [], e, Start(info), g);
    RunNext(info, [e], e, g, h);
  }

  lemma SmallerIsUnsound(m: Message)
    ensures !SoundResponse(UnequalOperators(), RepeatResponse(m, false))
  {
    var info := UnequalOperators();
    assert Scale(1, 2) == 2;
    SignedIff(info, m, {1}, 2, 2);
    StakeOfOne(info, 1, 0);
    assert 0 in info.thresholds && !HasShareIn(info, {1}, 0);
    assert AggregationOf(info, Aggregated(2, 2, 1, {1})) == AggregationWith(info, {1}, 2, 2);
  }

  lemma RepeatTimer(m: Message)
    ensures WellFormed(UnequalOperators(), RepeatLedger(m, 2))
    ensures Step(SignedTwice(m), Timer(true)) == RepeatStopped(m)
  {
    RepeatStatus(m);
    assert SignedTwice(m).emitted + [RepeatResponse(m, true)] == RepeatStopped(m).emitted;
  }

  /** The larger operator signs another message. */
  ghost function OtherSigned(k: Message): Goroutine {
    Goroutine(UnequalOperators(),
      InitialLedger(UnequalOperators()).(digests := map[Digest(k) := Aggregated(1, 1, 2, {2})]),
      Reached(k), [Submission(2, Digest(k), 1)], [OtherResponse(k)])
  }

  ghost function OtherResponse(k: Message): Response {
    Response(Some(k), ThresholdReached, false, NoFailure,
      Some(AggregationOf(UnequalOperators(), Aggregated(1, 1, 2, {2}))))
  }

  lemma OtherSteps(k: Message)
    ensures WellFormed(UnequalOperators(), InitialLedger(UnequalOperators()))
    ensures Step(Start(UnequalOperators()), SignedMessage(k, 2, 1, true)) == OtherSigned(k)
  {
    var info, e := UnequalOperators(), SignedMessage(k, 2, 1, true);
    assert Scale(1, 1) == 1 && Plus(0, 1) == 1;
    var l := Accept(info, InitialLedger(info), SubmissionOf(e));
    assert l == OtherSigned(k).ledger;
    assert l.Total(Digest(k)) == map[0 := 2];
    assert !FullStakeMet(info, l.Total(Digest(k))) by { assert l.Total(Digest(k))[0] != Get(info.totalStake, 0); }
    assert [] + [SubmissionOf(e)] == [Submission(2, Digest(k), 1)];
  }

  /** The one goroutine of the run is at `g`. */
  ghost function At(m: Message, g: Goroutine, seconds: nat, calls: seq<Call>, log: seq<Emission>): Service {
    Service(0, map[m.key := 0], [Running(m.key, g, seconds * SECOND)], calls, log)
  }

  /** Where a step leaves a goroutine's timer. */
  ghost predicate Timed(now: nat, g: Goroutine, h: Goroutine, before: nat, after: nat) {
    after == if g.phase == PreThreshold && h.phase.Reached? then now + 30 * SECOND else before
  }

  lemma VoteGives(latency: nat, m: Message, o: OperatorId, g: Goroutine, h: Goroutine, before: nat, after: nat,
                  log: seq<Emission>, sent: seq<Response>)
    requires WellFormed(g.info, g.ledger) && !g.phase.Stopped? && h.accepted != g.accepted
    requires Step(g, SignedMessage(m, o, 1, true)) == h && h.emitted == g.emitted + sent
    requires Timed(0, g, h, before * SECOND, after * SECOND)
    ensures var s := At(m, g, before, [Call(m, o, 1, 0, Some(0))], log);
      && Enabled(latency, s, Deliver(0, true)) && VoteOf(latency, s, Deliver(0, true)) == [Vote(0, o, m)]
      && Next(latency, s, Deliver(0, true)) == At(m, h, after, [], log + Stamp(0, sent))
  {
    var s := At(m, g, before, [Call(m, o, 1, 0, Some(0))], log);
    DeliverGives(latency, s, 0, m, o, h, sent);
  }

  lemma StampNone(now: nat)
    ensures [] + Stamp(now, []) == []
  {
  }

  lemma StampOne(now: nat, log: seq<Emission>, r: Response)
    ensures log + Stamp(now, [r]) == log + [Emission(now, r)]
  {
  }

  lemma FirstVote(latency: nat, m: Message)
    ensures var s := At(m, Start(UnequalOperators()), 60, [Call(m, 1, 1, 0, Some(0))], []);
      && Enabled(latency, s, Deliver(0, true)) && VoteOf(latency, s, Deliver(0, true)) == [Vote(0, 1, m)]
      && Next(latency, s, Deliver(0, true)) == At(m, SignedOnce(m), 60, [], [])
  {
    RepeatSteps(m);
    VoteGives(latency, m, 1, Start(UnequalOperators()), SignedOnce(m), 60, 60, [], []);
    StampNone(0);
  }

  lemma SecondVote(latency: nat, m: Message)
    ensures var s := At(m, SignedOnce(m), 60, [Call(m, 1, 1, 0, Some(0))], []);
      && Enabled(latency, s, Deliver(0, true)) && VoteOf(latency, s, Deliver(0, true)) == [Vote(0, 1, m)]
      && Next(latency, s, Deliver(0, true)) ==
         At(m, SignedTwice(m), 30, [], [] + [Emission(0, RepeatResponse(m, false))])
  {
    RepeatSteps(m);
    assert |SignedOnce(m).accepted| < |SignedTwice(m).accepted|;
    VoteGives(latency, m, 1, SignedOnce(m), SignedTwice(m), 60, 30, [], [RepeatResponse(m, false)]);
    StampOne(0, [], RepeatResponse(m, false));
  }

  /** A signature submitted again, once nothing else is under way. */
  lemma SubmitAgain(latency: nat, t: Trace, infos: seq<Info>, votes: seq<Vote>, m: Message, g: Goroutine)
      returns (t1: Trace)
    requires Plays(latency, t, infos, votes) && t.End() == At(m, g, 60, [], [])
    ensures Plays(latency, t1, infos, votes) && t1.End() == At(m, g, 60, [Call(m, 1, 1, 0, Some(0))], [])
  {
    TimestampOkUntil(0, m.timestamp);
    t1 := GoesOn(latency, t, infos, votes, Submit(m, 1, 1), At(m, g, 60, [Call(m, 1, 1, 0, None)], []));
    t1 := GoesOn(latency, t1, infos, votes, LookUp(0), At(m, g, 60, [Call(m, 1, 1, 0, Some(0))], []));
  }

  lemma CallFirst(latency: nat, infos: seq<Info>, m: Message, info: Info) returns (t: Trace)
    requires Sound(info) && info in infos
    ensures Plays(latency, t, infos, []) && t.End() == At(m, Start(info), 60, [Call(m, 1, 1, 0, Some(0))], [])
  {
    NothingPlays(latency, infos);
    t := CallRound(latency, Trace([Nothing()], []), infos, [], m, 1, info);
  }

  /** The smaller operator signs `m` twice in one goroutine. */
  lemma VotesTwice(latency: nat, infos: seq<Info>, m: Message) returns (t: Trace)
    requires UnequalOperators() in infos
    ensures Plays(latency, t, infos, [Vote(0, 1, m), Vote(0, 1, m)])
    ensures t.End() == At(m, SignedTwice(m), 30, [], [Emission(0, RepeatResponse(m, false))])
  {
    var call, vote := Call(m, 1, 1, 0, Some(0)), Vote(0, 1, m);
    t := CallFirst(latency, infos, m, UnequalOperators());
    FirstVote(latency, m);
    t := VoteCast(latency, t, infos, [], At(m, Start(UnequalOperators()), 60, [call], []), vote,
      At(m, SignedOnce(m), 60, [], []));
    t := SubmitAgain(latency, t, infos, [] + [vote], m, SignedOnce(m));
    SecondVote(latency, m);
    t := VoteCast(latency, t, infos, [] + [vote], At(m, SignedOnce(m), 60, [call], []), vote,
      At(m, SignedTwice(m), 30, [], [] + [Emission(0, RepeatResponse(m, false))]));
    assert [] + [vote] + [vote] == [vote, vote];
  }

  /** What has been reported for `m`. */
  ghost function RepeatLog(m: Message): seq<Emission> {
    [Emission(0, RepeatResponse(m, false)), Emission(30 * SECOND, RepeatResponse(m, true))]
  }

  ghost function Expiring(m: Message): Service {
    At(m, SignedTwice(m), 30, [], [Emission(0, RepeatResponse(m, false))]).(now := 30 * SECOND)
  }

  ghost function Expiry(m: Message): Service {
    At(m, RepeatStopped(m), 30, [], RepeatLog(m)).(now := 30 * SECOND)
  }

  ghost function Over(m: Message): Service {
    Service(30 * SECOND, map[], [Closed(m.key)], [], RepeatLog(m))
  }

  lemma Expires(latency: nat, m: Message)
    ensures Enabled(latency, Expiring(m), TimerFires(0, true))
    ensures Next(latency, Expiring(m), TimerFires(0, true)) == Expiry(m)
  {
    RepeatTimer(m);
    var s := Expiring(m);
    ReceivedGives(s, 0, Timer(true), RepeatStopped(m), [RepeatResponse(m, true)]);
    assert Stamp(s.now, [RepeatResponse(m, true)]) == [Emission(s.now, RepeatResponse(m, true))];
    assert s.log + [Emission(s.now, RepeatResponse(m, true))] == RepeatLog(m);
  }

  lemma RepeatEnds(latency: nat, infos: seq<Info>, m: Message) returns (t: Trace)
    requires UnequalOperators() in infos
    ensures Plays(latency, t, infos, [Vote(0, 1, m), Vote(0, 1, m)]) && t.End() == Over(m)
  {
    var votes := [Vote(0, 1, m), Vote(0, 1, m)];
    t := VotesTwice(latency, infos, m);
    t := GoesOn(latency, t, infos, votes, Tick(30 * SECOND), Expiring(m));
    Expires(latency, m);
    t := GoesOn(latency, t, infos, votes, TimerFires(0, true), Expiry(m));
    CloseGives(latency, Expiry(m), 0, map[]);
    t := GoesOn(latency, t, infos, votes, Close(0), Over(m));
  }

  ghost function Overtaken(m: Message, k: Message): Service {
    Service(30 * SECOND, map[m.key := 1], [Closed(m.key), Running(m.key, OtherSigned(k), 60 * SECOND)], [],
      RepeatLog(m) + [Emission(30 * SECOND, OtherResponse(k))])
  }

  lemma Overtakes(latency: nat, m: Message, k: Message)
    requires m.key == k.key
    ensures var s := Called(Over(m), k, 2, UnequalOperators());
      && Enabled(latency, s, Deliver(0, true)) && VoteOf(latency, s, Deliver(0, true)) == [Vote(1, 2, k)]
      && Next(latency, s, Deliver(0, true)) == Overtaken(m, k)
  {
    OtherSteps(k);
    var s := Called(Over(m), k, 2, UnequalOperators());
    LaterVoteGives(latency, s, Over(m).tasks[0], k, Start(UnequalOperators()), OtherSigned(k), OtherResponse(k));
  }

  /** The second goroutine of a run receives the signature of operator 2, and reaches the threshold. */
  lemma LaterVoteGives(latency: nat, s: Service, t: Task, k: Message, g: Goroutine, h: Goroutine, r: Response)
    requires s.calls == [Call(k, 2, 1, s.now, Some(1))] && s.tasks == [t, Running(k.key, g, s.now + 60 * SECOND)]
    requires WellFormed(g.info, g.ledger) && g.phase == PreThreshold && h.phase.Reached? && h.accepted != g.accepted
    requires Step(g, SignedMessage(k, 2, 1, true)) == h && h.emitted == g.emitted + [r]
    ensures Enabled(latency, s, Deliver(0, true)) && VoteOf(latency, s, Deliver(0, true)) == [Vote(1, 2, k)]
    ensures Next(latency, s, Deliver(0, true)) ==
      Service(s.now, s.chans, [t, Running(k.key, h, s.now + 30 * SECOND)], [], s.log + [Emission(s.now, r)])
  {
    DeliverGives(latency, s, 1, k, 2, h, [r]);
    StampOne(s.now, s.log, r);
  }

  /**
   * The smaller of two operators signs `m`, twice, and the larger `k` of the same key: each has signed
   * one message, and still `m` is filed with the aggregation of `k`.
   */
  lemma RepeatedVoteIsMispaired(latency: nat, m: Message, k: Message) returns (t: Trace)
    requires m.key == k.key && m != k
    ensures Plays(latency, t, [UnequalOperators()], [Vote(0, 1, m), Vote(0, 1, m), Vote(1, 2, k)])
    ensures TableOf(Filed(t.End().log)) ==
      [Row(m, Some(Stored(Digest(k), OtherResponse(k).aggregation.value)))]
  {
    var votes := [Vote(0, 1, m), Vote(0, 1, m)];
    assert [UnequalOperators()][0] == UnequalOperators();
    t := OvertakingRun(latency, [UnequalOperators()], m, k);
    assert votes + [Vote(1, 2, k)] == [Vote(0, 1, m), Vote(0, 1, m), Vote(1, 2, k)];
    ThreeFiled(m, k);
  }

  lemma OvertakingRun(latency: nat, infos: seq<Info>, m: Message, k: Message) returns (t: Trace)
    requires m.key == k.key && UnequalOperators() in infos
    ensures Plays(latency, t, infos, [Vote(0, 1, m), Vote(0, 1, m)] + [Vote(1, 2, k)]) && t.End() == Overtaken(m, k)
  {
    t := RepeatEnds(latency, infos, m);
    assert Sound(UnequalOperators());
    Overtakes(latency, m, k);
    t := VoteRound(latency, t, infos, [Vote(0, 1, m), Vote(0, 1, m)], k, 2, UnequalOperators(), Over(m),
      Vote(1, 2, k), Overtaken(m, k));
  }

  lemma VoteRound(latency: nat, t: Trace, infos: seq<Info>, votes: seq<Vote>, m: Message, o: OperatorId, info: Info,
                  s: Service, vote: Vote, next: Service)
      returns (t1: Trace)
    requires Plays(latency, t, infos, votes) && t.End() == s && Quiet(s, m.key) && Sound(info) && info in infos
    requires Enabled(latency, Called(s, m, o, info), Deliver(0, true))
    requires VoteOf(latency, Called(s, m, o, info), Deliver(0, true)) == [vote]
    requires Next(latency, Called(s, m, o, info), Deliver(0, true)) == next
    ensures Plays(latency, t1, infos, votes + [vote]) && t1.End() == next
  {
    t1 := CallRound(latency, t, infos, votes, m, o, info);
    t1 := VoteCast(latency, t1, infos, votes, Called(s, m, o, info), vote, next);
  }

  lemma ThreeFiled(m: Message, k: Message)
    requires m.key == k.key
    ensures TableOf(Filed(Overtaken(m, k).log)) == [Row(m, Some(Stored(Digest(k), OtherResponse(k).aggregation.value)))]
  {
    var x := Reported(m, RepeatResponse(m, false).aggregation.value);
    var y := Reported(k, OtherResponse(k).aggregation.value);
    var log := RepeatLog(m);
    TwoFiled(log[0], log[1], x, x);
    assert log == [log[0], log[1]];
    var all := Overtaken(m, k).log;
    assert all[..2] == log;
    assert Filed(all) == [x, x] + [y];
    ThreeRows(x, y);
  }

  lemma ThreeRows(x: Reported, y: Reported)
    requires x.message.key == y.message.key
    ensures TableOf([x, x] + [y]) == [Row(x.message, Some(Stored(Digest(y.message), y.aggregation)))]
  {
    TwoRows(x, x);
    assert ([x, x] + [y])[..2] == [x, x];
  }
}
