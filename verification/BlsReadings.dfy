/**
 * What a response reads like after it was sent. It holds the digest's own key and signature, which
 * the goroutine goes on adding to; the rest of it is its own.
 */
module BlsReadings {
  import opened BlsTypes
  import opened BlsLedger
  import opened BlsGoroutine
  import opened Sums
  import opened SortedIds

  /** The response `r` as it reads when the ledger stands at `l`. */
  ghost function ReadAt(r: Response, l: Ledger): Response {
    if r.message.Some? && r.aggregation.Some? && Digest(r.message.value) in l.digests then
      var now := l.digests[Digest(r.message.value)];
      r.(aggregation := Some(r.aggregation.value.(signersApkG2 := now.apkG2, signersAggSigG1 := now.sig)))
    else r
  }

  /** The keys that `subs` add to digest `d`. */
  ghost function KeysOn(info: Info, subs: seq<Submission>, d: Digest): Point
    requires Registered(info, subs)
  {
    if subs == [] then 0
    else
      var n := |subs| - 1;
      if subs[n].digest == d then Plus(KeysOn(info, subs[..n], d), info.operators[subs[n].operator].pubkeyG2)
      else KeysOn(info, subs[..n], d)
  }

  lemma {:induction false} KeysOnJoin(info: Info, some: seq<Submission>, more: seq<Submission>, d: Digest)
    requires Registered(info, some) && Registered(info, more)
    ensures Registered(info, some + more)
    ensures KeysOn(info, some + more, d) == Plus(KeysOn(info, some, d), KeysOn(info, more, d))
    decreases |more|
  {
    if more == [] {
      assert some + more == some;
      PlusZero(KeysOn(info, some, d));
    } else {
      var n := |more| - 1;
      assert (some + more)[..|some| + n] == some + more[..n];
      KeysOnJoin(info, some, more[..n], d);
      PlusAssociates(KeysOn(info, some, d), KeysOn(info, more[..n], d), info.operators[more[n].operator].pubkeyG2);
    }
  }

  /** The ledger's key of a digest is what its submissions have added. */
  ghost predicate KeyIs(l: Ledger, d: Digest, key: Point) {
    if d in l.digests then l.digests[d].apkG2 == key else key == 0
  }

  lemma AcceptKeepsKey(info: Info, l: Ledger, s: Submission, d: Digest, key: Point)
    requires WellFormed(info, l) && s.operator in info.operators && KeyIs(l, d, key)
    ensures KeyIs(Accept(info, l, s), d, if s.digest == d then Plus(key, info.operators[s.operator].pubkeyG2) else key)
  {
  }

  lemma {:induction false} LedgerKey(info: Info, subs: seq<Submission>, d: Digest)
    requires Registered(info, subs)
    ensures KeyIs(AcceptAll(info, subs), d, KeysOn(info, subs, d))
  {
    if subs != [] {
      var n := |subs| - 1;
      LedgerKey(info, subs[..n], d);
      AcceptKeepsKey(info, AcceptAll(info, subs[..n]), subs[n], d, KeysOn(info, subs[..n], d));
    }
  }

  // ---------------------------------------------------------------------------------------------
  // Runs

  /** The `n`-th event made the goroutine send `r`, without error. */
  ghost predicate SentAt(info: Info, events: seq<Event>, n: nat, r: Response) {
    && 0 < n <= |events| && r.error == NoFailure
    && Run(info, events[..n]).emitted == Run(info, events[..n - 1]).emitted + [r]
  }

  ghost function Without(before: seq<Submission>, all: seq<Submission>): (since: seq<Submission>)
    requires before <= all
    ensures all == before + since
  {
    all[|before|..]
  }

  /** The submissions accepted after the `n`-th event. */
  ghost function AcceptedSince(info: Info, events: seq<Event>, n: nat): (subs: seq<Submission>)
    requires n <= |events|
    ensures AcceptedIn(info, events) == AcceptedIn(info, events[..n]) + subs
  {
    AcceptedGrows(info, events, n);
    Without(AcceptedIn(info, events[..n]), AcceptedIn(info, events))
  }

  /** What a step sends without error is the response for the ledger it leaves. */
  lemma StepSendsCurrent(g: Goroutine, e: Event, r: Response)
    requires WellFormed(g.info, g.ledger) && !g.phase.Stopped?
    requires Step(g, e).emitted == g.emitted + [r] && r.error == NoFailure
    ensures var l := Step(g, e).ledger;
      && r.message.Some? && r.aggregation.Some? && Digest(r.message.value) in l.digests
      && r.aggregation.value == AggregationOf(g.info, l.digests[Digest(r.message.value)])
  {
    var h := Step(g, e);
    assert h.emitted[|g.emitted|] == r;
    StepSendsFor(g, e);
  }

  lemma StepSendsFor(g: Goroutine, e: Event)
    requires WellFormed(g.info, g.ledger) && !g.phase.Stopped?
    requires |Step(g, e).emitted| == |g.emitted| + 1 && Step(g, e).emitted[|g.emitted|].error == NoFailure
    ensures WellFormed(g.info, Step(g, e).ledger)
    ensures exists m, forced, ok ::
      Step(g, e).emitted[|g.emitted|] == ResponseFor(g.info, Step(g, e).ledger, m, forced, ok)
  {
    StepKeepsWellFormed(g, e);
  }

  /** What the goroutine sends is the response for the ledger it then has. */
  lemma SentIsCurrent(info: Info, events: seq<Event>, n: nat, r: Response)
    requires SentAt(info, events, n, r) && Sound(info)
    ensures var l := Run(info, events[..n]).ledger;
      && r.message.Some? && r.aggregation.Some? && Digest(r.message.value) in l.digests
      && r.aggregation.value == AggregationOf(info, l.digests[Digest(r.message.value)])
  {
    var g := Run(info, events[..n - 1]);
    assert events[..n][..n - 1] == events[..n - 1];
    assert |g.emitted + [r]| == |g.emitted| + 1;
    StepSendsCurrent(g, events[n - 1], r);
  }

  /** The key and the signature a response reads later still fit each other. */
  lemma LaterSignatureVerifies(info: Info, events: seq<Event>, d: Digest)
    requires Sound(info) && d in Run(info, events).ledger.digests
    ensures var now := Run(info, events).ledger.digests[d];
      Verifies(info, now.sig, now.apkG2, d)
  {
    RunInv(info, events);
  }

  lemma RunKey(info: Info, events: seq<Event>, d: Digest)
    ensures KeyIs(Run(info, events).ledger, d, KeysOn(info, AcceptedIn(info, events), d))
  {
    LedgerKey(info, AcceptedIn(info, events), d);
  }

  lemma StepKeepsDigest(g: Goroutine, e: Event, d: Digest)
    requires WellFormed(g.info, g.ledger) && !g.phase.Stopped? && d in g.ledger.digests
    ensures d in Step(g, e).ledger.digests
  {
  }

  lemma {:induction false} DigestsGrow(info: Info, events: seq<Event>, n: nat, d: Digest)
    requires n <= |events| && d in Run(info, events[..n]).ledger.digests
    ensures d in Run(info, events).ledger.digests
    decreases |events|
  {
    if n == |events| {
      assert events[..n] == events;
    } else {
      var front := events[..|events| - 1];
      assert front[..n] == events[..n];
      DigestsGrow(info, front, n, d);
      if !Run(info, front).phase.Stopped? {
        StepKeepsDigest(Run(info, front), events[|events| - 1], d);
      }
    }
  }

  lemma LaterKey(info: Info, events: seq<Event>, n: nat, d: Digest)
    requires n <= |events| && d in Run(info, events[..n]).ledger.digests
    ensures Registered(info, AcceptedSince(info, events, n)) && d in Run(info, events).ledger.digests
    ensures Run(info, events).ledger.digests[d].apkG2 ==
      Plus(Run(info, events[..n]).ledger.digests[d].apkG2, KeysOn(info, AcceptedSince(info, events, n), d))
  {
    RunKey(info, events[..n], d);
    RunKey(info, events, d);
    DigestsGrow(info, events, n, d);
    var before, since := AcceptedIn(info, events[..n]), AcceptedSince(info, events, n);
    KeySince(info, before, since, Run(info, events[..n]).ledger, Run(info, events).ledger, d);
  }

  lemma KeySince(info: Info, before: seq<Submission>, since: seq<Submission>, l: Ledger, now: Ledger, d: Digest)
    requires Registered(info, before + since) && d in l.digests && d in now.digests
    requires Registered(info, before) && KeyIs(l, d, KeysOn(info, before, d))
    requires KeyIs(now, d, KeysOn(info, before + since, d))
    ensures Registered(info, since)
    ensures now.digests[d].apkG2 == Plus(l.digests[d].apkG2, KeysOn(info, since, d))
  {
    assert forall s <- since :: s in before + since;
    KeysOnJoin(info, before, since, d);
  }

  /**
   * Whatever was accepted, and however often: a response sent at the `n`-th event reads sound after all
   * `events` exactly if the keys accepted on its digest by then add up to those of the signers it was
   * sent with, and these have the stake asked for.
   */
  lemma ReadingIsSoundIff(info: Info, events: seq<Event>, n: nat, r: Response)
    requires Sound(info) && KeyPairs(info) && SentAt(info, events, n, r)
    ensures r.message.Some?
    ensures var d := Digest(r.message.value);
      var signers := SignersOn(AcceptedIn(info, events[..n]), d);
      && signers <= info.operators.Keys
      && (SoundResponse(info, ReadAt(r, Run(info, events).ledger)) <==>
          KeysOn(info, AcceptedIn(info, events), d) == KeyOf(info, signers) && HasShare(info, signers))
  {
    SentIsCurrent(info, events, n, r);
    var m, d := r.message.value, Digest(r.message.value);
    SignersAre(info, AcceptedIn(info, events[..n]), d);
    DigestsGrow(info, events, n, d);
    RunKey(info, events, d);
    LaterSignatureVerifies(info, events, d);
    ReadingIs(info, Run(info, events[..n]).ledger, Run(info, events).ledger, r);
    var now := Run(info, events).ledger.digests[d];
    SignedIff(info, m, SignersOn(AcceptedIn(info, events[..n]), d), now.apkG2, now.sig);
  }

  lemma ReadingIs(info: Info, l: Ledger, now: Ledger, r: Response)
    requires r.error == NoFailure && r.message.Some? && r.aggregation.Some?
    requires Digest(r.message.value) in l.digests && Digest(r.message.value) in now.digests
    requires r.aggregation.value == AggregationOf(info, l.digests[Digest(r.message.value)])
    ensures var d, later := Digest(r.message.value), ReadAt(r, now);
      && later.error == NoFailure && later.message == r.message
      && later.aggregation ==
         Some(AggregationWith(info, l.digests[d].signers, now.digests[d].apkG2, now.digests[d].sig))
  {
  }

  /** As it is sent, a response is sound exactly if nothing accepted on its digest by then was one too many. */
  lemma SentIsSoundIff(info: Info, events: seq<Event>, n: nat, r: Response)
    requires Sound(info) && KeyPairs(info) && SentAt(info, events, n, r)
    ensures r.message.Some?
    ensures var d, accepted := Digest(r.message.value), AcceptedIn(info, events[..n]);
      && SignersOn(accepted, d) <= info.operators.Keys
      && (SoundResponse(info, r) <==>
          KeysOn(info, accepted, d) == KeyOf(info, SignersOn(accepted, d)) && HasShare(info, SignersOn(accepted, d)))
  {
    var front := events[..n];
    assert front[..n] == front && front[..n - 1] == events[..n - 1];
    SentIsCurrent(info, events, n, r);
    ReadingIsSoundIff(info, front, n, r);
    assert ReadAt(r, Run(info, front).ledger) == r;
  }

  /**
   * A response that was sound when it was sent reads sound later exactly if the keys accepted on its
   * digest since add up to nothing: so at once, and after one more signer only if that key is zero.
   */
  lemma LaterReadingIsSoundIff(info: Info, events: seq<Event>, n: nat, r: Response)
    requires Sound(info) && KeyPairs(info) && SentAt(info, events, n, r) && SoundResponse(info, r)
    ensures r.message.Some? && Registered(info, AcceptedSince(info, events, n))
    ensures SoundResponse(info, ReadAt(r, Run(info, events).ledger)) <==>
      KeysOn(info, AcceptedSince(info, events, n), Digest(r.message.value)) == 0
  {
    SentIsCurrent(info, events, n, r);
    SentIsSoundIff(info, events, n, r);
    ReadingIsSoundIff(info, events, n, r);
    var d := Digest(r.message.value);
    LaterKey(info, events, n, d);
    RunKey(info, events[..n], d);
    RunKey(info, events, d);
    CancelPoint(KeysOn(info, AcceptedIn(info, events[..n]), d), KeysOn(info, AcceptedSince(info, events, n), d));
  }

  lemma {:induction false} StoppedStays(info: Info, events: seq<Event>, n: nat)
    requires n <= |events| && Run(info, events[..n]).phase.Stopped?
    ensures Run(info, events) == Run(info, events[..n])
    decreases |events|
  {
    if n == |events| {
      assert events[..n] == events;
    } else {
      assert events[..|events| - 1][..n] == events[..n];
      StoppedStays(info, events[..|events| - 1], n);
    }
  }

  /**
   * A finished response, the only kind the aggregator itself sends to a contract, reads the same for
   * ever; and if each operator was accepted once until then, it is sound.
   */
  lemma FinishedReadingIsSound(info: Info, events: seq<Event>, n: nat, r: Response)
    requires Sound(info) && SentAt(info, events, n, r) && r.finished
    ensures ReadAt(r, Run(info, events).ledger) == r
    ensures KeyPairs(info) && Once(AcceptedIn(info, events[..n])) ==> SoundResponse(info, r)
  {
    RunFinishesOnce(info, events[..n]);
    assert Run(info, events[..n]).emitted[|Run(info, events[..n]).emitted| - 1] == r;
    StoppedStays(info, events, n);
    SentIsCurrent(info, events, n, r);
    if KeyPairs(info) && Once(AcceptedIn(info, events[..n])) {
      RunResponsesAreSound(info, events[..n], r);
    }
  }

  // ---------------------------------------------------------------------------------------------
  // A reading that is not sound

  /** Three operators with a third of the stake each. */
  ghost function Thirds(): Info {
    Info(map[1 := Operator(1, 1, map[0 := 1]), 2 := Operator(2, 2, map[0 := 1]), 3 := Operator(3, 3, map[0 := 1])],
      map[0 := 3], map[0 := 66], (d: Digest) => 1)
  }

  /** The ledger once `signers` have signed `m`, with total stake `n` and their keys adding up to `key`. */
  ghost function ThirdsLedger(m: Message, n: nat, key: Point, signers: set<OperatorId>): Ledger {
    Ledger(map[1 := map[0 := n], 2 := map[0 := 1], 3 := map[0 := 1]],
      map[Digest(m) := Aggregated(key, key, 1, signers)])
  }

  lemma SmallSums()
    ensures Scale(1, 1) == 1 && Scale(1, 2) == 2 && Scale(1, 3) == 3
    ensures Plus(0, 1) == 1 && Plus(1, 2) == 3 && Plus(3, 3) == 6 && Plus(0, 3) == 3
  {
  }

  lemma FirstAccepted(m: Message)
    ensures WellFormed(Thirds(), InitialLedger(Thirds()))
    ensures Accept(Thirds(), InitialLedger(Thirds()), Submission(1, Digest(m), 1)) == ThirdsLedger(m, 1, 1, {1})
  {
    SmallSums();
    assert InitialLedger(Thirds()).stakes == ThirdsLedger(m, 1, 1, {1}).stakes;
  }

  lemma MoreAccepted(m: Message, n: nat, key: Point, signers: set<OperatorId>, o: OperatorId)
    requires o in {2, 3} && 1 in signers && signers <= {1, 2, 3} && 1 <= n
    ensures WellFormed(Thirds(), ThirdsLedger(m, n, key, signers))
    ensures Accept(Thirds(), ThirdsLedger(m, n, key, signers), Submission(o, Digest(m), o)) ==
      ThirdsLedger(m, n + 1, Plus(key, o), signers + {o})
  {
    var l := ThirdsLedger(m, n, key, signers);
    ThirdsWellFormed(m, n, key, signers);
    OneMoreThird(n, l.stakes, o);
    assert l.digests[Digest(m) := Aggregated(Plus(key, o), Plus(key, o), 1, signers + {o})] ==
           map[Digest(m) := Aggregated(Plus(key, o), Plus(key, o), 1, signers + {o})];
  }

  lemma ThirdsWellFormed(m: Message, n: nat, key: Point, signers: set<OperatorId>)
    requires 1 in signers && signers <= {1, 2, 3}
    ensures WellFormed(Thirds(), ThirdsLedger(m, n, key, signers))
  {
  }

  lemma OneMoreThird(n: nat, stakes: map<OperatorId, Stakes>, o: OperatorId)
    requires o in {2, 3} && stakes == map[1 := map[0 := n], 2 := map[0 := 1], 3 := map[0 := 1]]
    ensures stakes[1 := AddStakes(stakes[1], stakes[o])] ==
      map[1 := map[0 := n + 1], 2 := map[0 := 1], 3 := map[0 := 1]]
  {
    var total: Stakes := map[0 := n + 1];
    assert AddStakes(stakes[1], stakes[o]) == total;
  }

  lemma ThirdsStatus(m: Message, n: nat, key: Point, signers: set<OperatorId>)
    requires 1 <= n <= 3
    ensures StatusOf(Thirds(), ThirdsLedger(m, n, key, signers).Total(Digest(m))) ==
      if n == 1 then ThresholdNotReached else if n == 2 then ThresholdReached else FullStakeThresholdMet
  {
    var total := ThirdsLedger(m, n, key, signers).Total(Digest(m));
    assert total == map[0 := n];
    assert 0 in total && total[0] == n && 0 in Thirds().thresholds;
  }

  ghost function ThirdsResponse(m: Message, status: Status, key: Point, signers: set<OperatorId>): Response {
    Response(Some(m), status, status == FullStakeThresholdMet, NoFailure,
      Some(AggregationOf(Thirds(), Aggregated(key, key, 1, signers))))
  }

  ghost function Signs(m: Message, o: Point): Event {
    SignedMessage(m, o, o, true)
  }

  ghost function Ballot(m: Message, o: Point): Submission {
    Submission(o, Digest(m), o)
  }

  ghost function AfterOne(m: Message): Goroutine {
    Goroutine(Thirds(), ThirdsLedger(m, 1, 1, {1}), PreThreshold, [Ballot(m, 1)], [])
  }

  ghost function AfterTwo(m: Message): Goroutine {
    Goroutine(Thirds(), ThirdsLedger(m, 2, 3, {1, 2}), Reached(m), [Ballot(m, 1), Ballot(m, 2)],
      [ThirdsResponse(m, ThresholdReached, 3, {1, 2})])
  }

  ghost function AfterThree(m: Message): Goroutine {
    Goroutine(Thirds(), ThirdsLedger(m, 3, 6, {1, 2, 3}), Stopped, [Ballot(m, 1), Ballot(m, 2), Ballot(m, 3)],
      [ThirdsResponse(m, ThresholdReached, 3, {1, 2}), ThirdsResponse(m, FullStakeThresholdMet, 6, {1, 2, 3})])
  }

  lemma FirstSigns(m: Message)
    ensures WellFormed(Thirds(), InitialLedger(Thirds()))
    ensures Step(Start(Thirds()), Signs(m, 1)) == AfterOne(m)
  {
    SmallSums();
    FirstAccepted(m);
    ThirdsStatus(m, 1, 1, {1});
    assert SubmissionOf(Signs(m, 1)) == Ballot(m, 1);
  }

  lemma SecondSigns(m: Message)
    ensures WellFormed(Thirds(), AfterOne(m).ledger)
    ensures Step(AfterOne(m), Signs(m, 2)) == AfterTwo(m)
  {
    SmallSums();
    MoreAccepted(m, 1, 1, {1}, 2);
    assert {1} + {2} == {1, 2};
    ThirdsStatus(m, 2, 3, {1, 2});
    assert SubmissionOf(Signs(m, 2)) == Ballot(m, 2);
  }

  /** After the threshold, a signature that makes the stake full. */
  lemma LastSigns(g: Goroutine, e: Event, l: Ledger, r: Response)
    requires WellFormed(g.info, g.ledger) && e.SignedMessage? && g.phase == Reached(e.message)
    requires CheckSignature(g.info, e) == NoError && Accept(g.info, g.ledger, SubmissionOf(e)) == l
    requires WellFormed(g.info, l) && ResponseFor(g.info, l, e.message, false, e.indicesOk) == r
    requires r.status == FullStakeThresholdMet
    ensures Step(g, e) == Goroutine(g.info, l, Stopped, g.accepted + [SubmissionOf(e)], g.emitted + [r])
  {
  }

  lemma FullThirdsResponse(m: Message)
    ensures WellFormed(Thirds(), ThirdsLedger(m, 3, 6, {1, 2, 3}))
    ensures ResponseFor(Thirds(), ThirdsLedger(m, 3, 6, {1, 2, 3}), m, false, true) ==
      ThirdsResponse(m, FullStakeThresholdMet, 6, {1, 2, 3})
  {
    ThirdsWellFormed(m, 3, 6, {1, 2, 3});
    ThirdsStatus(m, 3, 6, {1, 2, 3});
  }

  lemma ThirdIsGenuine(m: Message)
    ensures CheckSignature(Thirds(), Signs(m, 3)) == NoError && SubmissionOf(Signs(m, 3)) == Ballot(m, 3)
  {
    SmallSums();
  }

  lemma ThirdSigns(m: Message)
    ensures WellFormed(Thirds(), AfterTwo(m).ledger)
    ensures Step(AfterTwo(m), Signs(m, 3)) == AfterThree(m)
  {
    ThirdIsGenuine(m);
    MoreAccepted(m, 2, 3, {1, 2}, 3);
    assert Plus(3, 3) == 6 && {1, 2} + {3} == {1, 2, 3};
    FullThirdsResponse(m);
    LastSigns(AfterTwo(m), Signs(m, 3), ThirdsLedger(m, 3, 6, {1, 2, 3}),
      ThirdsResponse(m, FullStakeThresholdMet, 6, {1, 2, 3}));
  }

  lemma Displayed(e: Event, f: Event, g: Event)
    ensures [e] + [f] == [e, f] && [e, f] + [g] == [e, f, g]
  {
  }

  lemma FirstTwo(e: Event, f: Event, g: Event)
    ensures [e, f, g][..2] == [e, f] && [e, f, g][..1] == [e]
  {
  }

  lemma OneSigns(m: Message)
    ensures Run(Thirds(), [Signs(m, 1)]) == AfterOne(m)
  {
    FirstSigns(m);
    RunNext(Thirds(), [], Signs(m, 1), Start(Thirds()), AfterOne(m));
    assert [] + [Signs(m, 1)] == [Signs(m, 1)];
  }

  lemma TwoSign(m: Message)
    ensures Run(Thirds(), [Signs(m, 1), Signs(m, 2)]) == AfterTwo(m)
  {
    OneSigns(m);
    SecondSigns(m);
    RunNext(Thirds(), [Signs(m, 1)], Signs(m, 2), AfterOne(m), AfterTwo(m));
  }

  lemma ThreeSign(m: Message)
    ensures Run(Thirds(), [Signs(m, 1), Signs(m, 2), Signs(m, 3)]) == AfterThree(m)
  {
    TwoSign(m);
    ThirdSigns(m);
    Displayed(Signs(m, 1), Signs(m, 2), Signs(m, 3));
    RunNext(Thirds(), [Signs(m, 1), Signs(m, 2)], Signs(m, 3), AfterTwo(m), AfterThree(m));
  }

  lemma TwoThirdsSent(m: Message)
    ensures SentAt(Thirds(), [Signs(m, 1), Signs(m, 2), Signs(m, 3)], 2, ThirdsResponse(m, ThresholdReached, 3, {1, 2}))
    ensures AcceptedSince(Thirds(), [Signs(m, 1), Signs(m, 2), Signs(m, 3)], 2) == [Ballot(m, 3)]
  {
    OneSigns(m);
    TwoSign(m);
    ThreeSign(m);
    var g, h, k := AfterOne(m), AfterTwo(m), AfterThree(m);
    assert h.emitted == g.emitted + [ThirdsResponse(m, ThresholdReached, 3, {1, 2})];
    assert k.accepted == h.accepted + [Ballot(m, 3)];
    SecondSent(Thirds(), Signs(m, 1), Signs(m, 2), Signs(m, 3), g, h, k,
      ThirdsResponse(m, ThresholdReached, 3, {1, 2}), Ballot(m, 3));
  }

  lemma SecondSent(info: Info, a: Event, b: Event, c: Event, g: Goroutine, h: Goroutine, k: Goroutine, r: Response,
                   s: Submission)
    requires Run(info, [a]) == g && Run(info, [a, b]) == h && Run(info, [a, b, c]) == k
    requires h.emitted == g.emitted + [r] && r.error == NoFailure && k.accepted == h.accepted + [s]
    ensures SentAt(info, [a, b, c], 2, r) && AcceptedSince(info, [a, b, c], 2) == [s]
  {
    FirstTwo(a, b, c);
    SameRest(h.accepted, AcceptedSince(info, [a, b, c], 2), s);
  }

  lemma SameRest(before: seq<Submission>, since: seq<Submission>, s: Submission)
    requires before + since == before + [s]
    ensures since == [s]
  {
    assert |before + since| == |before| + |since|;
    assert since == (before + since)[|before|..] == (before + [s])[|before|..] == [s];
  }

  lemma ThirdsReading(m: Message)
    ensures ReadAt(ThirdsResponse(m, ThresholdReached, 3, {1, 2}), AfterThree(m).ledger).aggregation ==
      Some(Aggregation([3], [3], 6, 6))
  {
    OnlyThird();
  }

  /**
   * Two of three sign and a response is sent; the third signs before it is read. It then reads as
   * having the third as a non-signer, with a key that holds the third's key, and is not sound.
   */
  lemma ThirdSignatureSpoilsReading(m: Message)
    ensures var info, events := Thirds(), [Signs(m, 1), Signs(m, 2), Signs(m, 3)];
      var r := ThirdsResponse(m, ThresholdReached, 3, {1, 2});
      && SentAt(info, events, 2, r) && SoundResponse(info, r)
      && ReadAt(r, Run(info, events).ledger).aggregation == Some(Aggregation([3], [3], 6, 6))
      && !SoundResponse(info, ReadAt(r, Run(info, events).ledger))
  {
    var info, events := Thirds(), [Signs(m, 1), Signs(m, 2), Signs(m, 3)];
    var r := ThirdsResponse(m, ThresholdReached, 3, {1, 2});
    TwoThirdsSent(m);
    OnceThirds(m);
    ThirdsKeys(m);
    FirstTwo(Signs(m, 1), Signs(m, 2), Signs(m, 3));
    RunResponsesAreSound(info, events[..2], r);
    LaterReadingIsSoundIff(info, events, 2, r);
    ThreeSign(m);
    ThirdsReading(m);
  }

  lemma ThirdsKeys(m: Message)
    ensures Sound(Thirds()) && KeyPairs(Thirds()) && Registered(Thirds(), [Ballot(m, 3)])
    ensures KeysOn(Thirds(), [Ballot(m, 3)], Digest(m)) == 3
  {
    SmallSums();
    assert [Ballot(m, 3)][..0] == [];
  }

  lemma OnceThirds(m: Message)
    ensures Once(AcceptedIn(Thirds(), [Signs(m, 1), Signs(m, 2)]))
  {
    TwoSign(m);
  }

  lemma OnlyThird()
    ensures NonSigners(Thirds(), Aggregated(3, 3, 1, {1, 2})) == [3]
    ensures PubkeysG1(Thirds(), [3]) == [3]
  {
    assert Thirds().operators.Keys - {1, 2} == {3};
    SortedIsUnique([3], {3});
  }
}
