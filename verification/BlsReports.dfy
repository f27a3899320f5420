/**
 * What a goroutine accepts and when it reports, told from the events alone: which signatures are
 * genuine, who has backed which message by then, and what share of the stake that is.
 */
module BlsReports {
  import opened SortedIds
  import opened BlsTypes
  import opened BlsLedger
  import opened BlsGoroutine

  /** A registered operator's own signature on the message that it comes with. */
  ghost predicate Genuine(info: Info, e: Event) {
    && e.SignedMessage? && e.operator in info.operators
    && e.sig == Scale(info.hashToG1(Digest(e.message)), info.operators[e.operator].pubkeyG2)
  }

  // ---------------------------------------------------------------------------------------------
  // What is accepted

  /** Whether `e` is genuine and comes while its message is still being collected. */
  ghost predicate Counts(info: Info, phase: Phase, e: Event) {
    !phase.Stopped? && Genuine(info, e) && (phase.Reached? ==> e.message == phase.message)
  }

  lemma StepTakes(g: Goroutine, e: Event)
    requires WellFormed(g.info, g.ledger) && !g.phase.Stopped?
    ensures Step(g, e).accepted ==
      if Counts(g.info, g.phase, e) then g.accepted + [Submission(e.operator, Digest(e.message), e.sig)]
      else g.accepted
  {
  }

  /** In every run, an event adds its submission exactly if it counts. */
  lemma AcceptsExactly(info: Info, events: seq<Event>, e: Event)
    ensures AcceptedIn(info, events + [e]) ==
      if Counts(info, Run(info, events).phase, e) then
        AcceptedIn(info, events) + [Submission(e.operator, Digest(e.message), e.sig)]
      else
        AcceptedIn(info, events)
  {
    var g := Run(info, events);
    assert (events + [e])[..|events|] == events;
    if !g.phase.Stopped? {
      StepTakes(g, e);
    }
  }

  // ---------------------------------------------------------------------------------------------
  // Who backs a message

  /** The operators with a genuine signature on `m` among the events. */
  ghost function Backers(info: Info, events: seq<Event>, m: Message): (ids: set<OperatorId>)
    ensures ids <= info.operators.Keys
  {
    set e <- events | Genuine(info, e) && e.message == m :: e.operator
  }

  ghost function Signing(info: Info, events: seq<Event>): set<OperatorId> {
    set e <- events | Genuine(info, e) :: e.operator
  }

  /** No operator has two genuine signatures among the events. */
  ghost predicate SignsOnce(info: Info, events: seq<Event>) {
    forall i, j :: 0 <= i < j < |events| && Genuine(info, events[i]) && Genuine(info, events[j]) ==>
      events[i].operator != events[j].operator
  }

  /** No timer fires. */
  predicate Untimed(events: seq<Event>) {
    forall e <- events :: e.SignedMessage?
  }

  /** In every quorum, the backers of `m` have the percentage of the stake that is asked for. */
  ghost predicate Enough(info: Info, events: seq<Event>, m: Message) {
    forall q <- info.thresholds ::
      100 * info.StakeOf(Backers(info, events, m), q) >= info.thresholds[q] * Get(info.totalStake, q)
  }

  /** In every quorum, the backers of `m` have the whole stake. */
  ghost predicate Everything(info: Info, events: seq<Event>, m: Message) {
    forall q <- info.thresholds :: info.StakeOf(Backers(info, events, m), q) == Get(info.totalStake, q)
  }

  lemma BackersSnoc(info: Info, events: seq<Event>, e: Event, m: Message)
    ensures Backers(info, events + [e], m) ==
      Backers(info, events, m) + if Genuine(info, e) && e.message == m then {e.operator} else {}
  {
  }

  lemma SigningSnoc(info: Info, events: seq<Event>, e: Event)
    ensures Signing(info, events + [e]) == Signing(info, events) + if Genuine(info, e) then {e.operator} else {}
  {
  }

  lemma SignsOnceSnoc(info: Info, events: seq<Event>, e: Event)
    requires SignsOnce(info, events + [e]) && Genuine(info, e)
    ensures e.operator !in Signing(info, events)
  {
    forall x | x in events && Genuine(info, x) ensures x.operator != e.operator {
      var i :| 0 <= i < |events| && events[i] == x;
      assert (events + [e])[i] == x && (events + [e])[|events|] == e;
    }
  }

  lemma SignsOnceBefore(info: Info, events: seq<Event>, e: Event)
    requires SignsOnce(info, events + [e])
    ensures SignsOnce(info, events)
  {
    forall i, j | 0 <= i < j < |events| && Genuine(info, events[i]) && Genuine(info, events[j])
      ensures events[i].operator != events[j].operator
    {
      assert (events + [e])[i] == events[i] && (events + [e])[j] == events[j];
    }
  }

  // ---------------------------------------------------------------------------------------------
  // What the ledger then has

  /** The goroutine has accepted the genuine signatures, each operator's once. */
  ghost predicate HasTaken(info: Info, events: seq<Event>, accepted: seq<Submission>) {
    && Once(accepted) && OperatorsOf(accepted) == Signing(info, events)
    && forall m :: SignersOn(accepted, Digest(m)) == Backers(info, events, m)
  }

  lemma OnceSnoc(subs: seq<Submission>, s: Submission)
    requires Once(subs) && s.operator !in OperatorsOf(subs)
    ensures Once(subs + [s]) && OperatorsOf(subs + [s]) == OperatorsOf(subs) + {s.operator}
  {
    var all := subs + [s];
    forall i, j | 0 <= i < j < |all| ensures all[i].operator != all[j].operator {
      assert all[i] in subs;
      if j < |subs| {
        assert all[j] == subs[j];
      }
    }
  }

  lemma TakesGenuine(info: Info, events: seq<Event>, e: Event, accepted: seq<Submission>)
    requires HasTaken(info, events, accepted) && SignsOnce(info, events + [e]) && Genuine(info, e)
    ensures HasTaken(info, events + [e], accepted + [SubmissionOf(e)])
  {
    SignsOnceSnoc(info, events, e);
    SigningSnoc(info, events, e);
    OnceSnoc(accepted, SubmissionOf(e));
    forall m ensures SignersOn(accepted + [SubmissionOf(e)], Digest(m)) == Backers(info, events + [e], m) {
      BackersSnoc(info, events, e, m);
      SignersOnSnoc(accepted, SubmissionOf(e), Digest(m));
    }
  }

  lemma LeavesOther(info: Info, events: seq<Event>, e: Event, accepted: seq<Submission>)
    requires HasTaken(info, events, accepted) && !Genuine(info, e)
    ensures HasTaken(info, events + [e], accepted)
  {
    SigningSnoc(info, events, e);
    forall m ensures SignersOn(accepted, Digest(m)) == Backers(info, events + [e], m) {
      BackersSnoc(info, events, e, m);
    }
  }

  /** So the total of a message is the stake of its backers. */
  lemma TotalIsBacking(info: Info, events: seq<Event>, g: Goroutine, m: Message)
    requires LedgerInv(g) && g.info == info && HasTaken(info, events, g.accepted) && Digest(m) in g.ledger.digests
    ensures var a := g.ledger.digests[Digest(m)];
      && a.signers == Backers(info, events, m)
      && (ThresholdsMet(info, g.ledger.Total(Digest(m))) <==> Enough(info, events, m))
      && (FullStakeMet(info, g.ledger.Total(Digest(m))) <==> Everything(info, events, m))
  {
    var d := Digest(m);
    var total := g.ledger.Total(d);
    OnceIsAccurate(info, g.accepted);
    SignersAre(info, g.accepted, d);
    assert AccurateAt(info, g.ledger, d);
    assert forall q :: Get(total, q) == info.StakeOf(Backers(info, events, m), q);
    FullIffEverything(info, events, m, total);
  }

  lemma FullIffEverything(info: Info, events: seq<Event>, m: Message, total: Stakes)
    requires total.Keys == info.thresholds.Keys
    requires forall q {:trigger Get(total, q)} :: Get(total, q) == info.StakeOf(Backers(info, events, m), q)
    ensures FullStakeMet(info, total) <==> Everything(info, events, m)
  {
    forall q <- info.thresholds
      ensures total[q] == Get(info.totalStake, q) <==>
              info.StakeOf(Backers(info, events, m), q) == Get(info.totalStake, q)
    {
      assert Get(total, q) == total[q];
    }
  }

  // ---------------------------------------------------------------------------------------------
  // When the goroutine reports

  /** The goroutine has not reported, and has taken every genuine signature. */
  ghost predicate Collecting(info: Info, events: seq<Event>) {
    var g := Run(info, events);
    && g.phase == PreThreshold && HasTaken(info, events, g.accepted)
    && forall r <- g.emitted :: r.error == IndicesUnavailable
  }

  /** The signature that `events[k]` brings is genuine, and makes its message one to be reported. */
  ghost predicate Completes(info: Info, events: seq<Event>, k: nat) {
    && k < |events| && Genuine(info, events[k]) && events[k].indicesOk
    && Enough(info, events[..k + 1], events[k].message)
  }

  /** The response that reports `m` names the operators that have not backed it. */
  ghost predicate ReportsBacked(info: Info, events: seq<Event>, m: Message, r: Response) {
    && r.message == Some(m) && r.error == NoFailure && r.aggregation.Some?
    && r.status == (if Everything(info, events, m) then FullStakeThresholdMet else ThresholdReached)
    && (r.finished <==> Everything(info, events, m))
    && StrictlyAscending(r.aggregation.value.nonSigners)
    && Lists(r.aggregation.value.nonSigners, info.operators.Keys - Backers(info, events, m))
  }

  /** What a genuine signature does before the threshold. */
  ghost predicate Answers(info: Info, events: seq<Event>, e: Event, g: Goroutine, h: Goroutine)
    requires e.SignedMessage?
  {
    var m := e.message;
    if !e.indicesOk then
      && h.phase == PreThreshold
      && h.emitted == g.emitted + [Response(Some(m), NoStatus, false, IndicesUnavailable, None)]
    else if !Enough(info, events + [e], m) then
      h.phase == PreThreshold && h.emitted == g.emitted
    else
      && h.phase == (if Everything(info, events + [e], m) then Stopped else Reached(m))
      && |h.emitted| == |g.emitted| + 1 && h.emitted[..|g.emitted|] == g.emitted
      && ReportsBacked(info, events + [e], m, h.emitted[|g.emitted|])
  }

  /** An accepted signature is entered, and the response for its message is looked at. */
  lemma GenuineStep(g: Goroutine, e: Event)
    requires WellFormed(g.info, g.ledger) && g.phase == PreThreshold && Genuine(g.info, e)
    ensures CheckSignature(g.info, e) == NoError
    ensures var h := Accepted(g, e);
      && WellFormed(h.info, h.ledger) && Digest(e.message) in h.ledger.digests
      && Step(g, e) == Respond(h, e.message, ResponseFor(h.info, h.ledger, e.message, false, e.indicesOk))
  {
    AcceptKeepsWellFormed(g.info, g.ledger, SubmissionOf(e));
  }

  /** The response by what the backers have. */
  ghost predicate TellsBacking(info: Info, events: seq<Event>, m: Message, r: Response) {
    if Enough(info, events, m) then ReportsBacked(info, events, m, r) else r.status == ThresholdNotReached
  }

  lemma ResponseTellsBacking(info: Info, l: Ledger, events: seq<Event>, m: Message)
    requires WellFormed(info, l) && Digest(m) in l.digests
    requires l.digests[Digest(m)].signers == Backers(info, events, m)
    requires ThresholdsMet(info, l.Total(Digest(m))) <==> Enough(info, events, m)
    requires FullStakeMet(info, l.Total(Digest(m))) <==> Everything(info, events, m)
    requires Everything(info, events, m) ==> Enough(info, events, m)
    ensures TellsBacking(info, events, m, ResponseFor(info, l, m, false, true))
  {
  }

  lemma RespondAnswers(info: Info, events: seq<Event>, e: Event, h: Goroutine, r: Response)
    requires e.SignedMessage? && h.phase == PreThreshold
    requires !e.indicesOk ==> r == Response(Some(e.message), NoStatus, false, IndicesUnavailable, None)
    requires e.indicesOk ==> TellsBacking(info, events + [e], e.message, r)
    ensures Answers(info, events, e, h, Respond(h, e.message, r))
  {
  }

  lemma EverythingIsEnough(info: Info, events: seq<Event>, m: Message)
    requires Sound(info) && Everything(info, events, m)
    ensures Enough(info, events, m)
  {
    forall q <- info.thresholds
      ensures 100 * info.StakeOf(Backers(info, events, m), q) >= info.thresholds[q] * Get(info.totalStake, q)
    {
      MulMonotone(info.thresholds[q], 100, Get(info.totalStake, q));
    }
  }

  lemma GenuineAnswered(info: Info, events: seq<Event>, e: Event, g: Goroutine)
    requires LedgerInv(g) && g.info == info && g.phase == PreThreshold && HasTaken(info, events, g.accepted)
    requires SignsOnce(info, events + [e]) && Genuine(info, e)
    ensures HasTaken(info, events + [e], Step(g, e).accepted)
    ensures Answers(info, events, e, g, Step(g, e))
  {
    GenuineStep(g, e);
    var h := Accepted(g, e);
    AcceptedKeepsLedgerInv(g, e);
    TakesGenuine(info, events, e, g.accepted);
    TotalIsBacking(info, events + [e], h, e.message);
    if Everything(info, events + [e], e.message) {
      EverythingIsEnough(info, events + [e], e.message);
    }
    ResponseTellsBacking(info, h.ledger, events + [e], e.message);
    RespondAnswers(info, events, e, h, ResponseFor(info, h.ledger, e.message, false, e.indicesOk));
  }

  lemma KeepsCollecting(info: Info, events: seq<Event>, e: Event)
    requires Sound(info) && Collecting(info, events) && SignsOnce(info, events + [e]) && e.SignedMessage?
    requires !Completes(info, events + [e], |events|)
    ensures Collecting(info, events + [e])
  {
    var g := Run(info, events);
    assert (events + [e])[..|events|] == events && (events + [e])[..|events| + 1] == events + [e];
    RunNext(info, events, e, g, Step(g, e));
    if Genuine(info, e) {
      RunInv(info, events);
      GenuineAnswered(info, events, e, g);
    } else {
      LeavesOther(info, events, e, g.accepted);
    }
  }

  /** As long as no signature completes a message, the goroutine goes on collecting. */
  lemma {:induction false} CollectsUntilComplete(info: Info, events: seq<Event>)
    requires Sound(info) && SignsOnce(info, events) && Untimed(events)
    requires forall k :: 0 <= k < |events| ==> !Completes(info, events, k)
    ensures Collecting(info, events)
  {
    if events != [] {
      var front, e := events[..|events| - 1], events[|events| - 1];
      assert events == front + [e];
      SignsOnceBefore(info, front, e);
      forall k | 0 <= k < |front| ensures !Completes(info, front, k) {
        assert front[..k + 1] == events[..k + 1] && !Completes(info, events, k);
      }
      CollectsUntilComplete(info, front);
      KeepsCollecting(info, front, e);
    }
  }

  /** The last response reports `m`, and only failed fetches come before it. */
  ghost predicate FirstReport(info: Info, events: seq<Event>, m: Message, g: Goroutine) {
    && g.phase == (if Everything(info, events, m) then Stopped else Reached(m))
    && g.emitted != [] && ReportsBacked(info, events, m, g.emitted[|g.emitted| - 1])
    && forall i :: 0 <= i < |g.emitted| - 1 ==> g.emitted[i].error == IndicesUnavailable
  }

  lemma AnsweredFirst(info: Info, events: seq<Event>, e: Event, g: Goroutine, h: Goroutine)
    requires e.SignedMessage? && e.indicesOk && Enough(info, events + [e], e.message)
    requires Answers(info, events, e, g, h) && forall r <- g.emitted :: r.error == IndicesUnavailable
    ensures FirstReport(info, events + [e], e.message, h)
  {
    var n := |g.emitted|;
    forall i | 0 <= i < n ensures h.emitted[i].error == IndicesUnavailable {
      assert h.emitted[..n][i] == h.emitted[i] == g.emitted[i];
    }
  }

  lemma ReportsNow(info: Info, events: seq<Event>, e: Event)
    requires Sound(info) && Collecting(info, events) && SignsOnce(info, events + [e])
    requires Genuine(info, e) && e.indicesOk && Enough(info, events + [e], e.message)
    ensures FirstReport(info, events + [e], e.message, Run(info, events + [e]))
  {
    var g := Run(info, events);
    RunInv(info, events);
    GenuineAnswered(info, events, e, g);
    AnsweredFirst(info, events, e, g, Step(g, e));
    RunNext(info, events, e, g, Step(g, e));
  }

  /**
   * In every run in which no operator signs twice and no timer has fired, the first genuine signature
   * that gives its message the share asked for is answered with the report of that message, which is
   * the last one exactly if that share is everything; all responses before it are failed fetches.
   */
  lemma ReportsAtFirst(info: Info, events: seq<Event>, k: nat)
    requires Sound(info) && SignsOnce(info, events) && Untimed(events) && Completes(info, events, k)
    requires forall j :: 0 <= j < k ==> !Completes(info, events, j)
    ensures FirstReport(info, events[..k + 1], events[k].message, Run(info, events[..k + 1]))
  {
    var front, e := events[..k], events[k];
    assert events[..k + 1] == front + [e];
    CollectingBefore(info, events, k);
    SignsOncePrefix(info, events, k + 1);
    ReportsNow(info, front, e);
  }

  lemma SignsOncePrefix(info: Info, events: seq<Event>, n: nat)
    requires SignsOnce(info, events) && n <= |events|
    ensures SignsOnce(info, events[..n])
  {
  }

  lemma CollectingBefore(info: Info, events: seq<Event>, k: nat)
    requires Sound(info) && SignsOnce(info, events) && Untimed(events) && k <= |events|
    requires forall j :: 0 <= j < k ==> !Completes(info, events, j)
    ensures Collecting(info, events[..k])
  {
    SignsOncePrefix(info, events, k);
    forall j | 0 <= j < k ensures !Completes(info, events[..k], j) {
      assert events[..k][..j + 1] == events[..j + 1] && !Completes(info, events, j);
    }
    CollectsUntilComplete(info, events[..k]);
  }

  lemma {:induction false} StaysOut(info: Info, events: seq<Event>, n: nat)
    requires n <= |events| && Run(info, events[..n]).phase != PreThreshold
    ensures Run(info, events).phase != PreThreshold
    decreases |events|
  {
    if n == |events| {
      assert events[..n] == events;
    } else {
      var front := events[..|events| - 1];
      assert front[..n] == events[..n];
      StaysOut(info, front, n);
    }
  }

  lemma FirstComplete(info: Info, events: seq<Event>, k: nat) returns (first: nat)
    requires Completes(info, events, k)
    ensures Completes(info, events, first) && forall j :: 0 <= j < first ==> !Completes(info, events, j)
  {
    first := 0;
    while !Completes(info, events, first)
      invariant first <= k && forall j :: 0 <= j < first ==> !Completes(info, events, j)
      decreases k - first
    {
      first := first + 1;
    }
  }

  lemma LeftAtFirst(info: Info, events: seq<Event>, k: nat)
    requires Sound(info) && SignsOnce(info, events) && Untimed(events) && Completes(info, events, k)
    requires forall j :: 0 <= j < k ==> !Completes(info, events, j)
    ensures Run(info, events[..k + 1]).phase != PreThreshold
  {
    ReportsAtFirst(info, events, k);
  }

  lemma CompleteIsReported(info: Info, events: seq<Event>, k: nat)
    requires Sound(info) && SignsOnce(info, events) && Untimed(events) && Completes(info, events, k)
    ensures Run(info, events).phase != PreThreshold
  {
    var first := FirstComplete(info, events, k);
    assert first < |events|;
    LeftAtFirst(info, events, first);
    StaysOut(info, events, first + 1);
  }

  /** So it has left the first phase exactly if some signature has completed its message. */
  lemma ReportedIff(info: Info, events: seq<Event>)
    requires Sound(info) && SignsOnce(info, events) && Untimed(events)
    ensures Run(info, events).phase != PreThreshold <==> exists k: nat :: Completes(info, events, k)
  {
    if k: nat :| Completes(info, events, k) {
      CompleteIsReported(info, events, k);
    } else {
      CollectsUntilComplete(info, events);
    }
  }

  // ---------------------------------------------------------------------------------------------
  // After the threshold, and the timers

  lemma FullOnQuorums(info: Info, total: Stakes)
    requires total.Keys == info.thresholds.Keys
    ensures FullStakeMet(info, total) <==>
      forall q <- info.thresholds :: Get(total, q) == Get(info.totalStake, q)
  {
    assert forall q <- info.thresholds :: Get(total, q) == total[q];
  }

  /** What a genuine signature on the message gets after the threshold, by the total it leads to. */
  ghost predicate AnswersReached(info: Info, e: Event, total: Stakes, g: Goroutine, h: Goroutine)
    requires e.SignedMessage?
  {
    var full := forall q <- info.thresholds :: Get(total, q) == Get(info.totalStake, q);
    && |h.emitted| == |g.emitted| + 1 && h.emitted[..|g.emitted|] == g.emitted
    && h.phase == (if full && e.indicesOk then Stopped else g.phase)
    && var r := h.emitted[|g.emitted|];
    && r.message == Some(e.message) && (r.finished <==> full && e.indicesOk)
    && r.error == (if e.indicesOk then NoFailure else IndicesUnavailable)
    && r.status == (if !e.indicesOk then NoStatus else if full then FullStakeThresholdMet else ThresholdReached)
  }

  lemma ReachedStep(g: Goroutine, e: Event)
    requires WellFormed(g.info, g.ledger) && g.phase.Reached? && Genuine(g.info, e) && e.message == g.phase.message
    ensures CheckSignature(g.info, e) == NoError
    ensures var h := Accepted(g, e);
      && WellFormed(h.info, h.ledger) && Digest(e.message) in h.ledger.digests
      && var r := ResponseFor(h.info, h.ledger, e.message, false, e.indicesOk);
         Step(g, e) == Emit(h, r, if r.status == FullStakeThresholdMet then Stopped else g.phase)
  {
    AcceptKeepsWellFormed(g.info, g.ledger, SubmissionOf(e));
  }

  lemma EmitAnswers(h: Goroutine, e: Event)
    requires WellFormed(h.info, h.ledger) && e.SignedMessage? && Digest(e.message) in h.ledger.digests
    requires h.ledger.Total(Digest(e.message)).Keys == h.info.thresholds.Keys
    requires ThresholdsMet(h.info, h.ledger.Total(Digest(e.message)))
    ensures var r := ResponseFor(h.info, h.ledger, e.message, false, e.indicesOk);
      AnswersReached(h.info, e, h.ledger.Total(Digest(e.message)), h,
        Emit(h, r, if r.status == FullStakeThresholdMet then Stopped else h.phase))
  {
    FullOnQuorums(h.info, h.ledger.Total(Digest(e.message)));
  }

  /**
   * Once the threshold is reached for a message, each genuine signature on it is answered: as the
   * thresholds stay met, by the report of the message unless the fetch fails, and by the last one
   * exactly if the total has become everything.
   */
  lemma ReachedAnswers(g: Goroutine, e: Event)
    requires Inv(g) && g.phase.Reached? && Genuine(g.info, e) && e.message == g.phase.message
    ensures CheckSignature(g.info, e) == NoError && WellFormed(g.info, Accepted(g, e).ledger)
    ensures Digest(e.message) in Accepted(g, e).ledger.digests
    ensures AnswersReached(g.info, e, Accepted(g, e).ledger.Total(Digest(e.message)), g, Step(g, e))
  {
    ReachedStep(g, e);
    AcceptedKeepsReportable(g, e, Digest(e.message));
    EmitAnswers(Accepted(g, e), e);
  }

  /** Whatever else arrives, a signature that does not count changes nothing. */
  lemma OtherIgnored(g: Goroutine, e: Event)
    requires WellFormed(g.info, g.ledger) && !g.phase.Stopped? && e.SignedMessage?
    requires !Counts(g.info, g.phase, e)
    ensures Step(g, e) == g
  {
  }

  /**
   * A timer ends the goroutine with one finished response: the expiry before the threshold; after it
   * the report of the message that reached it, or the error if the fetch fails.
   */
  lemma TimerAnswers(g: Goroutine, ok: bool)
    requires Inv(g) && !g.phase.Stopped?
    ensures var h := Step(g, Timer(ok));
      && h.phase == Stopped && h.accepted == g.accepted && h.ledger == g.ledger
      && |h.emitted| == |g.emitted| + 1 && h.emitted[..|g.emitted|] == g.emitted
      && var r := h.emitted[|g.emitted|];
      && r.finished
      && (g.phase == PreThreshold ==> r.message == None && r.error == MessageExpired)
      && (g.phase.Reached? ==>
          && r.message == Some(g.phase.message)
          && r.error == if ok then NoFailure else IndicesUnavailable)
  {
  }
}
