/**
 * One message's aggregation goroutine as a step function over what it receives: signed messages
 * and the timer of its current phase. Fetching the registry indices may fail at any step.
 */
module BlsGoroutine {
  import opened Sums
  import opened SortedIds
  import opened BlsTypes
  import opened BlsLedger

  datatype Option<T> = None | Some(value: T)

  datatype Status = NoStatus | FullStakeThresholdMet | ThresholdNotReached | ThresholdReached

  datatype ResponseError = NoFailure | MessageExpired | MessageNotFound | IndicesUnavailable

  datatype Aggregation = Aggregation(
    nonSigners: seq<OperatorId>, nonSignersPubkeysG1: seq<Point>, signersApkG2: Point, signersAggSigG1: Point)

  datatype Response = Response(
    message: Option<Message>, status: Status, finished: bool, error: ResponseError, aggregation: Option<Aggregation>)

  // ---------------------------------------------------------------------------------------------
  // Status and response

  /** Whether every quorum in the signers' record has its whole stake. */
  predicate FullStakeMet(info: Info, signed: Stakes) {
    forall q <- signed :: signed[q] == Get(info.totalStake, q)
  }

  function StatusOf(info: Info, signed: Stakes): (r: Status) {
    if FullStakeMet(info, signed) then FullStakeThresholdMet
    else if ThresholdsMet(info, signed) then ThresholdReached
    else ThresholdNotReached
  }

  ghost function NonSigners(info: Info, a: Aggregated): (ids: seq<OperatorId>) {
    Sorted(info.operators.Keys - a.signers)
  }

  ghost function PubkeysG1(info: Info, ids: seq<OperatorId>): (ps: seq<Point>)
    requires forall o <- ids :: o in info.operators
  {
    seq<Point>(|ids|, i requires 0 <= i < |ids| => info.operators[ids[i]].pubkeyG1)
  }

  ghost function AggregationOf(info: Info, a: Aggregated): Aggregation {
    var ids := NonSigners(info, a);
    Aggregation(ids, PubkeysG1(info, ids), a.apkG2, a.sig)
  }

  /** The response for `m`; `forced` marks the one sent when the second timer fires. */
  ghost function ResponseFor(info: Info, l: Ledger, m: Message, forced: bool, indicesOk: bool): (r: Response)
    requires WellFormed(info, l)
  {
    if Digest(m) !in l.digests then
      Response(Some(m), NoStatus, forced, MessageNotFound, None)
    else if !indicesOk then
      Response(Some(m), NoStatus, forced, IndicesUnavailable, None)
    else
      var status := StatusOf(info, l.Total(Digest(m)));
      Response(Some(m), status, status == FullStakeThresholdMet || forced, NoFailure,
        Some(AggregationOf(info, l.digests[Digest(m)])))
  }

  const EXPIRY: Response := Response(None, NoStatus, true, MessageExpired, None)

  // ---------------------------------------------------------------------------------------------
  // Steps

  datatype Phase = PreThreshold | Reached(message: Message) | Stopped

  datatype Event =
    | SignedMessage(message: Message, operator: OperatorId, sig: Point, indicesOk: bool)
    | Timer(indicesOk: bool)

  /** `accepted` lists the submissions behind `ledger`, and `emitted` the responses sent so far. */
  datatype Goroutine = Goroutine(
    info: Info, ledger: Ledger, phase: Phase, accepted: seq<Submission>, emitted: seq<Response>)

  function Start(info: Info): (g: Goroutine) {
    Goroutine(info, InitialLedger(info), PreThreshold, [], [])
  }

  /** What the signer is told about its signature. */
  function CheckSignature(info: Info, e: Event): (r: SubmitError)
    requires e.SignedMessage?
  {
    if e.operator !in info.operators then OperatorNotInQuorum
    else if !Verifies(info, e.sig, info.operators[e.operator].pubkeyG2, Digest(e.message)) then IncorrectSignature
    else NoError
  }

  function SubmissionOf(e: Event): Submission
    requires e.SignedMessage?
  {
    Submission(e.operator, Digest(e.message), e.sig)
  }

  ghost function Accepted(g: Goroutine, e: Event): (r: Goroutine)
    requires WellFormed(g.info, g.ledger)
    requires e.SignedMessage? && CheckSignature(g.info, e) == NoError
  {
    g.(ledger := Accept(g.info, g.ledger, SubmissionOf(e)), accepted := g.accepted + [SubmissionOf(e)])
  }

  ghost function Emit(g: Goroutine, r: Response, next: Phase): Goroutine {
    g.(emitted := g.emitted + [r], phase := next)
  }

  /** What becomes of the response for `m` before the threshold; it is not sent below it. */
  ghost function Respond(g: Goroutine, m: Message, resp: Response): Goroutine {
    match resp.status
    case ThresholdNotReached => g
    case ThresholdReached => Emit(g, resp, Reached(m))
    case FullStakeThresholdMet => Emit(g, resp, Stopped)
    case NoStatus => Emit(g, resp, PreThreshold)
  }

  ghost function StepPreThreshold(g: Goroutine, e: Event): (r: Goroutine)
    requires WellFormed(g.info, g.ledger) && g.phase == PreThreshold
  {
    if e.Timer? then Emit(g, EXPIRY, Stopped)
    else if CheckSignature(g.info, e) != NoError then g
    else
      AcceptKeepsWellFormed(g.info, g.ledger, SubmissionOf(e));
      var h := Accepted(g, e);
      Respond(h, e.message, ResponseFor(h.info, h.ledger, e.message, false, e.indicesOk))
  }

  ghost function StepReached(g: Goroutine, e: Event): (r: Goroutine)
    requires WellFormed(g.info, g.ledger) && g.phase.Reached?
  {
    if e.Timer? then Emit(g, ResponseFor(g.info, g.ledger, g.phase.message, true, e.indicesOk), Stopped)
    else if Digest(e.message) != Digest(g.phase.message) then g
    else if CheckSignature(g.info, e) != NoError then g
    else
      var h := Accepted(g, e);
      AcceptKeepsWellFormed(g.info, g.ledger, SubmissionOf(e));
      var resp := ResponseFor(h.info, h.ledger, e.message, false, e.indicesOk);
      Emit(h, resp, if resp.status == FullStakeThresholdMet then Stopped else g.phase)
  }

  /** One received event. A stopped goroutine receives nothing. */
  ghost function Step(g: Goroutine, e: Event): (r: Goroutine)
    requires WellFormed(g.info, g.ledger) && !g.phase.Stopped?
  {
    if g.phase == PreThreshold then StepPreThreshold(g, e) else StepReached(g, e)
  }

  lemma AcceptKeepsWellFormed(info: Info, l: Ledger, s: Submission)
    requires WellFormed(info, l) && s.operator in info.operators
    ensures WellFormed(info, Accept(info, l, s))
  {
  }

  // ---------------------------------------------------------------------------------------------
  // What every step keeps

  /** Thresholds are percentages, and the registry's data covers the quorums of the message. */
  ghost predicate Sound(info: Info) {
    info.Valid() && forall q <- info.thresholds :: info.thresholds[q] <= 100
  }

  /** Every record covers exactly the quorums of the message. */
  ghost predicate Covered(info: Info, l: Ledger) {
    forall o {:trigger l.stakes[o]} :: o in l.stakes ==> l.stakes[o].Keys == info.thresholds.Keys
  }

  ghost predicate LedgerInv(g: Goroutine) {
    && Sound(g.info)
    && Consistent(g.info, g.ledger) && Covered(g.info, g.ledger) && Signed(g.info, g.ledger)
    && Registered(g.info, g.accepted) && g.ledger == AcceptAll(g.info, g.accepted)
  }

  /** `r` reports digest `d` without error. */
  predicate Reports(r: Response, d: Digest) {
    r.error == NoFailure && r.message.Some? && Digest(r.message.value) == d
  }

  ghost predicate Reportable(g: Goroutine, d: Digest)
    requires WellFormed(g.info, g.ledger)
  {
    d in g.ledger.digests && ThresholdsMet(g.info, g.ledger.Total(d))
  }

  /** Responses without error are for one digest, and its total meets the thresholds. */
  ghost predicate ReportsOnly(g: Goroutine, d: Digest)
    requires WellFormed(g.info, g.ledger)
  {
    Reportable(g, d) && forall r <- g.emitted :: r.error == NoFailure ==> Reports(r, d)
  }

  ghost predicate PhaseInv(g: Goroutine)
    requires WellFormed(g.info, g.ledger)
  {
    && (forall i :: 0 <= i < |g.emitted| ==> (g.emitted[i].finished <==> g.phase.Stopped? && i == |g.emitted| - 1))
    && (g.phase.Stopped? ==> g.emitted != [])
    && (g.phase == PreThreshold ==> forall r <- g.emitted :: r.error != NoFailure)
    && (g.phase.Reached? ==> ReportsOnly(g, Digest(g.phase.message)))
    && (g.phase.Stopped? ==> (forall r <- g.emitted :: r.error != NoFailure) || exists d :: ReportsOnly(g, d))
  }

  ghost predicate Inv(g: Goroutine) {
    LedgerInv(g) && PhaseInv(g)
  }

  lemma StartInv(info: Info)
    requires Sound(info)
    ensures Inv(Start(info))
  {
    InitialIsAccurate(info);
  }

  lemma AcceptedKeepsLedgerInv(g: Goroutine, e: Event)
    requires LedgerInv(g) && e.SignedMessage? && CheckSignature(g.info, e) == NoError
    ensures LedgerInv(Accepted(g, e))
  {
    var s := SubmissionOf(e);
    AcceptKeepsConsistent(g.info, g.ledger, s);
    AcceptKeepsCovered(g.info, g.ledger, s);
    AcceptKeepsSigned(g.info, g.ledger, s);
    AcceptOneMore(g.info, g.accepted, s);
  }

  lemma AcceptKeepsCovered(info: Info, l: Ledger, s: Submission)
    requires WellFormed(info, l) && Covered(info, l) && s.operator in info.operators
    ensures Covered(info, Accept(info, l, s))
  {
  }

  lemma AcceptOneMore(info: Info, subs: seq<Submission>, s: Submission)
    requires Registered(info, subs) && s.operator in info.operators
    ensures Registered(info, subs + [s]) && AcceptAll(info, subs + [s]) == Accept(info, AcceptAll(info, subs), s)
  {
    assert (subs + [s])[..|subs|] == subs;
  }

  lemma FullStakeMeetsThresholds(info: Info, signed: Stakes)
    requires Sound(info) && signed.Keys == info.thresholds.Keys && FullStakeMet(info, signed)
    ensures ThresholdsMet(info, signed)
  {
    forall q <- info.thresholds ensures 100 * Get(signed, q) >= info.thresholds[q] * Get(info.totalStake, q) {
      assert signed[q] == Get(info.totalStake, q);
      MulMonotone(info.thresholds[q], 100, signed[q]);
    }
  }

  lemma MulMonotone(a: nat, b: nat, c: nat)
    requires a <= b
    ensures a * c <= b * c
  {
  }

  /** Once a digest may be reported, it may be reported for ever. */
  lemma AcceptedKeepsReportable(g: Goroutine, e: Event, d: Digest)
    requires LedgerInv(g) && e.SignedMessage? && CheckSignature(g.info, e) == NoError
    requires Reportable(g, d)
    ensures LedgerInv(Accepted(g, e)) && Reportable(Accepted(g, e), d)
  {
    AcceptedKeepsLedgerInv(g, e);
    forall q <- g.info.thresholds {
      AcceptIsMonotone(g.info, g.ledger, SubmissionOf(e), d, q);
    }
  }

  lemma ReportedIsReportable(g: Goroutine, m: Message, forced: bool, ok: bool)
    requires LedgerInv(g)
    ensures var r := ResponseFor(g.info, g.ledger, m, forced, ok);
      r.error == NoFailure && r.status != ThresholdNotReached ==> Reportable(g, Digest(m))
  {
    if Digest(m) in g.ledger.digests && FullStakeMet(g.info, g.ledger.Total(Digest(m))) {
      FullStakeMeetsThresholds(g.info, g.ledger.Total(Digest(m)));
    }
  }

  /** The responses so far: none is the last, and those without error are for `d`. */
  ghost predicate Reporting(g: Goroutine, d: Digest) {
    forall r <- g.emitted :: !r.finished && (r.error == NoFailure ==> Reports(r, d))
  }

  /** Sending one more response, for a digest that may be reported if it carries no error. */
  lemma EmitKeepsInv(g: Goroutine, r: Response, next: Phase, d: Digest)
    requires LedgerInv(g) && Reporting(g, d)
    requires r.finished <==> next.Stopped?
    requires r.error == NoFailure ==> Reports(r, d) && Reportable(g, d)
    requires (exists x <- g.emitted :: x.error == NoFailure) ==> Reportable(g, d)
    requires next == PreThreshold ==> r.error != NoFailure && forall x <- g.emitted :: x.error != NoFailure
    requires next.Reached? ==> Digest(next.message) == d && Reportable(g, d)
    ensures Inv(Emit(g, r, next))
  {
    var h := Emit(g, r, next);
    assert forall x <- h.emitted :: x in g.emitted || x == r;
    assert forall i :: 0 <= i < |g.emitted| ==> h.emitted[i] == g.emitted[i];
    if Reportable(g, d) {
      assert ReportsOnly(h, d);
    }
  }

  /** The first response without error, or one more with an error before it. */
  lemma FirstKeepsInv(g: Goroutine, r: Response, next: Phase, d: Digest)
    requires LedgerInv(g) && forall x <- g.emitted :: !x.finished && x.error != NoFailure
    requires r.finished <==> next.Stopped?
    requires r.error == NoFailure ==> Reports(r, d) && Reportable(g, d)
    requires next == PreThreshold ==> r.error != NoFailure
    requires next.Reached? ==> Digest(next.message) == d && Reportable(g, d)
    ensures Inv(Emit(g, r, next))
  {
    EmitKeepsInv(g, r, next, d);
  }

  lemma RespondKeepsInv(g: Goroutine, m: Message, r: Response)
    requires LedgerInv(g) && g.phase == PreThreshold
    requires forall x <- g.emitted :: !x.finished && x.error != NoFailure
    requires r.message == Some(m) && (r.error == NoFailure <==> r.status != NoStatus)
    requires r.finished <==> r.status == FullStakeThresholdMet
    requires r.error == NoFailure && r.status != ThresholdNotReached ==> Reportable(g, Digest(m))
    ensures Inv(Respond(g, m, r))
  {
    if r.status != ThresholdNotReached {
      FirstKeepsInv(g, r, Respond(g, m, r).phase, Digest(m));
    }
  }

  lemma PreThresholdAcceptKeepsInv(g: Goroutine, e: Event)
    requires Inv(g) && g.phase == PreThreshold && e.SignedMessage? && CheckSignature(g.info, e) == NoError
    ensures Inv(Step(g, e))
  {
    AcceptedKeepsLedgerInv(g, e);
    var h := Accepted(g, e);
    ReportedIsReportable(h, e.message, false, e.indicesOk);
    RespondKeepsInv(h, e.message, ResponseFor(h.info, h.ledger, e.message, false, e.indicesOk));
  }

  lemma StepPreThresholdKeepsInv(g: Goroutine, e: Event)
    requires Inv(g) && g.phase == PreThreshold
    ensures Inv(Step(g, e))
  {
    if e.Timer? {
      EmitKeepsInv(g, EXPIRY, Stopped, Digest(Message(0, 0, 0)));
    } else if CheckSignature(g.info, e) == NoError {
      PreThresholdAcceptKeepsInv(g, e);
    }
  }

  lemma StepReachedKeepsInv(g: Goroutine, e: Event)
    requires Inv(g) && g.phase.Reached?
    ensures Inv(Step(g, e))
  {
    if e.Timer? {
      EmitKeepsInv(g, ResponseFor(g.info, g.ledger, g.phase.message, true, e.indicesOk), Stopped,
        Digest(g.phase.message));
    } else if Digest(e.message) == Digest(g.phase.message) && CheckSignature(g.info, e) == NoError {
      ReachedAcceptKeepsInv(g, e);
    }
  }

  lemma ReachedAcceptKeepsInv(g: Goroutine, e: Event)
    requires Inv(g) && g.phase.Reached? && e.SignedMessage? && CheckSignature(g.info, e) == NoError
    requires Digest(e.message) == Digest(g.phase.message)
    ensures Inv(Step(g, e))
  {
    var h := Accepted(g, e);
    AcceptedKeepsReportable(g, e, Digest(e.message));
    var r := ResponseFor(h.info, h.ledger, e.message, false, e.indicesOk);
    EmitKeepsInv(h, r, if r.status == FullStakeThresholdMet then Stopped else g.phase, Digest(e.message));
  }

  lemma StepKeepsInv(g: Goroutine, e: Event)
    requires Inv(g) && !g.phase.Stopped?
    ensures Inv(Step(g, e))
  {
    if g.phase == PreThreshold {
      StepPreThresholdKeepsInv(g, e);
    } else {
      StepReachedKeepsInv(g, e);
    }
  }

  lemma StepKeepsWellFormed(g: Goroutine, e: Event)
    requires WellFormed(g.info, g.ledger) && !g.phase.Stopped?
    ensures WellFormed(Step(g, e).info, Step(g, e).ledger) && Step(g, e).info == g.info
  {
    if e.SignedMessage? && CheckSignature(g.info, e) == NoError {
      AcceptKeepsWellFormed(g.info, g.ledger, SubmissionOf(e));
    }
  }

  /** What the goroutine makes of `events`; once stopped it receives no more. */
  ghost function Run(info: Info, events: seq<Event>): (g: Goroutine)
    ensures WellFormed(g.info, g.ledger) && g.info == info
  {
    if events == [] then Start(info)
    else
      var g, e := Run(info, events[..|events| - 1]), events[|events| - 1];
      if g.phase.Stopped? then g
      else
        StepKeepsWellFormed(g, e);
        Step(g, e)
  }

  /** Whatever the goroutine has done, the next event is its next step. */
  lemma RunNext(info: Info, events: seq<Event>, e: Event, g: Goroutine, h: Goroutine)
    requires Run(info, events) == g && !g.phase.Stopped? && Step(g, e) == h
    ensures Run(info, events + [e]) == h
  {
    assert (events + [e])[..|events|] == events;
  }

  lemma {:induction false} RunInv(info: Info, events: seq<Event>)
    requires Sound(info)
    ensures Inv(Run(info, events))
  {
    if events == [] {
      StartInv(info);
    } else {
      var g := Run(info, events[..|events| - 1]);
      RunInv(info, events[..|events| - 1]);
      if !g.phase.Stopped? {
        StepKeepsInv(g, events[|events| - 1]);
      }
    }
  }

  /** All responses without error are for one message, whose total meets every threshold. */
  lemma RunReportsOneMessage(info: Info, events: seq<Event>, r: Response, s: Response)
    requires Sound(info)
    requires r in Run(info, events).emitted && s in Run(info, events).emitted
    requires r.error == NoFailure && s.error == NoFailure
    ensures r.message.Some? && s.message == r.message
    ensures var l := Run(info, events).ledger;
      Digest(r.message.value) in l.digests && ThresholdsMet(info, l.Total(Digest(r.message.value)))
  {
    RunInv(info, events);
    var g := Run(info, events);
    if g.phase.Stopped? {
      var d :| ReportsOnly(g, d);
    }
  }

  /** A run ends with its one finished response: it is sent exactly when the goroutine stops. */
  lemma RunFinishesOnce(info: Info, events: seq<Event>)
    requires Sound(info)
    ensures var g := Run(info, events);
      && (g.phase.Stopped? ==> g.emitted != [])
      && forall i :: 0 <= i < |g.emitted| ==> (g.emitted[i].finished <==> g.phase.Stopped? && i == |g.emitted| - 1)
  {
    RunInv(info, events);
  }

  // ---------------------------------------------------------------------------------------------
  // What a run accepts

  lemma StepAccepts(g: Goroutine, e: Event)
    requires WellFormed(g.info, g.ledger) && !g.phase.Stopped?
    ensures var now := Step(g, e).accepted;
      now == g.accepted || (e.SignedMessage? && now == g.accepted + [SubmissionOf(e)])
  {
  }

  lemma {:induction false} RunAccepts(info: Info, events: seq<Event>)
    ensures var g := Run(info, events);
      Registered(info, g.accepted) && g.ledger == AcceptAll(info, g.accepted)
  {
    if events != [] {
      var g, e := Run(info, events[..|events| - 1]), events[|events| - 1];
      RunAccepts(info, events[..|events| - 1]);
      if !g.phase.Stopped? {
        StepLedger(g, e);
      }
    }
  }

  lemma StepLedger(g: Goroutine, e: Event)
    requires WellFormed(g.info, g.ledger) && !g.phase.Stopped?
    requires Registered(g.info, g.accepted) && g.ledger == AcceptAll(g.info, g.accepted)
    ensures var h := Step(g, e);
      Registered(g.info, h.accepted) && h.ledger == AcceptAll(g.info, h.accepted)
  {
    StepEnters(g, e);
    if Step(g, e).accepted != g.accepted {
      AcceptOneMore(g.info, g.accepted, SubmissionOf(e));
    }
  }

  /** Ledger and accepted submissions change together. */
  lemma StepEnters(g: Goroutine, e: Event)
    requires WellFormed(g.info, g.ledger) && !g.phase.Stopped?
    ensures var h := Step(g, e);
      || (h.accepted == g.accepted && h.ledger == g.ledger)
      || (&& e.SignedMessage? && e.operator in g.info.operators && h.accepted == g.accepted + [SubmissionOf(e)]
          && h.ledger == Accept(g.info, g.ledger, SubmissionOf(e)))
  {
  }

  /** The submissions that the goroutine has accepted, which are all its ledger is made of. */
  ghost function AcceptedIn(info: Info, events: seq<Event>): (subs: seq<Submission>)
    ensures Registered(info, subs) && Run(info, events).ledger == AcceptAll(info, subs)
  {
    RunAccepts(info, events);
    Run(info, events).accepted
  }

  /** Later events only add to what was accepted. */
  lemma {:induction false} AcceptedGrows(info: Info, events: seq<Event>, n: nat)
    requires n <= |events|
    ensures AcceptedIn(info, events[..n]) <= AcceptedIn(info, events)
    decreases |events|
  {
    if n == |events| {
      assert events[..n] == events;
    } else {
      var front := events[..|events| - 1];
      AcceptedGrows(info, front, n);
      assert front[..n] == events[..n];
      if !Run(info, front).phase.Stopped? {
        StepAccepts(Run(info, front), events[|events| - 1]);
      }
    }
  }

  // ---------------------------------------------------------------------------------------------
  // Soundness of a response

  /** The sum of a list of points, as a verifier adds them up. */
  function SumPoints(ps: seq<Point>): Point {
    if ps == [] then 0 else Plus(SumPoints(ps[..|ps| - 1]), ps[|ps| - 1])
  }

  lemma {:induction false} SumOfListed(info: Info, ids: seq<OperatorId>, s: set<OperatorId>)
    requires StrictlyAscending(ids) && Lists(ids, s) && s <= info.operators.Keys
    ensures SumPoints(PubkeysG1(info, ids)) == Reduce(Sum(s, info.KeysG1()))
    decreases |ids|
  {
    if ids == [] {
      assert s == {};
    } else {
      var front, o := ids[..|ids| - 1], ids[|ids| - 1];
      ListsFront(ids, s);
      SumOfListed(info, front, s - {o});
      assert PubkeysG1(info, ids) == PubkeysG1(info, front) + [info.operators[o].pubkeyG1];
      SumPointsAppend(PubkeysG1(info, front), info.operators[o].pubkeyG1);
      ReduceInsert(info, s, o);
    }
  }

  lemma ReduceInsert(info: Info, s: set<OperatorId>, o: OperatorId)
    requires o in s && s <= info.operators.Keys
    ensures Plus(Reduce(Sum(s - {o}, info.KeysG1())), info.operators[o].pubkeyG1) == Reduce(Sum(s, info.KeysG1()))
  {
    var n := Sum(s - {o}, info.KeysG1());
    assert Sum(s, info.KeysG1()) == n + info.operators[o].pubkeyG1 by { SumRemove(s, info.KeysG1(), o); }
    ReduceAppend(n, info.operators[o].pubkeyG1);
  }

  lemma SumPointsAppend(ps: seq<Point>, p: Point)
    ensures SumPoints(ps + [p]) == Plus(SumPoints(ps), p)
  {
    assert (ps + [p])[..|ps|] == ps;
  }

  lemma ReduceAppend(n: int, p: Point)
    ensures Plus(Reduce(n), p) == Reduce(n + p)
  {
    assert Reduce(p) == p;
    ReduceAdds(n, p);
  }

  /** Each operator's two keys belong to one secret. */
  ghost predicate KeyPairs(info: Info) {
    forall o <- info.operators :: info.operators[o].pubkeyG1 == info.operators[o].pubkeyG2
  }

  /**
   * The aggregation names exactly the operators other than `signers`, in ascending order; their
   * keys and the signers' aggregate key add up to the key of all operators; the aggregate signature
   * on `m` verifies under the signers' key; and the signers have the stake asked for.
   */
  ghost predicate SignedBy(info: Info, m: Message, a: Aggregation, signers: set<OperatorId>) {
    && signers <= info.operators.Keys
    && StrictlyAscending(a.nonSigners) && Lists(a.nonSigners, info.operators.Keys - signers)
    && a.nonSignersPubkeysG1 == PubkeysG1(info, a.nonSigners)
    && Plus(SumPoints(a.nonSignersPubkeysG1), a.signersApkG2) == Reduce(Sum(info.operators.Keys, info.KeysG1()))
    && Verifies(info, a.signersAggSigG1, a.signersApkG2, Digest(m))
    && HasShare(info, signers)
  }

  ghost predicate SoundResponse(info: Info, r: Response) {
    r.error == NoFailure ==>
      && r.message.Some? && r.aggregation.Some?
      && exists signers :: SignedBy(info, r.message.value, r.aggregation.value, signers)
  }

  /** The key that `signers` have together. */
  ghost function KeyOf(info: Info, signers: set<OperatorId>): Point
    requires signers <= info.operators.Keys
  {
    Reduce(Sum(signers, info.KeysG2()))
  }

  ghost function AggregationWith(info: Info, signers: set<OperatorId>, key: Point, sig: Point): Aggregation {
    var ids := Sorted(info.operators.Keys - signers);
    Aggregation(ids, PubkeysG1(info, ids), key, sig)
  }

  lemma KeysAddUp(info: Info, signers: set<OperatorId>)
    requires KeyPairs(info) && signers <= info.operators.Keys
    ensures var others := Sorted(info.operators.Keys - signers);
      Plus(SumPoints(PubkeysG1(info, others)), Reduce(Sum(signers, info.KeysG2()))) ==
        Reduce(Sum(info.operators.Keys, info.KeysG1()))
  {
    var others := info.operators.Keys - signers;
    SumOfListed(info, Sorted(others), others);
    KeysSplit(info, signers);
    PlusReduced(Sum(others, info.KeysG1()), Sum(signers, info.KeysG2()), Sum(info.operators.Keys, info.KeysG1()));
  }

  lemma PlusReduced(m: int, n: int, sum: int)
    requires sum == m + n
    ensures Plus(Reduce(m), Reduce(n)) == Reduce(sum)
  {
    ReduceAdds(m, n);
  }

  lemma KeysSplit(info: Info, signers: set<OperatorId>)
    requires KeyPairs(info) && signers <= info.operators.Keys
    ensures Sum(info.operators.Keys, info.KeysG1()) ==
            Sum(info.operators.Keys - signers, info.KeysG1()) + Sum(signers, info.KeysG2())
  {
    SumPart(info.operators.Keys, signers, info.KeysG1());
    SumCongruent(signers, info.KeysG1(), info.KeysG2());
  }

  /**
   * An aggregation that leaves out `signers`, with a key and a signature that fit each other, is sound
   * exactly if the key is theirs and they have the stake asked for.
   */
  lemma SignedIff(info: Info, m: Message, signers: set<OperatorId>, key: Point, sig: Point)
    requires KeyPairs(info) && signers <= info.operators.Keys && Verifies(info, sig, key, Digest(m))
    ensures (exists who :: SignedBy(info, m, AggregationWith(info, signers, key, sig), who)) <==>
      key == KeyOf(info, signers) && HasShare(info, signers)
  {
    var a, all := AggregationWith(info, signers, key, sig), info.operators.Keys;
    KeysAddUp(info, signers);
    CancelLeft(SumPoints(a.nonSignersPubkeysG1), key, KeyOf(info, signers));
    if who :| SignedBy(info, m, a, who) {
      assert all - who == all - signers;
      assert who == all - (all - who) == all - (all - signers) == signers;
    }
    if key == KeyOf(info, signers) && HasShare(info, signers) {
      assert SignedBy(info, m, a, signers);
    }
  }

  /** So a response without error is sound exactly if the key is its signers', and they have the stake asked for. */
  lemma ResponseSoundIff(g: Goroutine, m: Message, forced: bool)
    requires LedgerInv(g) && KeyPairs(g.info) && Digest(m) in g.ledger.digests
    ensures var a := g.ledger.digests[Digest(m)];
      SoundResponse(g.info, ResponseFor(g.info, g.ledger, m, forced, true)) <==>
      a.apkG2 == KeyOf(g.info, a.signers) && HasShare(g.info, a.signers)
  {
    var a := g.ledger.digests[Digest(m)];
    SignedIff(g.info, m, a.signers, a.apkG2, a.sig);
    assert AggregationOf(g.info, a) == AggregationWith(g.info, a.signers, a.apkG2, a.sig);
  }

  /** Which holds while every operator is accepted once. */
  lemma OnceSignedWell(g: Goroutine, d: Digest)
    requires LedgerInv(g) && Once(g.accepted) && Reportable(g, d)
    ensures var a := g.ledger.digests[d];
      a.apkG2 == KeyOf(g.info, a.signers) && HasShare(g.info, a.signers)
  {
    OnceIsAccurate(g.info, g.accepted);
    OnceIsKeyed(g.info, g.accepted);
    assert AccurateAt(g.info, g.ledger, d);
    var signers := g.ledger.digests[d].signers;
    forall q <- g.info.thresholds ensures HasShareIn(g.info, signers, q) {
      assert Get(g.ledger.Total(d), q) == g.info.StakeOf(signers, q);
    }
  }

  /** What a step sends: the expiry, or the response for a message in the ledger it leaves. */
  lemma StepSends(g: Goroutine, e: Event, r: Response)
    requires WellFormed(g.info, g.ledger) && !g.phase.Stopped? && r in Step(g, e).emitted && r.error == NoFailure
    ensures WellFormed(Step(g, e).info, Step(g, e).ledger) && Step(g, e).info == g.info
    ensures r in g.emitted ||
      exists m, forced, ok :: r == ResponseFor(g.info, Step(g, e).ledger, m, forced, ok) && r.message == Some(m)
  {
    StepKeepsWellFormed(g, e);
    if r !in g.emitted {
      var m := if e.Timer? then g.phase.message else e.message;
      assert r == ResponseFor(g.info, Step(g, e).ledger, m, e.Timer?, e.indicesOk) && r.message == Some(m);
    }
  }

  /** In every run that accepts each operator once, every response without error is sound. */
  lemma {:induction false} RunResponsesAreSound(info: Info, events: seq<Event>, r: Response)
    requires Sound(info) && KeyPairs(info) && Once(AcceptedIn(info, events))
    requires r in Run(info, events).emitted
    ensures SoundResponse(info, r)
  {
    if events != [] && r.error == NoFailure {
      var front, e := events[..|events| - 1], events[|events| - 1];
      var g, h := Run(info, front), Run(info, events);
      if r in g.emitted {
        AcceptedGrows(info, events, |events| - 1);
        RunResponsesAreSound(info, front, r);
      } else {
        StepSends(g, e, r);
        var m, forced, ok :| r == ResponseFor(info, h.ledger, m, forced, ok) && r.message == Some(m);
        RunInv(info, events);
        RunReportsOneMessage(info, events, r, r);
        OnceSignedWell(h, Digest(m));
        ResponseSoundIff(h, m, forced);
      }
    }
  }
}
