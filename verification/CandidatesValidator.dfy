/**
 * The indexer's candidates validator: the main task and the ticker share a queue of candidates
 * whose transactions had not finished, and publish the payloads of those that succeeded.
 */
module CandidatesValidator {

  /** `failedReceipt`: the receipt's own status is already a failure. */
  datatype Candidate = Candidate(failedReceipt: bool, payloads: seq<nat>)

  /** What asking for a transaction's final status can bring. */
  datatype Status = Unfinished | Success | Failure | FetchError

  datatype Answer = Answer(candidate: Candidate, status: Status)

  datatype Resolution = Resolution(candidate: Candidate, success: bool)

  function Candidates(rs: seq<Resolution>): (r: seq<Candidate>)
    ensures |r| == |rs|
  {
    seq(|rs|, i requires 0 <= i < |rs| => rs[i].candidate)
  }

  /** The payloads of the successful ones, in order. */
  function Payloads(rs: seq<Resolution>): seq<nat> {
    if rs == [] then []
    else
      var n := |rs| - 1;
      if rs[n].success then Payloads(rs[..n]) + rs[n].candidate.payloads else Payloads(rs[..n])
  }

  /** The final answers, in order. */
  function Verdicts(answers: seq<Answer>): seq<Resolution> {
    if answers == [] then []
    else
      var n := |answers| - 1;
      var a := answers[n];
      if a.status == Success then Verdicts(answers[..n]) + [Resolution(a.candidate, true)]
      else if a.status == Failure then Verdicts(answers[..n]) + [Resolution(a.candidate, false)]
      else Verdicts(answers[..n])
  }

  lemma Regroup<T>(p: seq<T>, q: seq<T>, r: seq<T>)
    ensures p + q + r == p + (q + r)
  {
  }

  lemma CandidatesAppend(rs: seq<Resolution>, r: Resolution)
    ensures Candidates(rs + [r]) == Candidates(rs) + [r.candidate]
  {
  }

  lemma PayloadsAppend(rs: seq<Resolution>, r: Resolution)
    ensures Payloads(rs + [r]) == if r.success then Payloads(rs) + r.candidate.payloads else Payloads(rs)
  {
    assert (rs + [r])[..|rs|] == rs;
  }

  lemma VerdictsAppend(answers: seq<Answer>, a: Answer)
    ensures Verdicts(answers + [a]) ==
            if a.status == Success then Verdicts(answers) + [Resolution(a.candidate, true)]
            else if a.status == Failure then Verdicts(answers) + [Resolution(a.candidate, false)]
            else Verdicts(answers)
  {
    assert (answers + [a])[..|answers|] == answers;
  }

  // ---------------------------------------------------------------------------------------------
  // The two tasks, one step at a time

  /** Where a flush is: about to look at the front of the queue, or publishing its payloads. */
  datatype Flush = Looking | Sending(next: nat)

  datatype Main =
    | Waiting
    | Locking(c: Candidate)
    | Flushing(c: Candidate, flush: Flush)
    | Checking(c: Candidate)
    | Publishing(c: Candidate, next: nat)
    | Requeueing(c: Candidate)
    | Ended(lost: seq<Candidate>)

  datatype Ticker = Resting | Ticking(flush: Flush)

  datatype State = State(
    received: seq<Candidate>, queue: seq<Candidate>, resolved: seq<Resolution>,
    answers: seq<Answer>, published: seq<nat>, main: Main, ticker: Ticker, open: bool)

  datatype Action =
    | Receive(c: Candidate)
    | CloseInput
    | CloseOutput
    | MainLock
    | MainFlush(status: Status)
    | MainCheck(status: Status)
    | MainPublish
    | MainRequeue
    | TickerLock
    | TickerFlush(status: Status)

  const INITIAL := State([], [], [], [], [], Waiting, Resting, true)

  /** The mutex around the queue. */
  predicate Locked(s: State) {
    s.main.Flushing? || s.ticker.Ticking?
  }

  predicate Enabled(s: State, a: Action) {
    match a
    case Receive(_) => s.main.Waiting?
    case CloseInput => s.main.Waiting?
    case CloseOutput => true
    case MainLock => s.main.Locking? && !Locked(s)
    case MainFlush(_) => s.main.Flushing?
    case MainCheck(_) => s.main.Checking?
    case MainPublish => s.main.Publishing?
    case MainRequeue => s.main.Requeueing? && !Locked(s)
    case TickerLock => s.ticker.Resting? && !Locked(s)
    case TickerFlush(_) => s.ticker.Ticking?
  }

  function Resolve(s: State, c: Candidate, success: bool): State {
    s.(resolved := s.resolved + [Resolution(c, success)])
  }

  function Asked(s: State, c: Candidate, status: Status): State {
    s.(answers := s.answers + [Answer(c, status)])
  }

  /** How one step of a flush goes on. */
  datatype Outcome = Continue(flush: Flush) | Done(flushed: bool) | Error

  /** One step of `flush`, whoever runs it. */
  function FlushStep(s: State, flush: Flush, status: Status): (State, Outcome) {
    if s.queue == [] then (s, Done(true))
    else
      var c := s.queue[0];
      match flush
      case Looking =>
        var s1 := Asked(s, c, status);
        (match status
         case Unfinished => (s1, Done(false))
         case FetchError => (s1, Error)
         case Failure => (Resolve(s1, c, false).(queue := s.queue[1..]), Continue(Looking))
         case Success => (s1, Continue(Sending(0))))
      case Sending(k) =>
        if k >= |c.payloads| then (Resolve(s, c, true).(queue := s.queue[1..]), Continue(Looking))
        else if s.open then (s.(published := s.published + [c.payloads[k]]), Continue(Sending(k + 1)))
        else (s, Error)
  }

  function MainFlushed(s: State, status: Status): State
    requires s.main.Flushing?
  {
    var c := s.main.c;
    var (s1, outcome) := FlushStep(s, s.main.flush, status);
    match outcome
    case Continue(flush) => s1.(main := Flushing(c, flush))
    case Done(true) => s1.(main := Checking(c))
    case Done(false) => s1.(main := Waiting, queue := s1.queue + [c])
    case Error => s1.(main := Ended([c]))
  }

  function TickerFlushed(s: State, status: Status): State
    requires s.ticker.Ticking?
  {
    var (s1, outcome) := FlushStep(s, s.ticker.flush, status);
    s1.(ticker := if outcome.Continue? then Ticking(outcome.flush) else Resting)
  }

  function MainChecked(s: State, status: Status): State
    requires s.main.Checking?
  {
    var c := s.main.c;
    if c.failedReceipt then Resolve(Asked(s, c, Failure), c, false).(main := Waiting)
    else
      var s1 := Asked(s, c, status);
      match status
      case Unfinished => s1.(main := Requeueing(c))
      case Success => s1.(main := Publishing(c, 0))
      case Failure => Resolve(s1, c, false).(main := Waiting)
      case FetchError => s1.(main := Ended([c]))
  }

  function MainPublished(s: State): State
    requires s.main.Publishing?
  {
    var c := s.main.c;
    var k := s.main.next;
    if k >= |c.payloads| then Resolve(s, c, true).(main := Waiting)
    else if s.open then s.(published := s.published + [c.payloads[k]], main := Publishing(c, k + 1))
    else s.(main := Ended([c]))
  }

  function Next(s: State, a: Action): State
    requires Enabled(s, a)
  {
    match a
    case Receive(c) => s.(received := s.received + [c], main := Locking(c))
    case CloseInput => s.(main := Ended([]))
    case CloseOutput => s.(open := false)
    case MainLock => s.(main := Flushing(s.main.c, Looking))
    case MainFlush(status) => MainFlushed(s, status)
    case MainCheck(status) => MainChecked(s, status)
    case MainPublish => MainPublished(s)
    case MainRequeue => s.(main := Waiting, queue := s.queue + [s.main.c])
    case TickerLock => s.(ticker := Ticking(Looking))
    case TickerFlush(status) => TickerFlushed(s, status)
  }

  // ---------------------------------------------------------------------------------------------
  // What every step keeps

  function InHand(m: Main): seq<Candidate> {
    match m
    case Waiting => []
    case Ended(lost) => lost
    case _ => [m.c]
  }

  /** The main task has found the queue empty and not yet let go of its candidate. */
  predicate PastFlush(m: Main) {
    m.Checking? || m.Publishing? || m.Requeueing?
  }

  /** The candidate being published, with how many of its payloads are out. */
  function Underway(s: State): seq<(Candidate, nat)> {
    if s.main.Publishing? then [(s.main.c, s.main.next)]
    else if s.queue == [] then []
    else if s.main.Flushing? && s.main.flush.Sending? then [(s.queue[0], s.main.flush.next)]
    else if s.ticker.Ticking? && s.ticker.flush.Sending? then [(s.queue[0], s.ticker.flush.next)]
    else []
  }

  /** Mutual exclusion, and the queue empty while the main task is past its flush. */
  ghost predicate Control(s: State) {
    && !(s.main.Flushing? && s.ticker.Ticking?)
    && |InHand(s.main)| <= 1
    && (PastFlush(s.main) ==> s.queue == [])
    && (s.main.Flushing? && s.main.flush.Sending? ==> s.queue != [])
    && (s.ticker.Ticking? && s.ticker.flush.Sending? ==> s.queue != [])
    && (Underway(s) != [] ==> Underway(s)[0].1 <= |Underway(s)[0].0.payloads|)
  }

  ghost predicate InOrder(s: State) {
    s.received == Candidates(s.resolved) + s.queue + InHand(s.main)
  }

  /** What is out, when `u` is being published: the payloads of the successful ones and part of the next. */
  ghost predicate Output(s: State, u: seq<(Candidate, nat)>) {
    if u == [] then s.published == Payloads(s.resolved) && Verdicts(s.answers) == s.resolved
    else
      && u[0].1 <= |u[0].0.payloads|
      && s.published == Payloads(s.resolved) + u[0].0.payloads[..u[0].1]
      && Verdicts(s.answers) == s.resolved + [Resolution(u[0].0, true)]
  }

  ghost predicate Inv(s: State) {
    Control(s) && InOrder(s) && (s.open ==> Output(s, Underway(s)))
  }

  function UnderwayIn(s: State, flush: Flush): seq<(Candidate, nat)> {
    if s.queue != [] && flush.Sending? then [(s.queue[0], flush.next)] else []
  }

  ghost function After(outcome: Outcome): Flush {
    if outcome.Continue? then outcome.flush else Looking
  }

  lemma FlushStepKeepsOrder(s: State, flush: Flush, status: Status)
    ensures var s1 := FlushStep(s, flush, status).0;
            Candidates(s1.resolved) + s1.queue == Candidates(s.resolved) + s.queue
  {
    var s1 := FlushStep(s, flush, status).0;
    if s.queue != [] && s1.queue == s.queue[1..] && s1.resolved != s.resolved {
      CandidatesAppend(s.resolved, s1.resolved[|s.resolved|]);
    }
  }

  lemma LookKeepsOutput(s: State, status: Status)
    requires s.open && s.queue != [] && Output(s, [])
    ensures var (s1, outcome) := FlushStep(s, Looking, status);
            Output(s1, UnderwayIn(s1, After(outcome)))
  {
    var c := s.queue[0];
    VerdictsAppend(s.answers, Answer(c, status));
    PayloadsAppend(s.resolved, Resolution(c, false));
    assert s.published == s.published + c.payloads[..0];
  }

  lemma SendKeepsOutput(s: State, k: nat, status: Status)
    requires s.open && s.queue != [] && Output(s, [(s.queue[0], k)])
    ensures var (s1, outcome) := FlushStep(s, Sending(k), status);
            Output(s1, UnderwayIn(s1, After(outcome)))
  {
    var c := s.queue[0];
    if k == |c.payloads| {
      PayloadsAppend(s.resolved, Resolution(c, true));
      assert c.payloads[..k] == c.payloads;
    } else {
      assert c.payloads[..k + 1] == c.payloads[..k] + [c.payloads[k]];
    }
  }

  lemma FlushStepKeepsOutput(s: State, flush: Flush, status: Status)
    requires s.open && Output(s, UnderwayIn(s, flush)) && (flush.Sending? ==> s.queue != [])
    ensures var (s1, outcome) := FlushStep(s, flush, status);
            Output(s1, UnderwayIn(s1, After(outcome)))
  {
    if s.queue != [] {
      match flush
      case Looking => LookKeepsOutput(s, status);
      case Sending(k) => SendKeepsOutput(s, k, status);
    }
  }

  /** A flush goes on only with something at the front, and is through only when the queue is empty. */
  lemma FlushStepControl(s: State, flush: Flush, status: Status)
    requires flush.Sending? ==> s.queue != [] && flush.next <= |s.queue[0].payloads|
    ensures var (s1, outcome) := FlushStep(s, flush, status);
            && (outcome.Continue? && outcome.flush.Sending? ==>
                  s1.queue != [] && outcome.flush.next <= |s1.queue[0].payloads|)
            && (outcome == Done(true) ==> s1.queue == [])
            && s1.main == s.main && s1.ticker == s.ticker && s1.open == s.open && s1.received == s.received
  {
  }

  lemma MainFlushKeepsOrder(s: State, status: Status)
    requires InOrder(s) && s.main.Flushing?
    ensures InOrder(MainFlushed(s, status))
  {
    FlushStepKeepsOrder(s, s.main.flush, status);
    var s1 := FlushStep(s, s.main.flush, status).0;
    assert s1.received == s.received;
    assert s.received == Candidates(s1.resolved) + s1.queue + [s.main.c];
    Regroup(Candidates(s1.resolved), s1.queue, [s.main.c]);
    assert Candidates(s1.resolved) + (s1.queue + [s.main.c]) + [] == Candidates(s1.resolved) + (s1.queue + [s.main.c]);
  }

  lemma MainFlushKeepsControl(s: State, status: Status)
    requires Control(s) && s.main.Flushing?
    ensures Control(MainFlushed(s, status))
  {
    assert s.main.flush.Sending? ==> Underway(s) == [(s.queue[0], s.main.flush.next)];
    FlushStepControl(s, s.main.flush, status);
  }

  lemma MainFlushKeepsOutput(s: State, status: Status)
    requires Control(s) && s.main.Flushing? && s.open && Output(s, Underway(s))
    ensures Output(MainFlushed(s, status), Underway(MainFlushed(s, status)))
  {
    var flush := s.main.flush;
    assert Underway(s) == UnderwayIn(s, flush);
    FlushStepControl(s, flush, status);
    FlushStepKeepsOutput(s, flush, status);
    var (s1, outcome) := FlushStep(s, flush, status);
    assert Underway(MainFlushed(s, status)) == UnderwayIn(s1, After(outcome));
  }

  lemma MainFlushKeepsInv(s: State, status: Status)
    requires Inv(s) && s.main.Flushing?
    ensures Inv(MainFlushed(s, status))
  {
    FlushStepControl(s, s.main.flush, status) by {
      assert s.main.flush.Sending? ==> Underway(s) == [(s.queue[0], s.main.flush.next)];
    }
    MainFlushKeepsOrder(s, status);
    MainFlushKeepsControl(s, status);
    if s.open {
      MainFlushKeepsOutput(s, status);
    }
  }

  lemma TickerFlushKeepsInv(s: State, status: Status)
    requires Inv(s) && s.ticker.Ticking?
    ensures Inv(TickerFlushed(s, status))
  {
    var flush := s.ticker.flush;
    assert flush.Sending? ==> Underway(s) == [(s.queue[0], flush.next)];
    FlushStepControl(s, flush, status);
    FlushStepKeepsOrder(s, flush, status);
    if s.queue != [] {
      if s.open {
        assert Underway(s) == UnderwayIn(s, flush);
        FlushStepKeepsOutput(s, flush, status);
      }
      var (s1, outcome) := FlushStep(s, flush, status);
      var s2 := TickerFlushed(s, status);
      assert Underway(s2) == UnderwayIn(s1, After(outcome));
    }
  }

  lemma MainCheckKeepsOrder(s: State, status: Status)
    requires Control(s) && InOrder(s) && s.main.Checking?
    ensures Control(MainChecked(s, status)) && InOrder(MainChecked(s, status))
  {
    CandidatesAppend(s.resolved, Resolution(s.main.c, false));
  }

  lemma FailureKeepsOutput(s: State, c: Candidate)
    requires Output(s, [])
    ensures Output(Resolve(Asked(s, c, Failure), c, false), [])
  {
    VerdictsAppend(s.answers, Answer(c, Failure));
    PayloadsAppend(s.resolved, Resolution(c, false));
  }

  lemma SuccessStartsOutput(s: State, c: Candidate)
    requires Output(s, [])
    ensures Output(Asked(s, c, Success), [(c, 0)])
  {
    VerdictsAppend(s.answers, Answer(c, Success));
    assert s.published == s.published + c.payloads[..0];
  }

  lemma PendingKeepsOutput(s: State, c: Candidate, status: Status)
    requires Output(s, []) && (status == Unfinished || status == FetchError)
    ensures Output(Asked(s, c, status), [])
  {
    VerdictsAppend(s.answers, Answer(c, status));
  }

  lemma OutputWithMain(s: State, main: Main, u: seq<(Candidate, nat)>)
    requires Output(s, u)
    ensures Output(s.(main := main), u)
  {
  }

  lemma MainCheckKeepsOutput(s: State, status: Status)
    requires Control(s) && s.main.Checking? && s.open && Output(s, Underway(s))
    ensures Output(MainChecked(s, status), Underway(MainChecked(s, status)))
  {
    var c, main := s.main.c, MainChecked(s, status).main;
    assert Underway(s) == [];
    if c.failedReceipt || status == Failure {
      FailureKeepsOutput(s, c);
      OutputWithMain(Resolve(Asked(s, c, Failure), c, false), main, []);
    } else if status == Success {
      SuccessStartsOutput(s, c);
      OutputWithMain(Asked(s, c, Success), main, [(c, 0)]);
    } else {
      PendingKeepsOutput(s, c, status);
      OutputWithMain(Asked(s, c, status), main, []);
    }
  }

  lemma MainCheckKeepsInv(s: State, status: Status)
    requires Inv(s) && s.main.Checking?
    ensures Inv(MainChecked(s, status))
  {
    MainCheckKeepsOrder(s, status);
    if s.open {
      MainCheckKeepsOutput(s, status);
    }
  }

  lemma MainPublishKeepsInv(s: State)
    requires Inv(s) && s.main.Publishing?
    ensures Inv(MainPublished(s))
  {
    var c := s.main.c;
    var k := s.main.next;
    assert Underway(s) == [(c, k)];
    CandidatesAppend(s.resolved, Resolution(c, true));
    if s.open {
      PayloadsAppend(s.resolved, Resolution(c, true));
      if k == |c.payloads| {
        assert c.payloads[..k] == c.payloads;
      } else {
        assert c.payloads[..k + 1] == c.payloads[..k] + [c.payloads[k]];
      }
    }
  }

  lemma NextKeepsInv(s: State, a: Action)
    requires Inv(s) && Enabled(s, a)
    ensures Inv(Next(s, a))
  {
    match a
    case MainFlush(status) => MainFlushKeepsInv(s, status);
    case MainCheck(status) => MainCheckKeepsInv(s, status);
    case MainPublish => MainPublishKeepsInv(s);
    case TickerFlush(status) => TickerFlushKeepsInv(s, status);
    case _ =>
  }

  // ---------------------------------------------------------------------------------------------
  // Main results

  ghost predicate IsRun(states: seq<State>, actions: seq<Action>) {
    && |states| == |actions| + 1
    && states[0] == INITIAL
    && forall i {:trigger actions[i]} :: 0 <= i < |actions| ==>
         Enabled(states[i], actions[i]) && states[i + 1] == Next(states[i], actions[i])
  }

  lemma {:induction false} InvThroughout(states: seq<State>, actions: seq<Action>, n: nat)
    requires IsRun(states, actions) && n <= |actions|
    ensures Inv(states[n])
  {
    if n > 0 {
      InvThroughout(states, actions, n - 1);
      NextKeepsInv(states[n - 1], actions[n - 1]);
    }
  }

  /**
   * In every interleaving, the candidates received are, in order, those resolved, those queued and
   * the one the main task holds; when an error ends that task it loses at most this last one.
   */
  lemma NoCandidateIsLost(states: seq<State>, actions: seq<Action>, n: nat)
    requires IsRun(states, actions) && n <= |actions|
    ensures var s := states[n];
            && s.received == Candidates(s.resolved) + s.queue + InHand(s.main)
            && |InHand(s.main)| <= 1
            && (PastFlush(s.main) ==> s.queue == [])
  {
    InvThroughout(states, actions, n);
  }

  /**
   * While the output is open, what has been published is, in arrival order, every payload of every
   * candidate found successful, up to the one being published, which is the first not resolved:
   * nothing is published while an earlier candidate is pending.
   */
  lemma PublishedInArrivalOrder(states: seq<State>, actions: seq<Action>, n: nat)
    requires IsRun(states, actions) && n <= |actions| && states[n].open
    ensures var s := states[n];
            var m := |s.resolved|;
            && m <= |s.received| && s.received[..m] == Candidates(s.resolved)
            && s.resolved <= Verdicts(s.answers)
            && |Verdicts(s.answers)| <= m + 1
            && (|Verdicts(s.answers)| == m ==> s.published == Payloads(s.resolved))
            && (|Verdicts(s.answers)| == m + 1 ==>
                  && m < |s.received|
                  && Verdicts(s.answers)[m] == Resolution(s.received[m], true)
                  && exists k :: 0 <= k <= |s.received[m].payloads| &&
                       s.published == Payloads(s.resolved) + s.received[m].payloads[..k])
  {
    InvThroughout(states, actions, n);
    var s := states[n];
    var m := |s.resolved|;
    var u := Underway(s);
    assert s.received[..m] == Candidates(s.resolved);
    if u != [] {
      UnderwayIsNext(s);
      assert s.published == Payloads(s.resolved) + s.received[m].payloads[..u[0].1];
    }
  }

  lemma UnderwayIsNext(s: State)
    requires Inv(s) && Underway(s) != []
    ensures |s.resolved| < |s.received| && Underway(s)[0].0 == s.received[|s.resolved|]
  {
    var rest := s.queue + InHand(s.main);
    assert s.received == Candidates(s.resolved) + rest;
    assert rest[0] == Underway(s)[0].0;
  }

  // ---------------------------------------------------------------------------------------------
  // What keeps a candidate waiting

  /** The last answer was that `c` has not finished, or that it could not be asked for. */
  ghost predicate LastLeft(answers: seq<Answer>, c: Candidate) {
    && answers != []
    && var a := answers[|answers| - 1];
    a.candidate == c && (a.status == Unfinished || a.status == FetchError)
  }

  /** Between flushes the front of the queue has just been asked for in vain. */
  ghost predicate Waits(s: State) {
    && (s.open && s.queue != [] && s.ticker.Resting? && !s.main.Flushing? ==> LastLeft(s.answers, s.queue[0]))
    && (s.main.Requeueing? ==> LastLeft(s.answers, s.main.c))
  }

  lemma FlushStepLeaves(s: State, flush: Flush, status: Status)
    requires s.open
    ensures var (s1, outcome) := FlushStep(s, flush, status);
            !outcome.Continue? && s1.queue != [] ==> LastLeft(s1.answers, s1.queue[0])
  {
  }

  lemma NextKeepsWaits(s: State, a: Action)
    requires Inv(s) && Waits(s) && Enabled(s, a)
    ensures Waits(Next(s, a))
  {
    match a
    case MainFlush(status) =>
      if s.open {
        FlushStepLeaves(s, s.main.flush, status);
      }
    case TickerFlush(status) =>
      if s.open {
        FlushStepLeaves(s, s.ticker.flush, status);
      }
    case _ =>
  }

  lemma {:induction false} WaitsThroughout(states: seq<State>, actions: seq<Action>, n: nat)
    requires IsRun(states, actions) && n <= |actions|
    ensures Waits(states[n])
  {
    if n > 0 {
      WaitsThroughout(states, actions, n - 1);
      InvThroughout(states, actions, n - 1);
      NextKeepsWaits(states[n - 1], actions[n - 1]);
    }
  }

  /**
   * In every interleaving, while the output is open and no flush is under way, candidates are queued
   * only because the very last answer was that the first of them has not finished, or could not be
   * asked for: nothing waits that could have been published or let go.
   */
  lemma NothingWaitsInVain(states: seq<State>, actions: seq<Action>, n: nat)
    requires IsRun(states, actions) && n <= |actions|
    requires var s := states[n];
             s.open && s.queue != [] && s.ticker.Resting? && !s.main.Flushing?
    ensures var s := states[n];
            && s.answers != []
            && var a := s.answers[|s.answers| - 1];
            a.candidate == s.queue[0] && (a.status == Unfinished || a.status == FetchError)
  {
    WaitsThroughout(states, actions, n);
  }

  /**
   * What ends the main task: the end of its input, a status that it could not ask for, in its flush or
   * for its own candidate unless the receipt had failed, or a payload that the closed output does not take.
   */
  lemma EndsIff(s: State, a: Action)
    requires Enabled(s, a) && !s.main.Ended?
    ensures Next(s, a).main.Ended? <==>
      || a == CloseInput
      || (a == MainFlush(FetchError) && s.queue != [] && s.main.flush == Looking)
      || (a.MainFlush? && s.queue != [] && s.main.flush.Sending? && !s.open &&
            s.main.flush.next < |s.queue[0].payloads|)
      || (a == MainCheck(FetchError) && !s.main.c.failedReceipt)
      || (a == MainPublish && !s.open && s.main.next < |s.main.c.payloads|)
  {
  }

  /** A candidate whose receipt had failed is let go of unsuccessful, whatever its status, and publishes nothing. */
  lemma FailedReceiptIsDropped(s: State, status: Status)
    requires s.main.Checking? && s.main.c.failedReceipt
    ensures var r := Next(s, MainCheck(status));
            && r.resolved == s.resolved + [Resolution(s.main.c, false)]
            && r.published == s.published && r.queue == s.queue && r.main == Waiting
  {
  }

  // ---------------------------------------------------------------------------------------------
  // The flush as a loop

  /** Steps of a flush until it ends, with the answers to come. */
  ghost function RunFlush(s: State, flush: Flush, statuses: seq<Status>): (State, Outcome)
    requires |s.queue| <= |statuses| + (if flush.Sending? then 1 else 0)
    decreases |s.queue|, if s.queue == [] then 0 else match flush
      case Looking => |s.queue[0].payloads| + 2
      case Sending(k) => if k < |s.queue[0].payloads| then |s.queue[0].payloads| - k + 1 else 0
  {
    if s.queue == [] then (s, Done(true))
    else
      var (s1, outcome) := FlushStep(s, flush, if flush == Looking then statuses[0] else Success);
      if outcome.Continue? then RunFlush(s1, outcome.flush, if flush == Looking then statuses[1..] else statuses)
      else (s1, outcome)
  }

  /** How the first `n` of the queue are resolved, each as its answer says. */
  ghost function Settled(queue: seq<Candidate>, statuses: seq<Status>, n: nat): (rs: seq<Resolution>)
    requires n <= |queue| <= |statuses|
    ensures |rs| == n && forall i :: 0 <= i < n ==> rs[i] == Resolution(queue[i], statuses[i] == Success)
  {
    seq(n, i requires 0 <= i < n => Resolution(queue[i], statuses[i] == Success))
  }

  lemma SettledFirst(queue: seq<Candidate>, statuses: seq<Status>, n: nat)
    requires 0 < n <= |queue| <= |statuses|
    ensures Settled(queue, statuses, n) ==
            [Resolution(queue[0], statuses[0] == Success)] + Settled(queue[1..], statuses[1..], n - 1)
  {
  }

  lemma PayloadsBetween(r: Resolution, front: seq<Resolution>, last: Resolution)
    requires Payloads([r] + front) == (if r.success then r.candidate.payloads else []) + Payloads(front)
    ensures Payloads([r] + front + [last]) ==
            (if r.success then r.candidate.payloads else []) + Payloads(front + [last])
  {
    PayloadsAppend(front, last);
    PayloadsAppend([r] + front, last);
    Regroup(if r.success then r.candidate.payloads else [], Payloads(front), last.candidate.payloads);
  }

  lemma OneResolution(r: Resolution, rs: seq<Resolution>)
    requires rs == []
    ensures Payloads([r] + rs) == (if r.success then r.candidate.payloads else []) + Payloads(rs)
  {
    PayloadsAppend([], r);
    assert [] + [r] == [r] == [r] + rs;
  }

  lemma LastOf(r: Resolution, rs: seq<Resolution>)
    requires rs != []
    ensures var n := |rs| - 1; rs == rs[..n] + [rs[n]] && [r] + rs == [r] + rs[..n] + [rs[n]]
  {
  }

  lemma {:induction false} PayloadsFirst(r: Resolution, rs: seq<Resolution>)
    ensures Payloads([r] + rs) == (if r.success then r.candidate.payloads else []) + Payloads(rs)
  {
    if rs == [] {
      OneResolution(r, rs);
    } else {
      var n := |rs| - 1;
      PayloadsFirst(r, rs[..n]);
      PayloadsBetween(r, rs[..n], rs[n]);
      LastOf(r, rs);
    }
  }

  /** What sending the payloads of the front leads to. */
  lemma {:induction false} SendGives(s: State, k: nat, statuses: seq<Status>)
    requires s.queue != [] && k <= |s.queue[0].payloads| && |s.queue| <= |statuses| + 1
    ensures var c := s.queue[0];
            RunFlush(s, Sending(k), statuses) ==
            if s.open || k == |c.payloads| then
              RunFlush(Resolve(s.(published := s.published + c.payloads[k..]), c, true).(queue := s.queue[1..]),
                Looking, statuses)
            else (s, Error)
    decreases |s.queue[0].payloads| - k
  {
    var c := s.queue[0];
    if k == |c.payloads| {
      assert s.published + c.payloads[k..] == s.published;
    } else if s.open {
      var s1 := s.(published := s.published + [c.payloads[k]]);
      SendGives(s1, k + 1, statuses);
      assert s1.published + c.payloads[k + 1..] == s.published + c.payloads[k..];
    }
  }

  /** The first of the queue resolved, as its answer says, with what the flush then does. */
  ghost function FirstResolved(s: State, status: Status): State
    requires s.queue != []
  {
    var c := s.queue[0];
    s.(answers := s.answers + [Answer(c, status)], resolved := s.resolved + [Resolution(c, status == Success)],
       published := s.published + (if status == Success then c.payloads else []), queue := s.queue[1..])
  }

  lemma FirstGives(s: State, statuses: seq<Status>)
    requires s.queue != [] && |s.queue| <= |statuses|
    ensures var c, status := s.queue[0], statuses[0];
            var (s1, outcome) := RunFlush(s, Looking, statuses);
            if status == Failure || (status == Success && (s.open || c.payloads == [])) then
              (s1, outcome) == RunFlush(FirstResolved(s, status), Looking, statuses[1..])
            else
              && s1 == s.(answers := s.answers + [Answer(c, status)])
              && outcome == if status == Unfinished then Done(false) else Error
  {
    var c := s.queue[0];
    if statuses[0] == Success {
      var s1 := Asked(s, c, Success);
      SendGives(s1, 0, statuses[1..]);
      assert c.payloads[0..] == c.payloads;
      var sent := s1.(published := s1.published + c.payloads);
      assert Resolve(sent, c, true).(queue := s1.queue[1..]) == FirstResolved(s, Success);
    } else if statuses[0] == Failure {
      assert s.published + [] == s.published;
    }
  }

  /** The first `n` have been found final, and can be let go of; the next one not. */
  ghost predicate StopsAt(queue: seq<Candidate>, open: bool, statuses: seq<Status>, n: nat)
    requires |queue| <= |statuses|
  {
    && n <= |queue|
    && (forall i :: 0 <= i < n ==>
          statuses[i] == Failure || (statuses[i] == Success && (open || queue[i].payloads == [])))
    && (n < |queue| ==>
          || statuses[n] == Unfinished || statuses[n] == FetchError
          || (statuses[n] == Success && !open && queue[n].payloads != []))
  }

  /**
   * What a flush comes to: it resolves the first of the queue as their answers say, up to the first that
   * has not finished or could not be asked for, or whose payloads the closed channel does not take; and
   * that one decides what it reports.
   */
  ghost predicate FlushedTo(s: State, statuses: seq<Status>, s1: State, outcome: Outcome)
    requires |s.queue| <= |statuses|
  {
    && |s1.queue| <= |s.queue| && s1.open == s.open
    && var n := |s.queue| - |s1.queue|;
    && StopsAt(s.queue, s.open, statuses, n)
    && s1.queue == s.queue[n..]
    && s1.resolved == s.resolved + Settled(s.queue, statuses, n)
    && s1.published == s.published + Payloads(Settled(s.queue, statuses, n))
    && outcome == if n == |s.queue| then Done(true) else if statuses[n] == Unfinished then Done(false) else Error
  }

  lemma StopsAtFirst(queue: seq<Candidate>, open: bool, statuses: seq<Status>, n: nat)
    requires queue != [] && |queue| <= |statuses|
    requires statuses[0] == Failure || (statuses[0] == Success && (open || queue[0].payloads == []))
    requires StopsAt(queue[1..], open, statuses[1..], n)
    ensures StopsAt(queue, open, statuses, n + 1)
  {
    forall i | 0 < i < n + 1
      ensures statuses[i] == Failure || (statuses[i] == Success && (open || queue[i].payloads == []))
    {
      assert statuses[i] == statuses[1..][i - 1] && queue[i] == queue[1..][i - 1];
    }
  }

  lemma SettledWithFirst(s: State, statuses: seq<Status>, n: nat)
    requires n < |s.queue| <= |statuses|
    ensures var t := FirstResolved(s, statuses[0]);
            && t.resolved + Settled(t.queue, statuses[1..], n) == s.resolved + Settled(s.queue, statuses, n + 1)
            && t.published + Payloads(Settled(t.queue, statuses[1..], n)) ==
               s.published + Payloads(Settled(s.queue, statuses, n + 1))
  {
    var r, rest := Resolution(s.queue[0], statuses[0] == Success), Settled(s.queue[1..], statuses[1..], n);
    SettledFirst(s.queue, statuses, n + 1);
    PayloadsFirst(r, rest);
    Regroup(s.resolved, [r], rest);
    Regroup(s.published, if r.success then s.queue[0].payloads else [], Payloads(rest));
  }

  lemma FlushedToFirst(s: State, statuses: seq<Status>, s1: State, outcome: Outcome)
    requires s.queue != [] && |s.queue| <= |statuses|
    requires statuses[0] == Failure || (statuses[0] == Success && (s.open || s.queue[0].payloads == []))
    requires FlushedTo(FirstResolved(s, statuses[0]), statuses[1..], s1, outcome)
    ensures FlushedTo(s, statuses, s1, outcome)
  {
    var n := |s.queue| - 1 - |s1.queue|;
    StopsAtFirst(s.queue, s.open, statuses, n);
    SettledWithFirst(s, statuses, n);
    assert s.queue[n + 1..] == s.queue[1..][n..];
  }

  lemma {:induction false} FlushGives(s: State, statuses: seq<Status>)
    requires |s.queue| <= |statuses|
    ensures var (s1, outcome) := RunFlush(s, Looking, statuses);
            FlushedTo(s, statuses, s1, outcome)
    decreases |s.queue|
  {
    if s.queue != [] {
      var status := statuses[0];
      FirstGives(s, statuses);
      if status == Failure || (status == Success && (s.open || s.queue[0].payloads == [])) {
        FlushGives(FirstResolved(s, status), statuses[1..]);
        var (s1, outcome) := RunFlush(s, Looking, statuses);
        FlushedToFirst(s, statuses, s1, outcome);
      }
    }
  }

  /** The queue and the publisher's channel, with what has been asked and resolved. */
  class Shared {
    var queue: seq<Candidate>
    var channel: seq<nat>
    var open: bool
    ghost var resolved: seq<Resolution>
    ghost var answers: seq<Answer>

    ghost function View(): State
      reads this
    {
      INITIAL.(queue := queue, published := channel, open := open, resolved := resolved, answers := answers)
    }

    /** `flush`. */
    method Flush(statuses: seq<Status>) returns (outcome: Outcome)
      requires |queue| <= |statuses|
      modifies this
      ensures FlushedTo(old(View()), statuses, View(), outcome)
    {
      outcome := FlushLoop(statuses);
      FlushGives(old(View()), statuses);
    }

    /** Its loop does what its steps do, one after the other. */
    method FlushLoop(statuses: seq<Status>) returns (outcome: Outcome)
      requires |queue| <= |statuses|
      modifies this
      ensures (View(), outcome) == RunFlush(old(View()), Looking, statuses)
    {
      var i := 0;
      while queue != []
        invariant i <= |statuses| && |queue| <= |statuses| - i
        invariant RunFlush(old(View()), Looking, statuses) == RunFlush(View(), Looking, statuses[i..])
        decreases |queue|
      {
        var c := queue[0];
        var status := statuses[i];
        answers := answers + [Answer(c, status)];
        i := i + 1;
        assert statuses[i - 1..][1..] == statuses[i..];
        match status
        case Unfinished => return Done(false);
        case FetchError => return Error;
        case Failure =>
          resolved := resolved + [Resolution(c, false)];
          queue := queue[1..];
        case Success =>
          var sent := Send(c, statuses[i..]);
          if !sent {
            return Error;
          }
          resolved := resolved + [Resolution(c, true)];
          queue := queue[1..];
      }
      outcome := Done(true);
    }

    /** `send`: the payloads one by one, stopping if the channel is closed. */
    method Send(c: Candidate, ghost statuses: seq<Status>) returns (sent: bool)
      requires queue != [] && queue[0] == c && |queue| <= |statuses| + 1
      modifies this`channel
      ensures !sent ==> RunFlush(old(View()), Sending(0), statuses) == (View(), Error)
      ensures sent ==> RunFlush(old(View()), Sending(0), statuses) == RunFlush(View(), Sending(|c.payloads|), statuses)
      ensures sent <==> open || c.payloads == []
      ensures channel == old(channel) + if sent then c.payloads else []
    {
      for k := 0 to |c.payloads|
        invariant channel == old(channel) + c.payloads[..k] && (k > 0 ==> open)
        invariant RunFlush(old(View()), Sending(0), statuses) == RunFlush(View(), Sending(k), statuses)
      {
        if !open {
          return false;
        }
        channel := channel + [c.payloads[k]];
      }
      sent := true;
    }
  }

  /**
   * A whole flush resolves a prefix of the queue in order and puts out exactly the payloads of the
   * successful ones; it reports the queue flushed if and only if it has emptied it.
   */
  lemma {:induction false} FlushResolvesPrefix(s: State, flush: Flush, statuses: seq<Status>)
    requires |s.queue| <= |statuses| + (if flush.Sending? then 1 else 0)
    requires flush.Sending? ==> s.queue != []
    requires s.open && Output(s, UnderwayIn(s, flush))
    ensures var (s1, outcome) := RunFlush(s, flush, statuses);
            && Candidates(s1.resolved) + s1.queue == Candidates(s.resolved) + s.queue
            && Output(s1, [])
            && (outcome == Done(true) <==> s1.queue == [])
    decreases |s.queue|, if s.queue == [] then 0 else match flush
      case Looking => |s.queue[0].payloads| + 2
      case Sending(k) => if k < |s.queue[0].payloads| then |s.queue[0].payloads| - k + 1 else 0
  {
    if s.queue != [] {
      var status := if flush == Looking then statuses[0] else Success;
      FlushStepKeepsOrder(s, flush, status);
      FlushStepKeepsOutput(s, flush, status);
      FlushStepControl(s, flush, status);
      var (s1, outcome) := FlushStep(s, flush, status);
      if outcome.Continue? {
        FlushResolvesPrefix(s1, outcome.flush, if flush == Looking then statuses[1..] else statuses);
      }
    }
  }
}
