/**
 * When the message filed under a key and the aggregation filed with it belong together, over whole
 * runs of the service: several goroutines may report for one key, one after the other.
 */
module Pairing {
  import opened Sums
  import opened BlsTypes
  import opened BlsLedger
  import opened BlsGoroutine
  import opened BlsService
  import opened Database
  import Checkpoint

  /** A signature of `operator` on `message` that goroutine `chan` accepted. */
  datatype Vote = Vote(chan: nat, operator: OperatorId, message: Message)

  /** The vote that an action brings, if any. */
  ghost function VoteOf(latency: nat, s: Service, a: Action): seq<Vote> {
    if !a.Deliver? || !Enabled(latency, s, a) then []
    else
      var c := s.calls[a.call];
      var g := s.tasks[c.chan.value].g;
      if Step(g, EventOf(c, a.indicesOk)).accepted == g.accepted then []
      else [Vote(c.chan.value, c.operator, c.message)]
  }

  ghost function Votes(latency: nat, states: seq<Service>, actions: seq<Action>, n: nat): seq<Vote>
    requires n <= |actions| <= |states|
  {
    if n == 0 then []
    else Votes(latency, states, actions, n - 1) + VoteOf(latency, states[n - 1], actions[n - 1])
  }

  /** Under one key an operator votes for one message, and once in each goroutine. */
  ghost predicate Compatible(v: Vote, w: Vote) {
    v.operator == w.operator && v.message.key == w.message.key ==> v.message == w.message && v.chan != w.chan
  }

  ghost predicate OneVote(votes: seq<Vote>) {
    forall i, j {:trigger Compatible(votes[i], votes[j])} :: 0 <= i < j < |votes| ==> Compatible(votes[i], votes[j])
  }

  /** What every goroutine of a key fetches: some quorum of it is asked for more than half. */
  ghost predicate Fetches(infos: map<MessageKey, Info>, q: QuorumNum, key: MessageKey, info: Info) {
    key in infos && infos[key] == info && MajorityAsked(info, q)
  }

  ghost predicate SameOperators(
    states: seq<Service>, actions: seq<Action>, n: nat, infos: map<MessageKey, Info>, q: QuorumNum)
    requires |states| == |actions| + 1 && n <= |actions|
  {
    forall i {:trigger actions[i]} :: 0 <= i < n && actions[i].FetchSucceeds? && actions[i].chan < |states[i].tasks| ==>
      Fetches(infos, q, states[i].tasks[actions[i].chan].key, actions[i].info)
  }

  // ---------------------------------------------------------------------------------------------
  // What every step keeps

  ghost predicate HasVoted(votes: seq<Vote>, o: OperatorId, m: Message) {
    exists i :: 0 <= i < |votes| && votes[i].operator == o && votes[i].message == m
  }

  /** `signers` have voted for `m`, and have the share asked for. */
  ghost predicate Elected(info: Info, q: QuorumNum, m: Message, signers: set<OperatorId>, votes: seq<Vote>) {
    && MajorityAsked(info, q) && signers <= info.operators.Keys
    && HasShareIn(info, signers, q)
    && forall o :: o in signers ==> HasVoted(votes, o, m)
  }

  ghost predicate Backed(infos: map<MessageKey, Info>, q: QuorumNum, r: Response, votes: seq<Vote>) {
    r.error == NoFailure ==>
      && r.message.Some? && r.message.value.key in infos
      && exists signers :: Elected(infos[r.message.value.key], q, r.message.value, signers, votes)
  }

  /** Goroutine `c` of `key` has accepted only votes, and one per operator. */
  ghost predicate Counted(c: nat, key: MessageKey, accepted: seq<Submission>, votes: seq<Vote>) {
    && Once(accepted)
    && forall i :: 0 <= i < |accepted| ==>
      accepted[i].digest.message.key == key && Vote(c, accepted[i].operator, accepted[i].digest.message) in votes
  }

  ghost predicate TaskVotes(infos: map<MessageKey, Info>, q: QuorumNum, c: nat, t: Task, votes: seq<Vote>) {
    t.Running? ==> Fetches(infos, q, t.key, t.g.info) && Counted(c, t.key, t.g.accepted, votes)
  }

  ghost predicate VoteInv(infos: map<MessageKey, Info>, q: QuorumNum, s: Service, votes: seq<Vote>) {
    && (forall c :: 0 <= c < |s.tasks| ==> TaskVotes(infos, q, c, s.tasks[c], votes))
    && (forall i :: 0 <= i < |s.log| ==> Backed(infos, q, s.log[i].response, votes))
  }

  /** Votes that were cast stay cast. */
  lemma MoreVotes(infos: map<MessageKey, Info>, q: QuorumNum, s: Service, votes: seq<Vote>, more: seq<Vote>)
    requires VoteInv(infos, q, s, votes)
    ensures VoteInv(infos, q, s, votes + more)
  {
    forall i | 0 <= i < |s.log| ensures Backed(infos, q, s.log[i].response, votes + more) {
      BackedByMore(infos, q, s.log[i].response, votes, more);
    }
    forall c | 0 <= c < |s.tasks| ensures TaskVotes(infos, q, c, s.tasks[c], votes + more) {
      assert TaskVotes(infos, q, c, s.tasks[c], votes);
    }
  }

  lemma BackedByMore(infos: map<MessageKey, Info>, q: QuorumNum, r: Response, votes: seq<Vote>, more: seq<Vote>)
    requires Backed(infos, q, r, votes)
    ensures Backed(infos, q, r, votes + more)
  {
    if r.error == NoFailure {
      var m := r.message.value;
      var signers :| Elected(infos[m.key], q, m, signers, votes);
      forall o | o in signers ensures HasVoted(votes + more, o, m) {
        var i :| 0 <= i < |votes| && votes[i].operator == o && votes[i].message == m;
        assert (votes + more)[i] == votes[i];
      }
      assert Elected(infos[m.key], q, m, signers, votes + more);
    }
  }

  /** What a goroutine in order has sent without error may be reported. */
  lemma EmittedIsReportable(g: Goroutine, r: Response)
    requires Inv(g) && r in g.emitted && r.error == NoFailure
    ensures r.message.Some? && Reportable(g, Digest(r.message.value))
  {
    if g.phase.Stopped? {
      var d :| ReportsOnly(g, d);
    }
  }

  /** And its signers have voted for it. */
  lemma ReportableIsElected(infos: map<MessageKey, Info>, q: QuorumNum, c: nat, key: MessageKey, g: Goroutine,
                            m: Message, votes: seq<Vote>)
    requires Inv(g) && Fetches(infos, q, key, g.info) && Counted(c, key, g.accepted, votes) && Reportable(g, Digest(m))
    ensures m.key == key && Elected(g.info, q, m, g.ledger.digests[Digest(m)].signers, votes)
  {
    var d := Digest(m);
    OnceIsAccurate(g.info, g.accepted);
    assert AccurateAt(g.info, g.ledger, d);
    var signers := g.ledger.digests[d].signers;
    assert Get(g.ledger.Total(d), q) == g.info.StakeOf(signers, q);
    forall o | o in signers ensures HasVoted(votes, o, m) && m.key == key {
      SignerHasVoted(c, key, g, m, votes, o);
    }
    assert g.ledger.digests[d].owner in signers;
  }

  lemma SignerHasVoted(c: nat, key: MessageKey, g: Goroutine, m: Message, votes: seq<Vote>, o: OperatorId)
    requires LedgerInv(g) && Counted(c, key, g.accepted, votes)
    requires Digest(m) in g.ledger.digests && o in g.ledger.digests[Digest(m)].signers
    ensures HasVoted(votes, o, m) && m.key == key
  {
    SignersAre(g.info, g.accepted, Digest(m));
    var s :| s in g.accepted && s.operator == o && s.digest == Digest(m);
    var i :| 0 <= i < |g.accepted| && g.accepted[i] == s;
    assert Vote(c, o, m) in votes;
  }

  /** One more vote, the first of its operator here. */
  lemma VoteIsCounted(c: nat, key: MessageKey, accepted: seq<Submission>, s: Submission, votes: seq<Vote>)
    requires Counted(c, key, accepted, votes) && s.digest.message.key == key
    requires OneVote(votes + [Vote(c, s.operator, s.digest.message)])
    ensures Counted(c, key, accepted + [s], votes + [Vote(c, s.operator, s.digest.message)])
  {
    var after := votes + [Vote(c, s.operator, s.digest.message)];
    forall i | 0 <= i < |accepted| ensures accepted[i].operator != s.operator {
      var x := accepted[i];
      var k :| 0 <= k < |votes| && votes[k] == Vote(c, x.operator, x.digest.message);
      assert after[k] == votes[k] && Compatible(after[k], after[|votes|]);
    }
    assert after[|votes|] == Vote(c, s.operator, s.digest.message);
  }

  /** What a step of goroutine `c` to `h` does to the service. */
  lemma ReceivedIs(s: Service, c: nat, e: Event)
    requires c < |s.tasks| && Live(s.tasks[c]) && WellFormed(s.tasks[c].g.info, s.tasks[c].g.ledger)
    ensures var r, t, h := Received(s, c, e), s.tasks[c], Step(s.tasks[c].g, e);
      && |r.tasks| == |s.tasks| && r.tasks[c].Running? && r.tasks[c].key == t.key && r.tasks[c].g == h
      && (forall i :: 0 <= i < |s.tasks| && i != c ==> r.tasks[i] == s.tasks[i])
      && |s.log| <= |r.log| && r.log[..|s.log|] == s.log
      && forall i :: |s.log| <= i < |r.log| ==> r.log[i].response in h.emitted
  {
    StepEmits(s.tasks[c].g, e);
    var r, t, h := Received(s, c, e), s.tasks[c], Step(s.tasks[c].g, e);
    forall i | |s.log| <= i < |r.log| ensures r.log[i].response in h.emitted {
      assert r.log[i].response == h.emitted[|t.g.emitted| + (i - |s.log|)];
    }
  }

  lemma ReceivedKeepsVoteInv(infos: map<MessageKey, Info>, q: QuorumNum, s: Service, c: nat, e: Event, votes: seq<Vote>)
    requires VoteInv(infos, q, s, votes) && c < |s.tasks| && Live(s.tasks[c])
    requires WellFormed(s.tasks[c].g.info, s.tasks[c].g.ledger) && Inv(Step(s.tasks[c].g, e))
    requires Fetches(infos, q, s.tasks[c].key, Step(s.tasks[c].g, e).info)
    requires Counted(c, s.tasks[c].key, Step(s.tasks[c].g, e).accepted, votes)
    ensures VoteInv(infos, q, Received(s, c, e), votes)
  {
    ReceivedIs(s, c, e);
    TaskAndLog(infos, q, s, c, Step(s.tasks[c].g, e), Received(s, c, e), votes);
  }

  lemma TaskAndLog(infos: map<MessageKey, Info>, q: QuorumNum, s: Service, c: nat, h: Goroutine, r: Service,
                   votes: seq<Vote>)
    requires VoteInv(infos, q, s, votes) && c < |s.tasks| == |r.tasks|
    requires r.tasks[c].Running? && r.tasks[c].key == s.tasks[c].key && r.tasks[c].g == h
    requires forall i :: 0 <= i < |s.tasks| && i != c ==> r.tasks[i] == s.tasks[i]
    requires |s.log| <= |r.log| && r.log[..|s.log|] == s.log
    requires forall i :: |s.log| <= i < |r.log| ==> r.log[i].response in h.emitted
    requires Inv(h) && Fetches(infos, q, s.tasks[c].key, h.info) && Counted(c, s.tasks[c].key, h.accepted, votes)
    ensures VoteInv(infos, q, r, votes)
  {
    forall i | 0 <= i < |r.tasks| ensures TaskVotes(infos, q, i, r.tasks[i], votes) {
      assert TaskVotes(infos, q, i, s.tasks[i], votes);
    }
    LogStaysBacked(infos, q, c, s.tasks[c].key, h, s.log, r.log, votes);
  }

  lemma LogStaysBacked(infos: map<MessageKey, Info>, q: QuorumNum, c: nat, key: MessageKey, g: Goroutine,
                       log: seq<Emission>, now: seq<Emission>, votes: seq<Vote>)
    requires |log| <= |now| && now[..|log|] == log
    requires forall i :: 0 <= i < |log| ==> Backed(infos, q, log[i].response, votes)
    requires forall i :: |log| <= i < |now| ==> now[i].response in g.emitted
    requires Inv(g) && Fetches(infos, q, key, g.info) && Counted(c, key, g.accepted, votes)
    ensures forall i :: 0 <= i < |now| ==> Backed(infos, q, now[i].response, votes)
  {
    forall i | 0 <= i < |now| ensures Backed(infos, q, now[i].response, votes) {
      if i < |log| {
        assert now[i] == now[..|log|][i] == log[i];
      } else {
        EmittedIsBacked(infos, q, c, key, g, now[i].response, votes);
      }
    }
  }

  lemma EmittedIsBacked(infos: map<MessageKey, Info>, q: QuorumNum, c: nat, key: MessageKey, g: Goroutine,
                        r: Response, votes: seq<Vote>)
    requires Inv(g) && Fetches(infos, q, key, g.info) && Counted(c, key, g.accepted, votes) && r in g.emitted
    ensures Backed(infos, q, r, votes)
  {
    if r.error == NoFailure {
      EmittedIsReportable(g, r);
      ReportableIsElected(infos, q, c, key, g, r.message.value, votes);
    }
  }

  /** What a goroutine has accepted after a signature is counted in the votes after it. */
  lemma StepIsCounted(c: nat, key: MessageKey, g: Goroutine, e: Event, votes: seq<Vote>)
    requires WellFormed(g.info, g.ledger) && !g.phase.Stopped? && e.SignedMessage? && e.message.key == key
    requires Counted(c, key, g.accepted, votes)
    requires Step(g, e).accepted != g.accepted ==> OneVote(votes + [Vote(c, e.operator, e.message)])
    ensures Step(g, e).accepted == g.accepted ||
      Counted(c, key, Step(g, e).accepted, votes + [Vote(c, e.operator, e.message)])
  {
    StepAccepts(g, e);
    if Step(g, e).accepted != g.accepted {
      VoteIsCounted(c, key, g.accepted, SubmissionOf(e), votes);
    }
  }

  lemma DeliverIsCounted(latency: nat, s: Service, i: nat, ok: bool, votes: seq<Vote>)
    requires Enabled(latency, s, Deliver(i, ok)) && OneVote(votes + VoteOf(latency, s, Deliver(i, ok)))
    requires s.calls[i].message.key == s.tasks[s.calls[i].chan.value].key
    requires var c := s.calls[i].chan.value; Counted(c, s.tasks[c].key, s.tasks[c].g.accepted, votes)
    ensures var c := s.calls[i].chan.value;
      Counted(c, s.tasks[c].key, Step(s.tasks[c].g, EventOf(s.calls[i], ok)).accepted,
        votes + VoteOf(latency, s, Deliver(i, ok)))
  {
    var c := s.calls[i].chan.value;
    StepIsCounted(c, s.tasks[c].key, s.tasks[c].g, EventOf(s.calls[i], ok), votes);
    if VoteOf(latency, s, Deliver(i, ok)) == [] {
      assert votes + [] == votes;
    }
  }

  /** The goroutine a signature or a timer reaches is in order, and stays so. */
  lemma GoroutineSteps(infos: map<MessageKey, Info>, q: QuorumNum, latency: nat, s: Service, c: nat, e: Event,
                       votes: seq<Vote>)
    requires VoteInv(infos, q, s, votes) && ServiceInv(latency, s) && c < |s.tasks| && Live(s.tasks[c])
    ensures WellFormed(s.tasks[c].g.info, s.tasks[c].g.ledger) && Inv(Step(s.tasks[c].g, e))
    ensures Fetches(infos, q, s.tasks[c].key, Step(s.tasks[c].g, e).info)
    ensures Counted(c, s.tasks[c].key, s.tasks[c].g.accepted, votes)
  {
    assert BlsService.TaskInv(latency, s.now, s.tasks[c]) && TaskVotes(infos, q, c, s.tasks[c], votes);
    StepKeepsInv(s.tasks[c].g, e);
    StepKeepsWellFormed(s.tasks[c].g, e);
  }

  lemma DeliverKeepsVoteInv(infos: map<MessageKey, Info>, q: QuorumNum, latency: nat, s: Service, i: nat, ok: bool,
                            votes: seq<Vote>)
    requires VoteInv(infos, q, s, votes) && ServiceInv(latency, s) && Enabled(latency, s, Deliver(i, ok))
    requires OneVote(votes + VoteOf(latency, s, Deliver(i, ok)))
    ensures VoteInv(infos, q, Next(latency, s, Deliver(i, ok)), votes + VoteOf(latency, s, Deliver(i, ok)))
  {
    var c, e := s.calls[i].chan.value, EventOf(s.calls[i], ok);
    var vote := VoteOf(latency, s, Deliver(i, ok));
    assert CallInv(s, s.calls[i]);
    GoroutineSteps(infos, q, latency, s, c, e, votes);
    DeliverIsCounted(latency, s, i, ok, votes);
    MoreVotes(infos, q, s, votes, vote);
    ReceivedKeepsVoteInv(infos, q, WithoutCall(s, i), c, e, votes + vote);
  }

  lemma TimerKeepsVoteInv(infos: map<MessageKey, Info>, q: QuorumNum, latency: nat, s: Service, c: nat, ok: bool,
                          votes: seq<Vote>)
    requires VoteInv(infos, q, s, votes) && ServiceInv(latency, s) && Enabled(latency, s, TimerFires(c, ok))
    ensures VoteInv(infos, q, Next(latency, s, TimerFires(c, ok)), votes)
  {
    GoroutineSteps(infos, q, latency, s, c, Timer(ok), votes);
    StepAccepts(s.tasks[c].g, Timer(ok));
    ReceivedKeepsVoteInv(infos, q, s, c, Timer(ok), votes);
  }

  lemma OtherKeepsVoteInv(infos: map<MessageKey, Info>, q: QuorumNum, latency: nat, s: Service, a: Action,
                          votes: seq<Vote>)
    requires VoteInv(infos, q, s, votes) && Enabled(latency, s, a) && !a.Deliver? && !a.TimerFires?
    requires a.FetchSucceeds? ==> Fetches(infos, q, s.tasks[a.chan].key, a.info)
    ensures VoteInv(infos, q, Next(latency, s, a), votes)
  {
    var r := Next(latency, s, a);
    forall c | 0 <= c < |r.tasks| ensures TaskVotes(infos, q, c, r.tasks[c], votes) {
      assert c < |s.tasks| ==> TaskVotes(infos, q, c, s.tasks[c], votes);
    }
  }

  lemma NextKeepsVoteInv(infos: map<MessageKey, Info>, q: QuorumNum, latency: nat, s: Service, a: Action,
                         votes: seq<Vote>)
    requires VoteInv(infos, q, s, votes) && ServiceInv(latency, s) && Enabled(latency, s, a)
    requires OneVote(votes + VoteOf(latency, s, a))
    requires a.FetchSucceeds? ==> Fetches(infos, q, s.tasks[a.chan].key, a.info)
    ensures VoteInv(infos, q, Next(latency, s, a), votes + VoteOf(latency, s, a))
  {
    if a.Deliver? {
      DeliverKeepsVoteInv(infos, q, latency, s, a.call, a.indicesOk, votes);
    } else {
      assert votes + VoteOf(latency, s, a) == votes;
      if a.TimerFires? {
        TimerKeepsVoteInv(infos, q, latency, s, a.chan, a.indicesOk, votes);
      } else {
        OtherKeepsVoteInv(infos, q, latency, s, a, votes);
      }
    }
  }

  // ---------------------------------------------------------------------------------------------
  // Whole runs

  lemma OneVoteBefore(votes: seq<Vote>, all: seq<Vote>)
    requires votes <= all && OneVote(all)
    ensures OneVote(votes)
  {
    forall i, j | 0 <= i < j < |votes| ensures Compatible(votes[i], votes[j]) {
      assert all[i] == votes[i] && all[j] == votes[j] && Compatible(all[i], all[j]);
    }
  }

  lemma OneVoteOneLess(latency: nat, states: seq<Service>, actions: seq<Action>, n: nat)
    requires 0 < n <= |actions| <= |states| && OneVote(Votes(latency, states, actions, n))
    ensures OneVote(Votes(latency, states, actions, n - 1))
  {
    OneVoteBefore(Votes(latency, states, actions, n - 1), Votes(latency, states, actions, n));
  }

  lemma {:induction false} OneVoteEarlier(
    latency: nat, states: seq<Service>, actions: seq<Action>, k: nat, n: nat)
    requires k <= n <= |actions| <= |states| && OneVote(Votes(latency, states, actions, n))
    ensures OneVote(Votes(latency, states, actions, k))
  {
    if k < n {
      OneVoteOneLess(latency, states, actions, n);
      OneVoteEarlier(latency, states, actions, k, n - 1);
    }
  }

  /** At every moment `k` of a run whose first `n` actions vote and fetch as they should. */
  lemma {:induction false} VoteInvThroughout(
    latency: nat, states: seq<Service>, actions: seq<Action>, k: nat, n: nat, infos: map<MessageKey, Info>,
    q: QuorumNum)
    requires IsRun(latency, states, actions) && k <= n <= |actions|
    requires OneVote(Votes(latency, states, actions, n)) && SameOperators(states, actions, n, infos, q)
    ensures VoteInv(infos, q, states[k], Votes(latency, states, actions, k))
  {
    if k > 0 {
      VoteInvThroughout(latency, states, actions, k - 1, n, infos, q);
      OneVoteEarlier(latency, states, actions, k, n);
      RunKeepsVoteInv(latency, states, actions, k, n, infos, q);
    }
  }

  lemma RunKeepsVoteInv(
    latency: nat, states: seq<Service>, actions: seq<Action>, k: nat, n: nat, infos: map<MessageKey, Info>,
    q: QuorumNum)
    requires IsRun(latency, states, actions) && 0 < k <= n <= |actions|
    requires OneVote(Votes(latency, states, actions, k)) && SameOperators(states, actions, n, infos, q)
    requires VoteInv(infos, q, states[k - 1], Votes(latency, states, actions, k - 1))
    ensures VoteInv(infos, q, states[k], Votes(latency, states, actions, k))
  {
    var s, a := states[k - 1], actions[k - 1];
    InvThroughout(latency, states, actions, k - 1);
    assert states[k] == Next(latency, s, a);
    var votes := Votes(latency, states, actions, k - 1);
    assert Votes(latency, states, actions, k) == votes + VoteOf(latency, s, a);
    NextKeepsVoteInv(infos, q, latency, s, a, votes);
  }

  lemma OneMessage(votes: seq<Vote>, o: OperatorId, m: Message, k: Message)
    requires OneVote(votes) && HasVoted(votes, o, m) && HasVoted(votes, o, k) && m.key == k.key
    ensures m == k
  {
    var i :| 0 <= i < |votes| && votes[i].operator == o && votes[i].message == m;
    var j :| 0 <= j < |votes| && votes[j].operator == o && votes[j].message == k;
    assert i < j ==> Compatible(votes[i], votes[j]);
    assert j < i ==> Compatible(votes[j], votes[i]);
  }

  /** Two messages elected under one key are one. */
  lemma OneElected(info: Info, q: QuorumNum, m: Message, k: Message, some: set<OperatorId>, others: set<OperatorId>,
                   votes: seq<Vote>)
    requires Elected(info, q, m, some, votes) && Elected(info, q, k, others, votes) && m.key == k.key && OneVote(votes)
    ensures m == k
  {
    if o :| o in some && o in others {
      OneMessage(votes, o, m, k);
    } else {
      DisjointMajorities(info, some, others, q);
    }
  }

  lemma SameReport(infos: map<MessageKey, Info>, q: QuorumNum, r: Response, t: Response, votes: seq<Vote>)
    requires Backed(infos, q, r, votes) && Backed(infos, q, t, votes) && OneVote(votes)
    requires r.error == NoFailure && t.error == NoFailure && r.message.value.key == t.message.value.key
    ensures r.message == t.message
  {
    var m, k := r.message.value, t.message.value;
    var some :| Elected(infos[m.key], q, m, some, votes);
    var others :| Elected(infos[k.key], q, k, others, votes);
    OneElected(infos[m.key], q, m, k, some, others, votes);
  }

  /** What is filed was reported. */
  lemma {:induction false} FiledWasReported(log: seq<Emission>, i: nat)
    requires i < |Filed(log)|
    ensures exists j ::
      0 <= j < |log| && log[j].response.error == NoFailure && log[j].response.message == Some(Filed(log)[i].message)
  {
    var n := |log| - 1;
    if i < |Filed(log[..n])| {
      FiledWasReported(log[..n], i);
      var j :| 0 <= j < n && log[..n][j].response.error == NoFailure &&
        log[..n][j].response.message == Some(Filed(log[..n])[i].message);
      assert log[j] == log[..n][j];
    } else {
      assert log[n].response.message == Some(Filed(log)[i].message);
    }
  }

  /** Every row of the table comes from a report. */
  lemma {:induction false} RowWasReported(reports: seq<Reported>, i: nat) returns (j: nat)
    requires i < |TableOf(reports)|
    ensures j < |reports| && reports[j].message.key == TableOf(reports)[i].message.key
  {
    var n := |reports| - 1;
    if i < |TableOf(reports[..n])| {
      j := RowWasReported(reports[..n], i);
    } else {
      j := n;
    }
  }

  lemma {:induction false} FirstReport(reports: seq<Reported>, key: MessageKey, j: nat) returns (first: nat)
    requires j < |reports| && reports[j].message.key == key
    ensures first <= j && FirstOf(reports, key, first)
    decreases j
  {
    if k :| 0 <= k < j && reports[k].message.key == key {
      first := FirstReport(reports, key, k);
    } else {
      first := j;
    }
  }

  ghost predicate HasItsOwn(row: Row) {
    row.aggregation.Some? && row.aggregation.value.digest == Digest(row.message)
  }

  /** What is filed under one key was sent for one message. */
  lemma OneReport(infos: map<MessageKey, Info>, q: QuorumNum, log: seq<Emission>, votes: seq<Vote>, i: nat, j: nat)
    requires OneVote(votes) && forall k :: 0 <= k < |log| ==> Backed(infos, q, log[k].response, votes)
    requires i < |Filed(log)| && j < |Filed(log)| && Filed(log)[i].message.key == Filed(log)[j].message.key
    ensures Filed(log)[i].message == Filed(log)[j].message
  {
    FiledWasReported(log, i);
    FiledWasReported(log, j);
    var a :| 0 <= a < |log| && log[a].response.error == NoFailure &&
      log[a].response.message == Some(Filed(log)[i].message);
    var b :| 0 <= b < |log| && log[b].response.error == NoFailure &&
      log[b].response.message == Some(Filed(log)[j].message);
    SameReport(infos, q, log[a].response, log[b].response, votes);
  }

  ghost predicate OnePerKey(reports: seq<Reported>) {
    forall j, k :: 0 <= j < |reports| && 0 <= k < |reports| ==>
      reports[j].message.key == reports[k].message.key ==> reports[j].message == reports[k].message
  }

  lemma OneMessagePerKey(reports: seq<Reported>, i: nat)
    requires OnePerKey(reports) && i < |TableOf(reports)|
    ensures HasItsOwn(TableOf(reports)[i])
  {
    var rows := TableOf(reports);
    var key := rows[i].message.key;
    var j := RowWasReported(reports, i);
    var first := FirstReport(reports, key, j);
    var last := LastBefore(reports, key, first);
    PairedIffSameMessage(reports, key, first, last);
    assert Find(rows, key) == i;
  }

  /**
   * In every run in which operators vote for one message per key, once in each goroutine, and the
   * goroutines of a key fetch the same operators, every message filed is filed with its own
   * aggregation, however late the responses sent are handled and whatever they read by then.
   */
  lemma FiledWithItsOwn(
    latency: nat, states: seq<Service>, actions: seq<Action>, n: nat, infos: map<MessageKey, Info>, q: QuorumNum,
    handled: nat, reports: seq<Reported>, i: nat)
    requires IsRun(latency, states, actions) && n <= |actions|
    requires OneVote(Votes(latency, states, actions, n)) && SameOperators(states, actions, n, infos, q)
    requires handled <= |states[n].log| && Handles(reports, states[n].log[..handled]) && i < |TableOf(reports)|
    ensures HasItsOwn(TableOf(reports)[i])
  {
    VoteInvThroughout(latency, states, actions, n, n, infos, q);
    HandledWithItsOwn(infos, q, states[n].log, Votes(latency, states, actions, n), handled, reports, i);
  }

  lemma HandledWithItsOwn(infos: map<MessageKey, Info>, q: QuorumNum, log: seq<Emission>, votes: seq<Vote>,
                          handled: nat, reports: seq<Reported>, i: nat)
    requires OneVote(votes) && forall k :: 0 <= k < |log| ==> Backed(infos, q, log[k].response, votes)
    requires handled <= |log| && Handles(reports, log[..handled]) && i < |TableOf(reports)|
    ensures HasItsOwn(TableOf(reports)[i])
  {
    forall j, k | 0 <= j < |reports| && 0 <= k < |reports| && reports[j].message.key == reports[k].message.key
      ensures reports[j].message == reports[k].message
    {
      OneReport(infos, q, log[..handled], votes, j, k);
    }
    OneMessagePerKey(reports, i);
  }

  lemma ListedWithItsOwn(
    latency: nat, states: seq<Service>, actions: seq<Action>, n: nat, infos: map<MessageKey, Info>, q: QuorumNum,
    f: Checkpoint.Fetch, blockTime: nat, from: nat, to: nat, l: Listing, k: nat)
    requires IsRun(latency, states, actions) && n <= |actions|
    requires OneVote(Votes(latency, states, actions, n)) && SameOperators(states, actions, n, infos, q)
    requires Checkpoint.InOrder(latency, states, n, blockTime, f)
    requires Returned(TableOf(f.reports), from, to, l) && k < |l.messages|
    ensures k < |l.aggregations| && l.aggregations[k].digest == Digest(l.messages[k])
  {
    FiledWithItsOwn(latency, states, actions, n, infos, q, f.handled, f.reports, l.picked[k]);
  }

  /**
   * So, in addition, checkpoints fetched each at a time of its own return every message filed in their
   * whole span once, and at the same place in the other list its own aggregation.
   */
  lemma CheckpointsPairOnce(
    interval: nat, chain: seq<Checkpoint.System>, moves: seq<Checkpoint.Action>, c: nat, latency: nat,
    states: seq<Service>, actions: seq<Action>, n: nat, infos: map<MessageKey, Info>, q: QuorumNum,
    fetches: seq<Checkpoint.Fetch>, listings: seq<Listing>, m: Message)
    requires Checkpoint.IsRun(interval, chain, moves) && c < |chain| && chain[c].tasks != []
    requires forall i :: 0 < i < |chain[c].tasks| ==> chain[c].tasks[i].reading.last != 0
    requires IsRun(latency, states, actions) && Checkpoint.AllInOrder(latency, states, n, chain[c].tasks, fetches)
    requires n <= |actions| && OneVote(Votes(latency, states, actions, n))
    requires SameOperators(states, actions, n, infos, q)
    requires Checkpoint.AllReturned(chain[c].tasks, fetches, listings)
    ensures Checkpoint.ReturnOnce(chain[c].tasks, listings, TableOf(Filed(states[n].log)), m)
    ensures forall i, k :: 0 <= i < |listings| && 0 <= k < |listings[i].messages| ==>
      k < |listings[i].aggregations| && listings[i].aggregations[k].digest == Digest(listings[i].messages[k])
  {
    Checkpoint.CheckpointsCoverOnce(interval, chain, moves, c, latency, states, actions, n, fetches, listings, m);
    forall i, k | 0 <= i < |listings| && 0 <= k < |listings[i].messages|
      ensures k < |listings[i].aggregations| && listings[i].aggregations[k].digest == Digest(listings[i].messages[k])
    {
      var t := chain[c].tasks[i];
      assert Checkpoint.InOrder(latency, states, n, t.reading.blockTime, fetches[i]);
      ListedWithItsOwn(latency, states, actions, n, infos, q, fetches[i], t.reading.blockTime, t.window.from,
        t.window.to, listings[i], k);
    }
  }
}
