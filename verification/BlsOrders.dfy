/**
 * Two runs of the goroutine of one message on the same operators, in which signatures may arrive in
 * different orders, or not at all.
 */
module BlsOrders {
  import opened Sums
  import opened BlsTypes
  import opened BlsLedger
  import opened BlsGoroutine
  import opened BlsReadings

  // ---------------------------------------------------------------------------------------------
  // What two reports have in common

  /** The signers of a message that is reported have the share asked for, if the totals are right. */
  lemma ReportHasShare(info: Info, events: seq<Event>, r: Response, q: QuorumNum)
    requires Sound(info) && q in info.thresholds && HarmlessThroughout(info, AcceptedIn(info, events))
    requires r in Run(info, events).emitted && r.error == NoFailure
    ensures r.message.Some?
    ensures var signers := SignersOn(AcceptedIn(info, events), Digest(r.message.value));
      signers <= info.operators.Keys && HasShareIn(info, signers, q)
  {
    var subs := AcceptedIn(info, events);
    RunReportsOneMessage(info, events, r, r);
    RunAccurateIffHarmless(info, subs);
    var l, d := AcceptAll(info, subs), Digest(r.message.value);
    SignersAre(info, subs, d);
    assert AccurateAt(info, l, d);
    assert Get(l.Total(d), q) == info.StakeOf(l.digests[d].signers, q);
  }

  /**
   * Whatever two runs report, the operators that were accepted on the one report in the one run and on
   * the other in the other have at least the stake by which two thresholds exceed the whole; provided
   * that what was accepted in each run was harmless.
   */
  lemma ReportsShareSigners(info: Info, some: seq<Event>, others: seq<Event>, r: Response, s: Response, q: QuorumNum)
    requires Sound(info) && MajorityAsked(info, q)
    requires HarmlessThroughout(info, AcceptedIn(info, some)) && HarmlessThroughout(info, AcceptedIn(info, others))
    requires r in Run(info, some).emitted && s in Run(info, others).emitted
    requires r.error == NoFailure && s.error == NoFailure
    ensures r.message.Some? && s.message.Some?
    ensures var both := SignersOn(AcceptedIn(info, some), Digest(r.message.value)) *
                        SignersOn(AcceptedIn(info, others), Digest(s.message.value));
      && both <= info.operators.Keys && both != {}
      && 100 * info.StakeOf(both, q) >= (2 * info.thresholds[q] - 100) * Get(info.totalStake, q)
  {
    ReportHasShare(info, some, r, q);
    ReportHasShare(info, others, s, q);
    MajoritiesOverlap(info, SignersOn(AcceptedIn(info, some), Digest(r.message.value)),
      SignersOn(AcceptedIn(info, others), Digest(s.message.value)), q);
  }

  /** No operator was accepted on one digest in the one run and on another in the other. */
  ghost predicate Loyal(some: seq<Submission>, others: seq<Submission>) {
    forall s, t :: s in some && t in others && s.operator == t.operator ==> s.digest == t.digest
  }

  /** So if nobody was accepted on two digests across the runs, both report the same message. */
  lemma LoyalRunsAgree(info: Info, some: seq<Event>, others: seq<Event>, r: Response, s: Response, q: QuorumNum)
    requires Sound(info) && MajorityAsked(info, q) && Loyal(AcceptedIn(info, some), AcceptedIn(info, others))
    requires HarmlessThroughout(info, AcceptedIn(info, some)) && HarmlessThroughout(info, AcceptedIn(info, others))
    requires r in Run(info, some).emitted && s in Run(info, others).emitted
    requires r.error == NoFailure && s.error == NoFailure
    ensures r.message == s.message
  {
    ReportsShareSigners(info, some, others, r, s, q);
    var o :| o in SignersOn(AcceptedIn(info, some), Digest(r.message.value)) *
                  SignersOn(AcceptedIn(info, others), Digest(s.message.value));
    var x :| x in AcceptedIn(info, some) && x.digest == Digest(r.message.value) && x.operator == o;
    var y :| y in AcceptedIn(info, others) && y.digest == Digest(s.message.value) && y.operator == o;
  }

  // ---------------------------------------------------------------------------------------------
  // Orders of arrival

  ghost function SubmissionsOf(events: seq<Event>): seq<Submission> {
    if events == [] then []
    else
      var e := events[|events| - 1];
      SubmissionsOf(events[..|events| - 1]) + (if e.SignedMessage? then [SubmissionOf(e)] else [])
  }

  /** The accepted submissions are some of those made, so no operator gains a second one. */
  lemma {:induction false} AcceptedWereSubmitted(info: Info, events: seq<Event>)
    requires Once(SubmissionsOf(events))
    ensures var accepted := AcceptedIn(info, events);
      Once(accepted) && forall s <- accepted :: s in SubmissionsOf(events)
  {
    if events != [] {
      var front, e := events[..|events| - 1], events[|events| - 1];
      var g := Run(info, front);
      OnceFront(events);
      AcceptedWereSubmitted(info, front);
      if !g.phase.Stopped? {
        StepAccepts(g, e);
        if e.SignedMessage? {
          OnceAppend(SubmissionsOf(front), g.accepted, SubmissionOf(e));
        }
      }
    }
  }

  lemma OnceFront(events: seq<Event>)
    requires Once(SubmissionsOf(events)) && events != []
    ensures Once(SubmissionsOf(events[..|events| - 1]))
  {
    var subs := SubmissionsOf(events[..|events| - 1]);
    assert forall i :: 0 <= i < |subs| ==> SubmissionsOf(events)[i] == subs[i];
  }

  lemma OnceAppend(subs: seq<Submission>, some: seq<Submission>, s: Submission)
    requires Once(subs + [s]) && Once(some) && forall x <- some :: x in subs
    ensures Once(some + [s])
  {
    forall i | 0 <= i < |some| ensures some[i].operator != s.operator {
      assert some[i] in some;
      var k :| 0 <= k < |subs| && subs[k] == some[i];
      assert (subs + [s])[k].operator != (subs + [s])[|subs|].operator;
    }
  }

  lemma OnceIsHarmless(info: Info, subs: seq<Submission>)
    requires Registered(info, subs) && Once(subs)
    ensures HarmlessThroughout(info, subs)
  {
    OnceIsAccurate(info, subs);
    RunAccurateIffHarmless(info, subs);
  }

  /**
   * Any two arrival orders of the same submissions, one per operator, whatever the timers and the
   * index fetches do: if each reports a message without error, they report the same message.
   */
  lemma OrderIndependence(info: Info, some: seq<Event>, others: seq<Event>, r: Response, s: Response, q: QuorumNum)
    requires Sound(info) && MajorityAsked(info, q)
    requires Once(SubmissionsOf(some)) && Once(SubmissionsOf(others))
    requires multiset(SubmissionsOf(some)) == multiset(SubmissionsOf(others))
    requires r in Run(info, some).emitted && s in Run(info, others).emitted
    requires r.error == NoFailure && s.error == NoFailure
    ensures r.message == s.message
  {
    AcceptedWereSubmitted(info, some);
    AcceptedWereSubmitted(info, others);
    OnceIsHarmless(info, AcceptedIn(info, some));
    OnceIsHarmless(info, AcceptedIn(info, others));
    OnceIsLoyal(SubmissionsOf(some), SubmissionsOf(others), AcceptedIn(info, some), AcceptedIn(info, others));
    LoyalRunsAgree(info, some, others, r, s, q);
  }

  lemma OnceIsLoyal(subs: seq<Submission>, same: seq<Submission>, some: seq<Submission>, others: seq<Submission>)
    requires Once(subs) && multiset(subs) == multiset(same)
    requires (forall x <- some :: x in subs) && forall x <- others :: x in same
    ensures Loyal(some, others)
  {
    forall s, t | s in some && t in others && s.operator == t.operator ensures s.digest == t.digest {
      assert t in multiset(same);
      assert s in subs && t in subs;
    }
  }

  // ---------------------------------------------------------------------------------------------
  // An order that matters

  /** After the threshold another message is ignored. */
  lemma OtherIsIgnored(m: Message, k: Message, o: Point)
    requires m != k
    ensures WellFormed(Thirds(), AfterTwo(m).ledger) && Step(AfterTwo(m), Signs(k, o)) == AfterTwo(m)
  {
    ThirdSigns(m);
  }

  /** The first two operators sign `m`, and then `k`. */
  ghost function BothSign(m: Message, k: Message): seq<Event> {
    [Signs(m, 1), Signs(m, 2)] + [Signs(k, 1)] + [Signs(k, 2)]
  }

  lemma FirstIsReported(m: Message, k: Message)
    requires m != k
    ensures Run(Thirds(), BothSign(m, k)) == AfterTwo(m)
    ensures Once(AcceptedIn(Thirds(), BothSign(m, k)))
  {
    TwoSign(m);
    OtherIsIgnored(m, k, 1);
    OtherIsIgnored(m, k, 2);
    var events := [Signs(m, 1), Signs(m, 2)];
    RunNext(Thirds(), events, Signs(k, 1), AfterTwo(m), AfterTwo(m));
    RunNext(Thirds(), events + [Signs(k, 1)], Signs(k, 2), AfterTwo(m), AfterTwo(m));
  }

  lemma SubmitsOneMore(events: seq<Event>, e: Event)
    requires e.SignedMessage?
    ensures multiset(SubmissionsOf(events + [e])) == multiset(SubmissionsOf(events)) + multiset{SubmissionOf(e)}
  {
    assert (events + [e])[..|events|] == events;
  }

  lemma TwoSubmissions(a: Event, b: Event)
    requires a.SignedMessage? && b.SignedMessage?
    ensures multiset(SubmissionsOf([a, b])) == multiset{SubmissionOf(a)} + multiset{SubmissionOf(b)}
  {
    assert [] + [a] == [a] && [a] + [b] == [a, b];
    SubmitsOneMore([], a);
    SubmitsOneMore([a], b);
  }

  lemma FourSubmissions(a: Event, b: Event, c: Event, e: Event)
    requires a.SignedMessage? && b.SignedMessage? && c.SignedMessage? && e.SignedMessage?
    ensures multiset(SubmissionsOf([a, b] + [c] + [e])) ==
            multiset{SubmissionOf(a)} + multiset{SubmissionOf(b)}
            + multiset{SubmissionOf(c)} + multiset{SubmissionOf(e)}
  {
    TwoSubmissions(a, b);
    SubmitsOneMore([a, b], c);
    SubmitsOneMore([a, b] + [c], e);
  }

  lemma SameSubmissions(m: Message, k: Message)
    ensures multiset(SubmissionsOf(BothSign(m, k))) == multiset(SubmissionsOf(BothSign(k, m)))
  {
    FourSubmissions(Signs(m, 1), Signs(m, 2), Signs(k, 1), Signs(k, 2));
    FourSubmissions(Signs(k, 1), Signs(k, 2), Signs(m, 1), Signs(m, 2));
  }

  lemma ThirdsMajority()
    ensures MajorityAsked(Thirds(), 0)
  {
    var info := Thirds();
    assert info.operators.Keys == {1} + {2} + {3};
    StakeOfOne(info, 1, 0);
    StakeOfMore(info, {1}, 2, 0);
    StakeOfMore(info, {1} + {2}, 3, 0);
  }

  /**
   * Two of three operators sign two messages. The same submissions, `m` first or `k` first: each run
   * accepts each operator once, and they report different messages.
   */
  lemma OrderMatters(m: Message, k: Message)
    requires m != k
    ensures Sound(Thirds()) && MajorityAsked(Thirds(), 0)
    ensures multiset(SubmissionsOf(BothSign(m, k))) == multiset(SubmissionsOf(BothSign(k, m)))
    ensures Once(AcceptedIn(Thirds(), BothSign(m, k))) && Once(AcceptedIn(Thirds(), BothSign(k, m)))
    ensures Run(Thirds(), BothSign(m, k)).emitted == [ThirdsResponse(m, ThresholdReached, 3, {1, 2})]
    ensures Run(Thirds(), BothSign(k, m)).emitted == [ThirdsResponse(k, ThresholdReached, 3, {1, 2})]
  {
    FirstIsReported(m, k);
    FirstIsReported(k, m);
    SameSubmissions(m, k);
    ThirdsKeys(m);
    ThirdsMajority();
  }
}
