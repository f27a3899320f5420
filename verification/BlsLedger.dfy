/**
 * What a message's goroutine accumulates per digest, with the sharing the program has: the stake
 * record of a digest IS the stake record of the operator that signed it first (its owner), so adding
 * to the digest's total rewrites that operator's record, and a record may serve several digests.
 */
module BlsLedger {
  import opened Sums
  import opened BlsTypes

  datatype Aggregated = Aggregated(apkG2: Point, sig: Point, owner: OperatorId, signers: set<OperatorId>)

  /** `stakes` holds each operator's record as it stands now; `digests` refers to records by owner. */
  datatype Ledger = Ledger(stakes: map<OperatorId, Stakes>, digests: map<Digest, Aggregated>)
  {
    ghost predicate Owns(o: OperatorId, d: Digest) { d in digests && digests[d].owner == o }

    /** The stake accumulated for `d`: the record of the owner of `d`. */
    function Total(d: Digest): Stakes
      requires d in digests && digests[d].owner in stakes
    {
      stakes[digests[d].owner]
    }
  }

  datatype Submission = Submission(operator: OperatorId, digest: Digest, sig: Point)

  function InitialLedger(info: Info): Ledger {
    Ledger(map o | o in info.operators :: info.operators[o].stakePerQuorum, map[])
  }

  /** The ledger after a verified submission. */
  function Accept(info: Info, l: Ledger, s: Submission): (r: Ledger)
    requires WellFormed(info, l) && s.operator in info.operators
  {
    var pubkey := info.operators[s.operator].pubkeyG2;
    if s.digest !in l.digests then
      l.(digests := l.digests[s.digest := Aggregated(Plus(0, pubkey), s.sig, s.operator, {s.operator})])
    else
      var a := l.digests[s.digest];
      Ledger(
        l.stakes[a.owner := AddStakes(l.stakes[a.owner], l.stakes[s.operator])],
        l.digests[s.digest := Aggregated(Plus(a.apkG2, pubkey), Plus(a.sig, s.sig), a.owner, a.signers + {s.operator})])
  }

  predicate WellFormed(info: Info, l: Ledger) {
    && l.stakes.Keys == info.operators.Keys
    && forall d <- l.digests ::
      l.digests[d].owner in l.digests[d].signers && l.digests[d].signers <= info.operators.Keys
  }

  /** Only the records of owners ever change. */
  ghost predicate Untouched(info: Info, l: Ledger)
    requires WellFormed(info, l)
  {
    forall o {:trigger l.stakes[o]} :: o in l.stakes && (forall d :: !l.Owns(o, d)) ==>
      l.stakes[o] == info.operators[o].stakePerQuorum
  }

  ghost predicate Consistent(info: Info, l: Ledger) {
    WellFormed(info, l) && Untouched(info, l)
  }

  /** Every digest's total is the stake its signers were fetched with. */
  ghost predicate Accurate(info: Info, l: Ledger)
    requires Consistent(info, l)
  {
    forall d <- l.digests :: AccurateAt(info, l, d)
  }

  ghost predicate AccurateAt(info: Info, l: Ledger, d: Digest)
    requires Consistent(info, l) && d in l.digests
  {
    forall q {:trigger Get(l.Total(d), q)} {:trigger info.StakeOf(l.digests[d].signers, q)} ::
      Get(l.Total(d), q) == info.StakeOf(l.digests[d].signers, q)
  }

  lemma InitialIsAccurate(info: Info)
    ensures Consistent(info, InitialLedger(info)) && Accurate(info, InitialLedger(info))
  {
  }

  lemma AcceptKeepsConsistent(info: Info, l: Ledger, s: Submission)
    requires Consistent(info, l) && s.operator in info.operators
    ensures Consistent(info, Accept(info, l, s))
  {
    var r := Accept(info, l, s);
    forall o <- r.stakes | forall d :: !r.Owns(o, d)
      ensures r.stakes[o] == info.operators[o].stakePerQuorum
    {
      assert !r.Owns(o, s.digest);
      forall d ensures !l.Owns(o, d) {
        assert !r.Owns(o, d);
      }
    }
  }

  /** No total ever falls, whatever is accepted and however often. */
  lemma AcceptIsMonotone(info: Info, l: Ledger, s: Submission, d: Digest, q: QuorumNum)
    requires WellFormed(info, l) && s.operator in info.operators && d in l.digests
    ensures var r := Accept(info, l, s);
      WellFormed(info, r) && d in r.digests && Get(r.Total(d), q) >= Get(l.Total(d), q)
  {
  }

  // ---------------------------------------------------------------------------------------------
  // When the totals are right

  /** The operator's record reads what was fetched for it. */
  ghost predicate AsFetched(info: Info, l: Ledger, o: OperatorId)
    requires o in l.stakes && o in info.operators
  {
    forall q {:trigger Get(l.stakes[o], q)} :: Get(l.stakes[o], q) == Get(info.operators[o].stakePerQuorum, q)
  }

  /** Adding the operator's record adds nothing. */
  ghost predicate AddsNothing(l: Ledger, o: OperatorId)
    requires o in l.stakes
  {
    forall q {:trigger Get(l.stakes[o], q)} :: Get(l.stakes[o], q) == 0
  }

  /** The record that holds the total of `d` serves another digest too. */
  ghost predicate Serves(l: Ledger, d: Digest)
    requires d in l.digests
  {
    exists e :: e != d && l.Owns(l.digests[d].owner, e)
  }

  /**
   * The submissions that leave every total right. Whoever is on the digest already must have nothing
   * to add; anybody else's record must read as fetched, and have nothing to add if the record it is
   * added to serves another digest.
   */
  ghost predicate Harmless(info: Info, l: Ledger, s: Submission)
    requires WellFormed(info, l) && s.operator in info.operators
  {
    if s.digest in l.digests && s.operator in l.digests[s.digest].signers then AddsNothing(l, s.operator)
    else
      && AsFetched(info, l, s.operator)
      && (s.digest in l.digests && Serves(l, s.digest) ==> AddsNothing(l, s.operator))
  }

  /** What accepting `s` makes of the total of a digest that was known. */
  lemma TotalAfter(info: Info, l: Ledger, s: Submission, e: Digest, q: QuorumNum)
    requires WellFormed(info, l) && s.operator in info.operators && e in l.digests
    ensures var r := Accept(info, l, s);
      && WellFormed(info, r) && e in r.digests
      && r.digests[e].signers == l.digests[e].signers + (if e == s.digest then {s.operator} else {})
      && Get(r.Total(e), q) == Get(l.Total(e), q) +
           if s.digest in l.digests && l.digests[e].owner == l.digests[s.digest].owner
           then Get(l.stakes[s.operator], q) else 0
  {
  }

  lemma HarmlessKeepsAccurateAt(info: Info, l: Ledger, s: Submission, e: Digest)
    requires Consistent(info, l) && (e in l.digests ==> AccurateAt(info, l, e))
    requires s.operator in info.operators && Harmless(info, l, s)
    requires Consistent(info, Accept(info, l, s)) && e in Accept(info, l, s).digests
    ensures AccurateAt(info, Accept(info, l, s), e)
  {
    var r := Accept(info, l, s);
    forall q ensures Get(r.Total(e), q) == info.StakeOf(r.digests[e].signers, q) {
      assert s.operator in l.stakes && Get(l.stakes[s.operator], q) >= 0;
      if e !in l.digests {
        StakeOfOne(info, s.operator, q);
      } else {
        TotalAfter(info, l, s, e, q);
        assert l.digests[e].signers + {} == l.digests[e].signers;
        if e != s.digest {
          assert s.digest in l.digests && l.digests[e].owner == l.digests[s.digest].owner ==>
            l.Owns(l.digests[s.digest].owner, e);
        } else if s.operator in l.digests[e].signers {
          assert l.digests[e].signers + {s.operator} == l.digests[e].signers;
        } else {
          StakeOfMore(info, l.digests[e].signers, s.operator, q);
        }
      }
    }
  }

  /** A digest whose total is right afterwards tells what was added to it. */
  lemma AccurateTells(info: Info, l: Ledger, s: Submission, e: Digest, q: QuorumNum)
    requires Consistent(info, l) && (e in l.digests ==> AccurateAt(info, l, e)) && s.operator in info.operators
    requires e == s.digest || (s.digest in l.digests && l.Owns(l.digests[s.digest].owner, e))
    requires Consistent(info, Accept(info, l, s)) && AccurateAt(info, Accept(info, l, s), e)
    ensures Get(l.stakes[s.operator], q) ==
      if e == s.digest && !(e in l.digests && s.operator in l.digests[e].signers)
      then Get(info.operators[s.operator].stakePerQuorum, q) else 0
  {
    var r := Accept(info, l, s);
    assert Get(r.Total(e), q) == info.StakeOf(r.digests[e].signers, q);
    if e !in l.digests {
      StakeOfOne(info, s.operator, q);
    } else {
      TotalAfter(info, l, s, e, q);
      assert l.digests[e].signers + {} == l.digests[e].signers;
      if e == s.digest && s.operator !in l.digests[e].signers {
        StakeOfMore(info, l.digests[e].signers, s.operator, q);
      } else if e == s.digest {
        assert l.digests[e].signers + {s.operator} == l.digests[e].signers;
      }
    }
  }

  lemma AccurateMeansHarmless(info: Info, l: Ledger, s: Submission)
    requires Consistent(info, l) && Accurate(info, l) && s.operator in info.operators
    requires Consistent(info, Accept(info, l, s)) && Accurate(info, Accept(info, l, s))
    ensures Harmless(info, l, s)
  {
    forall q ensures Get(l.stakes[s.operator], q) ==
      if s.digest in l.digests && s.operator in l.digests[s.digest].signers then 0
      else Get(info.operators[s.operator].stakePerQuorum, q)
    {
      AccurateTells(info, l, s, s.digest, q);
    }
    if s.digest in l.digests && Serves(l, s.digest) {
      var e :| e != s.digest && l.Owns(l.digests[s.digest].owner, e);
      forall q ensures Get(l.stakes[s.operator], q) == 0 {
        AccurateTells(info, l, s, e, q);
      }
    }
  }

  /** Exactly the harmless submissions keep every total right. */
  lemma AcceptAccurateIffHarmless(info: Info, l: Ledger, s: Submission)
    requires Consistent(info, l) && Accurate(info, l) && s.operator in info.operators
    ensures Consistent(info, Accept(info, l, s))
    ensures Accurate(info, Accept(info, l, s)) <==> Harmless(info, l, s)
  {
    AcceptKeepsConsistent(info, l, s);
    var r := Accept(info, l, s);
    if Accurate(info, r) {
      AccurateMeansHarmless(info, l, s);
    }
    if Harmless(info, l, s) {
      forall e <- r.digests ensures AccurateAt(info, r, e) {
        HarmlessKeepsAccurateAt(info, l, s, e);
      }
    }
  }

  // ---------------------------------------------------------------------------------------------
  // The same seen from who has signed what

  /**
   * What is harmless whatever stakes were fetched: the operator owns no digest that others signed;
   * and if the digest is known, the operator is not on it and its record serves no other digest.
   */
  ghost predicate SafeToAccept(l: Ledger, s: Submission) {
    && (forall e :: l.Owns(s.operator, e) ==> l.digests[e].signers == {s.operator})
    && (s.digest in l.digests ==> s.operator !in l.digests[s.digest].signers && !Serves(l, s.digest))
  }

  /** The operator has no stake in any quorum. */
  ghost predicate Stakeless(info: Info, o: OperatorId)
    requires o in info.operators
  {
    forall q {:trigger Get(info.operators[o].stakePerQuorum, q)} :: Get(info.operators[o].stakePerQuorum, q) == 0
  }

  /** Nobody with stake signed, beside `o`, a digest whose total is kept in the record of `o`. */
  ghost predicate AloneInRecord(info: Info, l: Ledger, o: OperatorId)
    requires WellFormed(info, l)
  {
    forall e, p :: l.Owns(o, e) && p in l.digests[e].signers && p != o ==> Stakeless(info, p)
  }

  /** No total is below the stake of its signers. */
  ghost predicate AtLeast(info: Info, l: Ledger)
    requires Consistent(info, l)
  {
    forall d <- l.digests :: AtLeastAt(info, l, d)
  }

  ghost predicate AtLeastAt(info: Info, l: Ledger, d: Digest)
    requires Consistent(info, l) && d in l.digests
  {
    forall q {:trigger Get(l.Total(d), q)} {:trigger info.StakeOf(l.digests[d].signers, q)} ::
      Get(l.Total(d), q) >= info.StakeOf(l.digests[d].signers, q)
  }

  /** So no record is below what was fetched. */
  lemma RecordAtLeast(info: Info, l: Ledger, o: OperatorId, q: QuorumNum)
    requires Consistent(info, l) && AtLeast(info, l) && o in info.operators
    ensures Get(l.stakes[o], q) >= Get(info.operators[o].stakePerQuorum, q)
  {
    if d :| l.Owns(o, d) {
      assert AtLeastAt(info, l, d);
      StakeOfSubset(info, {o}, l.digests[d].signers, q);
      StakeOfOne(info, o, q);
    }
  }

  /** What another signer adds to a record that still reads as fetched: nothing. */
  lemma OtherAddsNothing(info: Info, l: Ledger, d: Digest, other: OperatorId, q: QuorumNum)
    requires Consistent(info, l) && d in l.digests && AccurateAt(info, l, d)
    requires other in l.digests[d].signers && other != l.digests[d].owner
    requires Get(l.Total(d), q) == Get(info.operators[l.digests[d].owner].stakePerQuorum, q)
    ensures Get(info.operators[other].stakePerQuorum, q) == 0
  {
    var o := l.digests[d].owner;
    StakeOfOne(info, o, q);
    StakeOfMore(info, {o}, other, q);
    StakeOfSubset(info, {o} + {other}, l.digests[d].signers, q);
    assert Get(l.Total(d), q) == info.StakeOf(l.digests[d].signers, q);
  }

  /** A record reads as fetched exactly while only operators without stake were added to it. */
  lemma AsFetchedIffAlone(info: Info, l: Ledger, o: OperatorId)
    requires Consistent(info, l) && Accurate(info, l) && o in info.operators
    ensures AsFetched(info, l, o) <==> AloneInRecord(info, l, o)
  {
    if AsFetched(info, l, o) {
      forall e, p | l.Owns(o, e) && p in l.digests[e].signers && p != o ensures Stakeless(info, p) {
        forall q ensures Get(info.operators[p].stakePerQuorum, q) == 0 {
          assert AccurateAt(info, l, e);
          OtherAddsNothing(info, l, e, p, q);
        }
      }
    }
    if AloneInRecord(info, l, o) {
      forall q ensures Get(l.stakes[o], q) == Get(info.operators[o].stakePerQuorum, q) {
        if d :| l.Owns(o, d) {
          assert AccurateAt(info, l, d);
          assert forall p <- l.digests[d].signers :: p != o ==> Stakeless(info, p);
          StakeOfAlone(info, l.digests[d].signers, o, q);
        }
      }
    }
  }

  /** It adds nothing exactly while they have none and its own operator has none either. */
  lemma AddsNothingIffStakeless(info: Info, l: Ledger, o: OperatorId)
    requires Consistent(info, l) && Accurate(info, l) && o in info.operators
    ensures AddsNothing(l, o) <==> Stakeless(info, o) && AloneInRecord(info, l, o)
  {
    AsFetchedIffAlone(info, l, o);
    if AddsNothing(l, o) {
      forall d <- l.digests ensures AtLeastAt(info, l, d) {
        assert AccurateAt(info, l, d);
      }
      forall q ensures Get(info.operators[o].stakePerQuorum, q) == 0 {
        RecordAtLeast(info, l, o, q);
      }
    }
  }

  /** Exactly which submissions are harmless, by who signed what and with which stake. */
  lemma HarmlessIffAlone(info: Info, l: Ledger, s: Submission)
    requires Consistent(info, l) && Accurate(info, l) && s.operator in info.operators
    ensures Harmless(info, l, s) <==>
      && AloneInRecord(info, l, s.operator)
      && (s.digest in l.digests && (s.operator in l.digests[s.digest].signers || Serves(l, s.digest)) ==>
          Stakeless(info, s.operator))
  {
    AsFetchedIffAlone(info, l, s.operator);
    AddsNothingIffStakeless(info, l, s.operator);
  }

  /**
   * A repeated submission is harmless exactly if its operator has no stake, and nobody with stake
   * signed a digest whose total is kept in its record.
   */
  lemma RepeatHarmlessIff(info: Info, l: Ledger, s: Submission)
    requires Consistent(info, l) && Accurate(info, l)
    requires s.digest in l.digests && s.operator in l.digests[s.digest].signers
    ensures Harmless(info, l, s) <==> Stakeless(info, s.operator) && AloneInRecord(info, l, s.operator)
  {
    AddsNothingIffStakeless(info, l, s.operator);
  }

  /** If every operator has stake, the harmless submissions are the safe ones. */
  lemma HarmlessIffSafe(info: Info, l: Ledger, s: Submission)
    requires Consistent(info, l) && Accurate(info, l) && info.Staked() && s.operator in info.operators
    ensures Harmless(info, l, s) <==> SafeToAccept(l, s)
  {
    HarmlessIffAlone(info, l, s);
    forall o <- info.operators ensures !Stakeless(info, o) {
      var q :| Get(info.operators[o].stakePerQuorum, q) > 0;
    }
    if AloneInRecord(info, l, s.operator) {
      forall e | l.Owns(s.operator, e) ensures l.digests[e].signers == {s.operator} {
      }
    }
  }

  lemma SafeKeepsAccurate(info: Info, l: Ledger, s: Submission)
    requires Consistent(info, l) && Accurate(info, l) && s.operator in info.operators
    requires SafeToAccept(l, s)
    ensures Consistent(info, Accept(info, l, s)) && Accurate(info, Accept(info, l, s))
  {
    HarmlessIffAlone(info, l, s);
    AcceptAccurateIffHarmless(info, l, s);
  }

  /** Two operators, the second without stake. */
  ghost function OneStakeless(): Info {
    Info(map[1 := Operator(1, 1, map[0 := 2]), 2 := Operator(2, 2, map[0 := 0])], map[0 := 2], map[0 := 66],
      (d: Digest) => 1)
  }

  /**
   * The one without stake signs first, so that its record keeps the total; after the other has signed
   * too, its second signature adds all of that total again.
   */
  lemma StakelessRepeatIsCounted(d: Digest)
    ensures var info, s := OneStakeless(), Submission(2, d, 2);
      && WellFormed(info, InitialLedger(info))
      && var first := Accept(info, InitialLedger(info), s);
      && WellFormed(info, first) && Harmless(info, first, s)
      && var second := Accept(info, first, Submission(1, d, 1));
      && WellFormed(info, second) && Get(second.Total(d), 0) == 2 && !Harmless(info, second, s)
      && var third := Accept(info, second, s);
      && WellFormed(info, third) && third.digests[d].signers == {1, 2} && Get(third.Total(d), 0) == 4
  {
    var info, s := OneStakeless(), Submission(2, d, 2);
    var first := Accept(info, InitialLedger(info), s);
    StakelessFirst(d);
    StakelessSecond(info, first, d);
    var second := Accept(info, first, Submission(1, d, 1));
    TotalAfter(info, second, s, d, 0);
    assert {2} + {1} + {2} == {1, 2};
  }

  lemma StakelessFirst(d: Digest)
    ensures var info, s := OneStakeless(), Submission(2, d, 2);
      && WellFormed(info, InitialLedger(info))
      && var first := Accept(info, InitialLedger(info), s);
      && WellFormed(info, first) && first.Owns(2, d) && first.digests[d].signers == {2}
      && Get(first.stakes[1], 0) == 2 && Get(first.stakes[2], 0) == 0 && Harmless(info, first, s)
  {
  }

  lemma StakelessSecond(info: Info, l: Ledger, d: Digest)
    requires WellFormed(info, l) && 1 in info.operators && l.Owns(2, d) && l.digests[d].signers == {2}
    requires Get(l.stakes[1], 0) == 2 && Get(l.stakes[2], 0) == 0
    ensures var r := Accept(info, l, Submission(1, d, 1));
      && WellFormed(info, r) && r.Owns(2, d) && r.digests[d].signers == {2} + {1}
      && Get(r.stakes[2], 0) == 2 && !Harmless(info, r, Submission(2, d, 2))
  {
    TotalAfter(info, l, Submission(1, d, 1), d, 0);
  }

  // ---------------------------------------------------------------------------------------------
  // Whole runs

  /** The ledger after a sequence of verified submissions. */
  ghost function AcceptAll(info: Info, subs: seq<Submission>): (l: Ledger)
    requires Registered(info, subs)
    ensures Consistent(info, l)
  {
    if subs == [] then InitialLedger(info)
    else
      var before := AcceptAll(info, subs[..|subs| - 1]);
      AcceptKeepsConsistent(info, before, subs[|subs| - 1]);
      Accept(info, before, subs[|subs| - 1])
  }

  ghost predicate Registered(info: Info, subs: seq<Submission>) {
    forall s <- subs :: s.operator in info.operators
  }

  /** Each submission is harmless in the ledger it meets. */
  ghost predicate HarmlessThroughout(info: Info, subs: seq<Submission>)
    requires Registered(info, subs)
  {
    subs != [] ==>
      var n := |subs| - 1;
      HarmlessThroughout(info, subs[..n]) && Harmless(info, AcceptAll(info, subs[..n]), subs[n])
  }

  /** What a total has too much it keeps, whatever is accepted. */
  lemma ExcessStays(info: Info, l: Ledger, s: Submission, e: Digest, q: QuorumNum)
    requires Consistent(info, l) && AtLeast(info, l) && s.operator in info.operators && e in l.digests
    ensures var r := Accept(info, l, s);
      && WellFormed(info, r) && e in r.digests
      && Get(r.Total(e), q) - info.StakeOf(r.digests[e].signers, q) >=
         Get(l.Total(e), q) - info.StakeOf(l.digests[e].signers, q)
  {
    TotalAfter(info, l, s, e, q);
    RecordAtLeast(info, l, s.operator, q);
    var signers := l.digests[e].signers;
    assert signers + {} == signers;
    if s.operator in signers {
      assert signers + {s.operator} == signers;
    } else {
      StakeOfMore(info, signers, s.operator, q);
    }
  }

  lemma AcceptKeepsAtLeast(info: Info, l: Ledger, s: Submission)
    requires Consistent(info, l) && AtLeast(info, l) && s.operator in info.operators
    ensures Consistent(info, Accept(info, l, s)) && AtLeast(info, Accept(info, l, s))
  {
    AcceptKeepsConsistent(info, l, s);
    var r := Accept(info, l, s);
    forall e, q | e in r.digests ensures Get(r.Total(e), q) >= info.StakeOf(r.digests[e].signers, q) {
      if e in l.digests {
        assert AtLeastAt(info, l, e);
        ExcessStays(info, l, s, e, q);
      } else {
        StakeOfOne(info, s.operator, q);
        RecordAtLeast(info, l, s.operator, q);
      }
    }
  }

  /** A wrong total never comes right again. */
  lemma AccurateWasAccurate(info: Info, l: Ledger, s: Submission)
    requires Consistent(info, l) && AtLeast(info, l) && s.operator in info.operators
    requires Consistent(info, Accept(info, l, s)) && Accurate(info, Accept(info, l, s))
    ensures Accurate(info, l)
  {
    var r := Accept(info, l, s);
    forall e, q | e in l.digests ensures Get(l.Total(e), q) == info.StakeOf(l.digests[e].signers, q) {
      ExcessStays(info, l, s, e, q);
      assert AtLeastAt(info, l, e) && AccurateAt(info, r, e);
      assert Get(r.Total(e), q) == info.StakeOf(r.digests[e].signers, q);
    }
  }

  lemma {:induction false} RunAtLeast(info: Info, subs: seq<Submission>)
    requires Registered(info, subs)
    ensures AtLeast(info, AcceptAll(info, subs))
  {
    if subs != [] {
      var n := |subs| - 1;
      RunAtLeast(info, subs[..n]);
      AcceptKeepsAtLeast(info, AcceptAll(info, subs[..n]), subs[n]);
    }
  }

  /** Whether the totals are right at the end tells of the whole run: exactly if every submission was harmless. */
  lemma {:induction false} RunAccurateIffHarmless(info: Info, subs: seq<Submission>)
    requires Registered(info, subs)
    ensures Accurate(info, AcceptAll(info, subs)) <==> HarmlessThroughout(info, subs)
  {
    if subs == [] {
      InitialIsAccurate(info);
    } else {
      var n := |subs| - 1;
      var l := AcceptAll(info, subs[..n]);
      RunAccurateIffHarmless(info, subs[..n]);
      if Accurate(info, AcceptAll(info, subs)) {
        RunAtLeast(info, subs[..n]);
        AccurateWasAccurate(info, l, subs[n]);
      }
      if Accurate(info, l) {
        AcceptAccurateIffHarmless(info, l, subs[n]);
      }
    }
  }

  /** Each submission is safe in the ledger it meets. */
  ghost predicate SafeThroughout(info: Info, subs: seq<Submission>)
    requires Registered(info, subs)
  {
    subs != [] ==>
      var n := |subs| - 1;
      SafeThroughout(info, subs[..n]) && SafeToAccept(AcceptAll(info, subs[..n]), subs[n])
  }

  lemma {:induction false} HarmlessThroughoutIffSafe(info: Info, subs: seq<Submission>)
    requires Registered(info, subs) && info.Staked()
    ensures HarmlessThroughout(info, subs) <==> SafeThroughout(info, subs)
  {
    if subs != [] {
      var n := |subs| - 1;
      HarmlessThroughoutIffSafe(info, subs[..n]);
      if HarmlessThroughout(info, subs[..n]) {
        RunAccurateIffHarmless(info, subs[..n]);
        HarmlessIffSafe(info, AcceptAll(info, subs[..n]), subs[n]);
      }
    }
  }

  /** If every operator has stake, that is exactly if every submission was safe. */
  lemma RunAccurateIffSafe(info: Info, subs: seq<Submission>)
    requires Registered(info, subs) && info.Staked()
    ensures Accurate(info, AcceptAll(info, subs)) <==> SafeThroughout(info, subs)
  {
    RunAccurateIffHarmless(info, subs);
    HarmlessThroughoutIffSafe(info, subs);
  }

  ghost predicate HasSigned(l: Ledger, o: OperatorId) {
    exists d :: d in l.digests && o in l.digests[d].signers
  }

  /** No operator signed two digests. */
  ghost predicate Exclusive(l: Ledger) {
    forall d, e, o {:trigger o in l.digests[d].signers, o in l.digests[e].signers} ::
      d in l.digests && e in l.digests && o in l.digests[d].signers && o in l.digests[e].signers ==> d == e
  }

  /** A first submission of an operator is safe while no operator signed two digests. */
  lemma FirstSubmissionIsSafe(info: Info, l: Ledger, s: Submission)
    requires Consistent(info, l) && Exclusive(l) && s.operator in info.operators && !HasSigned(l, s.operator)
    ensures SafeToAccept(l, s) && Exclusive(Accept(info, l, s))
  {
    var r := Accept(info, l, s);
    assert forall e :: l.Owns(s.operator, e) ==> s.operator in l.digests[e].signers;
    if s.digest in l.digests {
      var o := l.digests[s.digest].owner;
      forall e | l.Owns(o, e) ensures e == s.digest {
        assert o in l.digests[e].signers && o in l.digests[s.digest].signers;
      }
    }
    forall d, e, o | d in r.digests && e in r.digests && o in r.digests[d].signers && o in r.digests[e].signers
      ensures d == e
    {
      assert (d in l.digests && o in l.digests[d].signers) || (d == s.digest && o == s.operator);
      assert (e in l.digests && o in l.digests[e].signers) || (e == s.digest && o == s.operator);
    }
  }

  ghost function OperatorsOf(subs: seq<Submission>): set<OperatorId> { set s <- subs :: s.operator }

  /** Each operator submits at most once. */
  ghost predicate Once(subs: seq<Submission>) {
    forall i, j :: 0 <= i < j < |subs| ==> subs[i].operator != subs[j].operator
  }

  /** With one submission per operator, all totals are right and no operator is on two digests. */
  lemma {:induction false} OnceIsAccurate(info: Info, subs: seq<Submission>)
    requires Registered(info, subs) && Once(subs)
    ensures var l := AcceptAll(info, subs);
      Accurate(info, l) && Exclusive(l) && forall o :: HasSigned(l, o) ==> o in OperatorsOf(subs)
  {
    if subs == [] {
      InitialIsAccurate(info);
    } else {
      var front, s := subs[..|subs| - 1], subs[|subs| - 1];
      assert subs == front + [s];
      OnceIsAccurate(info, front);
      FirstSubmissionIsSafe(info, AcceptAll(info, front), s);
      SafeKeepsAccurate(info, AcceptAll(info, front), s);
      forall o | HasSigned(AcceptAll(info, subs), o) ensures o in OperatorsOf(subs) {
        SignersGrowByOne(info, AcceptAll(info, front), s, o);
      }
    }
  }

  lemma SignersGrowByOne(info: Info, l: Ledger, s: Submission, o: OperatorId)
    requires WellFormed(info, l) && s.operator in info.operators
    ensures HasSigned(Accept(info, l, s), o) <==> HasSigned(l, o) || o == s.operator
  {
    var r := Accept(info, l, s);
    assert s.operator in r.digests[s.digest].signers;
    if d :| d in l.digests && o in l.digests[d].signers {
      assert o in r.digests[d].signers;
    }
    if d :| d in r.digests && o in r.digests[d].signers {
      assert o == s.operator || (d in l.digests && o in l.digests[d].signers);
    }
  }

  /** Who has a submission on digest `d`. */
  ghost function SignersOn(subs: seq<Submission>, d: Digest): set<OperatorId> {
    set s <- subs | s.digest == d :: s.operator
  }

  ghost function SignersIn(l: Ledger, d: Digest): set<OperatorId> {
    if d in l.digests then l.digests[d].signers else {}
  }

  lemma AcceptAddsSigner(info: Info, l: Ledger, s: Submission, d: Digest)
    requires WellFormed(info, l) && s.operator in info.operators
    ensures SignersIn(Accept(info, l, s), d) == SignersIn(l, d) + if s.digest == d then {s.operator} else {}
  {
  }

  lemma SignersOnSnoc(subs: seq<Submission>, s: Submission, d: Digest)
    ensures SignersOn(subs + [s], d) == SignersOn(subs, d) + if s.digest == d then {s.operator} else {}
  {
  }

  /** They are the signers that the ledger has. */
  lemma {:induction false} SignersAre(info: Info, subs: seq<Submission>, d: Digest)
    requires Registered(info, subs)
    ensures SignersIn(AcceptAll(info, subs), d) == SignersOn(subs, d)
  {
    if subs != [] {
      var front, s := subs[..|subs| - 1], subs[|subs| - 1];
      assert subs == front + [s];
      SignersAre(info, front, d);
      AcceptAddsSigner(info, AcceptAll(info, front), s, d);
      SignersOnSnoc(front, s, d);
    }
  }

  // ---------------------------------------------------------------------------------------------
  // Keys and signatures

  /** Every digest's aggregate signature verifies under its aggregate key. */
  ghost predicate Signed(info: Info, l: Ledger) {
    forall d <- l.digests :: Verifies(info, l.digests[d].sig, l.digests[d].apkG2, d)
  }

  /** Aggregation keeps signatures valid, even when an operator is counted more than once. */
  lemma AcceptKeepsSigned(info: Info, l: Ledger, s: Submission)
    requires WellFormed(info, l) && Signed(info, l) && s.operator in info.operators
    requires Verifies(info, s.sig, info.operators[s.operator].pubkeyG2, s.digest)
    ensures Signed(info, Accept(info, l, s))
  {
    var r, pubkey := Accept(info, l, s), info.operators[s.operator].pubkeyG2;
    if s.digest in l.digests {
      ScaleAdds(info.hashToG1(s.digest), l.digests[s.digest].apkG2, pubkey);
      assert Verifies(info, r.digests[s.digest].sig, r.digests[s.digest].apkG2, s.digest);
    } else {
      assert Plus(0, pubkey) == pubkey;
    }
  }

  /** Every digest's aggregate key is the sum of its signers' keys. */
  ghost predicate Keyed(info: Info, l: Ledger)
    requires WellFormed(info, l)
  {
    forall d <- l.digests :: l.digests[d].apkG2 == Reduce(Sum(l.digests[d].signers, info.KeysG2()))
  }

  lemma KeyOfMore(info: Info, signers: set<OperatorId>, o: OperatorId)
    requires signers <= info.operators.Keys && o in info.operators && o !in signers
    ensures Plus(Reduce(Sum(signers, info.KeysG2())), info.operators[o].pubkeyG2) ==
            Reduce(Sum(signers + {o}, info.KeysG2()))
  {
    var pubkey := info.operators[o].pubkeyG2;
    SumInsert(signers, info.KeysG2(), o);
    assert Reduce(pubkey) == pubkey;
    ReduceAdds(Sum(signers, info.KeysG2()), pubkey);
  }

  lemma AcceptKeepsKeyed(info: Info, l: Ledger, s: Submission)
    requires WellFormed(info, l) && Keyed(info, l) && s.operator in info.operators
    requires s.digest in l.digests ==> s.operator !in l.digests[s.digest].signers
    ensures WellFormed(info, Accept(info, l, s)) && Keyed(info, Accept(info, l, s))
  {
    if s.digest in l.digests {
      KeyOfMore(info, l.digests[s.digest].signers, s.operator);
    } else {
      SumSingleton(info.KeysG2(), s.operator);
    }
  }

  /** With one submission per operator, the keys add up too. */
  lemma {:induction false} OnceIsKeyed(info: Info, subs: seq<Submission>)
    requires Registered(info, subs) && Once(subs)
    ensures Keyed(info, AcceptAll(info, subs))
  {
    if subs != [] {
      var front, s := subs[..|subs| - 1], subs[|subs| - 1];
      OnceIsKeyed(info, front);
      OnceIsAccurate(info, front);
      assert s.operator !in OperatorsOf(front);
      assert !HasSigned(AcceptAll(info, front), s.operator);
      AcceptKeepsKeyed(info, AcceptAll(info, front), s);
    }
  }

  // ---------------------------------------------------------------------------------------------
  // Agreement

  /** What a total needs for its digest to be reported: in each quorum, the threshold's share. */
  predicate ThresholdsMet(info: Info, signed: Stakes) {
    forall q <- info.thresholds :: 100 * Get(signed, q) >= info.thresholds[q] * Get(info.totalStake, q)
  }

  /** The registry's totals are the operators' stakes, and some quorum is asked for more than half. */
  ghost predicate MajorityAsked(info: Info, q: QuorumNum) {
    && q in info.thresholds && info.thresholds[q] >= 51
    && 0 < Get(info.totalStake, q) == info.StakeOf(info.operators.Keys, q)
  }

  /** The operators have the share asked for in quorum `q`. */
  ghost predicate HasShareIn(info: Info, signers: set<OperatorId>, q: QuorumNum)
    requires signers <= info.operators.Keys && q in info.thresholds
  {
    100 * info.StakeOf(signers, q) >= info.thresholds[q] * Get(info.totalStake, q)
  }

  ghost predicate HasShare(info: Info, signers: set<OperatorId>)
    requires signers <= info.operators.Keys
  {
    forall q <- info.thresholds :: HasShareIn(info, signers, q)
  }

  /** Groups that both have it share operators, with what the two shares exceed the whole by. */
  lemma MajoritiesOverlap(info: Info, some: set<OperatorId>, others: set<OperatorId>, q: QuorumNum)
    requires MajorityAsked(info, q) && some <= info.operators.Keys && others <= info.operators.Keys
    requires HasShareIn(info, some, q) && HasShareIn(info, others, q)
    ensures 100 * info.StakeOf(some * others, q) >= (2 * info.thresholds[q] - 100) * Get(info.totalStake, q)
    ensures some * others != {}
  {
    var both := some * others;
    SumPart(some, both, info.StakeIn(q));
    assert some - both + others == some + others;
    SumUnion(some - both, others, info.StakeIn(q));
    StakeOfSubset(info, some + others, info.operators.Keys, q);
    TwoShares(info.StakeOf(some, q), info.StakeOf(others, q), info.StakeOf(both, q), info.thresholds[q],
      Get(info.totalStake, q));
  }

  lemma TwoShares(some: int, others: int, both: int, asked: nat, total: nat)
    requires 100 * some >= asked * total && 100 * others >= asked * total && some + others - both <= total
    requires asked >= 51 && total > 0
    ensures 100 * both >= (2 * asked - 100) * total && both > 0
  {
    assert (2 * asked - 100) * total == asked * total + asked * total - 100 * total;
    assert asked * total >= 51 * total;
  }

  /** So disjoint groups cannot both have it. */
  lemma DisjointMajorities(info: Info, some: set<OperatorId>, others: set<OperatorId>, q: QuorumNum)
    requires MajorityAsked(info, q)
    requires some + others <= info.operators.Keys && some !! others
    ensures !(HasShareIn(info, some, q) && HasShareIn(info, others, q))
  {
    if HasShareIn(info, some, q) && HasShareIn(info, others, q) {
      MajoritiesOverlap(info, some, others, q);
    }
  }

  /** While no operator is on two digests, at most one digest meets the thresholds. */
  lemma Agreement(info: Info, l: Ledger, d: Digest, e: Digest, q: QuorumNum)
    requires Consistent(info, l) && Accurate(info, l) && Exclusive(l)
    requires MajorityAsked(info, q)
    requires d in l.digests && e in l.digests && ThresholdsMet(info, l.Total(d)) && ThresholdsMet(info, l.Total(e))
    ensures d == e
  {
    if d != e {
      assert AccurateAt(info, l, d) && AccurateAt(info, l, e);
      DisjointMajorities(info, l.digests[d].signers, l.digests[e].signers, q);
    }
  }

  /** Two operators with one and two thirds of the stake of quorum 0. */
  ghost function UnequalOperators(): Info {
    Info(map[1 := Operator(1, 1, map[0 := 1]), 2 := Operator(1, 1, map[0 := 2])], map[0 := 3], map[0 := 66],
      (d: Digest) => 1)
  }

  /**
   * Why each operator must be accepted once: the smaller operator signing twice is counted twice,
   * and so has the share asked for, which its own stake is not.
   */
  lemma RepeatMeetsThreshold(d: Digest)
    ensures var info, s := UnequalOperators(), Submission(1, d, 1);
      && WellFormed(info, InitialLedger(info))
      && var once := Accept(info, InitialLedger(info), s);
      && WellFormed(info, once)
      && var twice := Accept(info, once, s);
      && WellFormed(info, twice) && twice.digests[d].signers == {1}
      && !ThresholdsMet(info, once.Total(d)) && ThresholdsMet(info, twice.Total(d))
  {
    var info, s := UnequalOperators(), Submission(1, d, 1);
    var once := Accept(info, InitialLedger(info), s);
    assert once.Total(d) == map[0 := 1];
    assert !ThresholdsMet(info, once.Total(d)) by {
      assert 0 in info.thresholds && 100 * Get(once.Total(d), 0) < info.thresholds[0] * Get(info.totalStake, 0);
    }
    var twice := Accept(info, once, s);
    assert twice.Total(d) == AddStakes(once.Total(d), once.Total(d));
    assert Get(twice.Total(d), 0) == 2;
  }
}
