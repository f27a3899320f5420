/**
 * The goroutine's code as it runs on the heap. Stakes, keys and signatures are objects that are
 * added to in place: the first signer's own stake record serves as the digest's total, and every
 * response holds the digest's own key and signature.
 */
module BlsAggregator {
  import opened SortedIds
  import opened BlsTypes
  import opened BlsLedger
  import opened BlsGoroutine
  import opened BlsReadings

  class StakeRecord {
    var perQuorum: Stakes
    ghost const operator: OperatorId

    constructor (operator: OperatorId, perQuorum: Stakes)
      ensures this.operator == operator && this.perQuorum == perQuorum
    {
      this.operator := operator;
      this.perQuorum := perQuorum;
    }

    /** Adds `other` quorum by quorum. `other` may be this very record. */
    method Add(other: StakeRecord)
      modifies this
      ensures perQuorum == AddStakes(old(perQuorum), old(other.perQuorum))
    {
      ghost var acc, more := perQuorum, other.perQuorum;
      var quorums := other.perQuorum.Keys;
      while quorums != {}
        invariant quorums <= more.Keys
        invariant perQuorum.Keys == acc.Keys + (more.Keys - quorums)
        invariant forall q :: Get(perQuorum, q) == Get(acc, q) + if q in more.Keys - quorums then Get(more, q) else 0
        invariant other != this ==> other.perQuorum == more
        decreases quorums
      {
        var q :| q in quorums;
        assert Get(other.perQuorum, q) == Get(more, q);
        var soFar := if q in perQuorum then perQuorum[q] else 0;
        perQuorum := perQuorum[q := soFar + other.perQuorum[q]];
        quorums := quorums - {q};
      }
      assert forall q :: Get(perQuorum, q) == Get(AddStakes(acc, more), q);
      assert forall q <- perQuorum :: perQuorum[q] == Get(perQuorum, q);
    }
  }

  /**
   * The aggregate key and the aggregate signature of a digest: two point objects that are handed
   * around together and added to in place.
   */
  class PointPair {
    var apkG2: Point
    var aggSig: Point
    ghost const digest: Digest

    constructor (apkG2: Point, aggSig: Point, ghost digest: Digest)
      ensures this.apkG2 == apkG2 && this.aggSig == aggSig && this.digest == digest
    {
      this.apkG2, this.aggSig, this.digest := apkG2, aggSig, digest;
    }

    /** A signature that verifies under its key, added to one that does, gives one that does. */
    method Add(pubkey: Point, sig: Point)
      modifies this
      ensures apkG2 == Plus(old(apkG2), pubkey) && aggSig == Plus(old(aggSig), sig)
      ensures forall h: int {:trigger Scale(h, pubkey)} ::
        old(aggSig) == Scale(h, old(apkG2)) && sig == Scale(h, pubkey) ==> aggSig == Scale(h, apkG2)
    {
      forall h: int | aggSig == Scale(h, apkG2) && sig == Scale(h, pubkey)
        ensures Plus(aggSig, sig) == Scale(h, Plus(apkG2, pubkey))
      {
        ScaleAdds(h, apkG2, pubkey);
      }
      aggSig := Plus(aggSig, sig);
      apkG2 := Plus(apkG2, pubkey);
    }
  }

  /** `owner` is the operator whose record serves as `totalStake`. */
  datatype AggregatedOperators = AggregatedOperators(
    points: PointPair, totalStake: StakeRecord, ids: set<OperatorId>, ghost owner: OperatorId)

  type Records = map<OperatorId, StakeRecord>

  /** Each operator has its own record, one of `owned`. */
  ghost predicate OwnRecords(info: Info, owned: set<StakeRecord>, records: Records) {
    records.Keys == info.operators.Keys && forall o :: o in records ==> records[o].operator == o && records[o] in owned
  }

  /** The total of a digest is its first signer's record. */
  ghost predicate Shares(info: Info, records: Records, a: AggregatedOperators) {
    && a.owner in records && a.totalStake == records[a.owner]
    && a.owner in a.ids && a.ids <= info.operators.Keys
  }

  /** The fetched records, one object per operator. */
  method FetchRecords(info: Info) returns (records: Records, ghost owned: set<StakeRecord>)
    ensures OwnRecords(info, owned, records) && fresh(owned)
    ensures forall o <- records :: records[o].perQuorum == info.operators[o].stakePerQuorum
  {
    records, owned := map[], {};
    var operators := info.operators.Keys;
    while operators != {}
      invariant operators <= info.operators.Keys && records.Keys == info.operators.Keys - operators
      invariant fresh(owned)
      invariant forall o <- records ::
        records[o] in owned && records[o].operator == o && records[o].perQuorum == info.operators[o].stakePerQuorum
      decreases operators
    {
      var o :| o in operators;
      var record := new StakeRecord(o, info.operators[o].stakePerQuorum);
      records, owned := records[o := record], owned + {record};
      operators := operators - {o};
    }
  }

  /** `a` is what the ledger has as `l`, but for its points. */
  ghost predicate Agrees(info: Info, records: Records, a: AggregatedOperators, l: Aggregated) {
    Shares(info, records, a) && a.owner == l.owner && a.ids == l.signers
  }

  ghost predicate DigestsAgree(
    info: Info, records: Records, aggregated: map<Digest, AggregatedOperators>, digests: map<Digest, Aggregated>)
  {
    && digests.Keys == aggregated.Keys
    && forall d {:trigger Agrees(info, records, aggregated[d], digests[d])} :: d in aggregated ==>
      Agrees(info, records, aggregated[d], digests[d])
  }

  lemma DigestsAgreeAfter(
    info: Info, records: Records, aggregated: map<Digest, AggregatedOperators>, digests: map<Digest, Aggregated>,
    d: Digest, a: AggregatedOperators, l: Aggregated)
    requires DigestsAgree(info, records, aggregated, digests) && Agrees(info, records, a, l)
    ensures DigestsAgree(info, records, aggregated[d := a], digests[d := l])
  {
  }

  /** The records read what the ledger has. */
  ghost predicate StakesAgree(owned: set<StakeRecord>, records: Records, stakes: map<OperatorId, Stakes>)
    reads owned
  {
    && stakes.Keys == records.Keys
    && forall o {:trigger stakes[o]} :: o in records ==> records[o] in owned && stakes[o] == records[o].perQuorum
  }

  /** So do the points, one pair per digest. */
  ghost predicate PointsAgree(
    pairs: set<PointPair>, aggregated: map<Digest, AggregatedOperators>, digests: map<Digest, Aggregated>)
    reads pairs
  {
    && aggregated.Keys == digests.Keys
    && forall d {:trigger aggregated[d]} :: d in aggregated ==>
      && aggregated[d].points in pairs && aggregated[d].points.digest == d
      && aggregated[d].points.apkG2 == digests[d].apkG2 && aggregated[d].points.aggSig == digests[d].sig
  }

  /** The digests of `before` are still there in `after`, with the same points. */
  ghost predicate Keeps(before: map<Digest, AggregatedOperators>, after: map<Digest, AggregatedOperators>) {
    forall d {:trigger before[d]} :: d in before ==> d in after && after[d].points == before[d].points
  }

  lemma KeepsAfter(before: map<Digest, AggregatedOperators>, d: Digest, a: AggregatedOperators)
    requires d in before ==> a.points == before[d].points
    ensures Keeps(before, before[d := a])
  {
  }

  ghost function FirstAggregated(info: Info, s: Submission): Aggregated
    requires s.operator in info.operators
  {
    Aggregated(Plus(0, info.operators[s.operator].pubkeyG2), s.sig, s.operator, {s.operator})
  }

  lemma PointsAgreeAfter(
    pairs: set<PointPair>, aggregated: map<Digest, AggregatedOperators>, digests: map<Digest, Aggregated>,
    d: Digest, a: AggregatedOperators, l: Aggregated)
    requires PointsAgree(pairs, aggregated, digests)
    requires a.points.digest == d && a.points.apkG2 == l.apkG2 && a.points.aggSig == l.sig
    ensures PointsAgree(pairs + {a.points}, aggregated[d := a], digests[d := l])
  {
  }

  ghost function MoreAggregated(info: Info, l: Ledger, s: Submission): Aggregated
    requires s.operator in info.operators && s.digest in l.digests
  {
    var a := l.digests[s.digest];
    Aggregated(Plus(a.apkG2, info.operators[s.operator].pubkeyG2), Plus(a.sig, s.sig), a.owner,
      a.signers + {s.operator})
  }

  ghost function MoreStakes(l: Ledger, s: Submission): map<OperatorId, Stakes>
    requires s.operator in l.stakes && s.digest in l.digests && l.digests[s.digest].owner in l.stakes
  {
    var o := l.digests[s.digest].owner;
    l.stakes[o := AddStakes(l.stakes[o], l.stakes[s.operator])]
  }

  /** The ledger after a first signature on its digest, and after a further one. */
  ghost function FirstLedger(info: Info, l: Ledger, s: Submission): Ledger
    requires s.operator in info.operators
  {
    Ledger(l.stakes, l.digests[s.digest := FirstAggregated(info, s)])
  }

  ghost function MoreLedger(info: Info, l: Ledger, s: Submission): Ledger
    requires s.operator in info.operators && s.operator in l.stakes
    requires s.digest in l.digests && l.digests[s.digest].owner in l.stakes
  {
    Ledger(MoreStakes(l, s), l.digests[s.digest := MoreAggregated(info, l, s)])
  }

  lemma AcceptIs(info: Info, l: Ledger, s: Submission)
    requires WellFormed(info, l) && s.operator in info.operators
    ensures s.digest !in l.digests ==> Accept(info, l, s) == FirstLedger(info, l, s)
    ensures s.digest in l.digests ==> Accept(info, l, s) == MoreLedger(info, l, s)
  {
  }

  method AddPoints(
    ghost pairs: set<PointPair>, aggregated: map<Digest, AggregatedOperators>, ghost digests: map<Digest, Aggregated>,
    digest: Digest, pubkey: Point, sig: Point, ghost a: AggregatedOperators, ghost l: Aggregated)
    requires PointsAgree(pairs, aggregated, digests) && digest in aggregated && a.points == aggregated[digest].points
    requires l.apkG2 == Plus(digests[digest].apkG2, pubkey) && l.sig == Plus(digests[digest].sig, sig)
    modifies aggregated[digest].points
    ensures PointsAgree(pairs, aggregated[digest := a], digests[digest := l])
  {
    aggregated[digest].points.Add(pubkey, sig);
  }

  method AddStake(
    info: Info, ghost owned: set<StakeRecord>, records: Records, a: AggregatedOperators, operator: OperatorId,
    ghost stakes: map<OperatorId, Stakes>)
    requires OwnRecords(info, owned, records) && StakesAgree(owned, records, stakes)
    requires operator in info.operators && Shares(info, records, a)
    modifies a.totalStake
    ensures StakesAgree(owned, records, stakes[a.owner := AddStakes(stakes[a.owner], stakes[operator])])
  {
    a.totalStake.Add(records[operator]);
    assert forall o <- records :: o != a.owner ==> records[o] != a.totalStake;
  }

  class ValidationInfo {
    const info: Info
    const records: Records
    ghost const owned: set<StakeRecord>
    var aggregated: map<Digest, AggregatedOperators>
    /** The ledger this object stands for, and the points it has handed out. */
    ghost var ledger: Ledger
    ghost var pairs: set<PointPair>

    constructor (info: Info, records: Records, ghost owned: set<StakeRecord>)
      requires OwnRecords(info, owned, records)
      requires forall o <- records :: records[o].perQuorum == info.operators[o].stakePerQuorum
      ensures this.info == info && this.records == records && this.owned == owned
      ensures Valid() && ledger == InitialLedger(info) && pairs == {}
    {
      this.info, this.records, this.owned := info, records, owned;
      aggregated, ledger, pairs := map[], InitialLedger(info), {};
    }

    ghost predicate Valid()
      reads this, owned, pairs
    {
      && OwnRecords(info, owned, records)
      && DigestsAgree(info, records, aggregated, ledger.digests)
      && StakesAgree(owned, records, ledger.stakes)
      && PointsAgree(pairs, aggregated, ledger.digests)
    }

    lemma LedgerWellFormed()
      requires Valid()
      ensures WellFormed(info, ledger)
    {
      forall d <- ledger.digests
        ensures ledger.digests[d].owner in ledger.digests[d].signers && ledger.digests[d].signers <= info.operators.Keys
      {
        assert Agrees(info, records, aggregated[d], ledger.digests[d]);
      }
    }

    /** A first signature on `digest`: the operator's own record becomes the total. */
    method AcceptFirst(operator: OperatorId, digest: Digest, sig: Point)
      requires Valid() && operator in info.operators && digest !in aggregated
      modifies this
      ensures Valid() && Keeps(old(aggregated), aggregated) && fresh(pairs - old(pairs))
      ensures ledger == FirstLedger(info, old(ledger), Submission(operator, digest, sig))
    {
      ghost var before, digests := aggregated, ledger.digests;
      EnterFirst(operator, digest, sig);
      DigestsAgreeAfter(info, records, before, digests, digest, aggregated[digest], ledger.digests[digest]);
      KeepsAfter(before, digest, aggregated[digest]);
    }

    method EnterFirst(operator: OperatorId, digest: Digest, sig: Point)
      requires PointsAgree(pairs, aggregated, ledger.digests)
      requires operator in info.operators && operator in records && digest !in aggregated
      modifies this
      ensures PointsAgree(pairs, aggregated, ledger.digests) && fresh(pairs - old(pairs))
      ensures ledger == FirstLedger(info, old(ledger), Submission(operator, digest, sig))
      ensures digest in aggregated && aggregated == old(aggregated)[digest := aggregated[digest]]
      ensures var a := aggregated[digest];
        a.totalStake == records[operator] && a.ids == {operator} && a.owner == operator
    {
      var points := new PointPair(Plus(0, info.operators[operator].pubkeyG2), sig, digest);
      var a := AggregatedOperators(points, records[operator], {operator}, operator);
      PointsAgreeAfter(pairs, aggregated, ledger.digests, digest, a,
        FirstAggregated(info, Submission(operator, digest, sig)));
      aggregated, ledger, pairs :=
        aggregated[digest := a], FirstLedger(info, ledger, Submission(operator, digest, sig)), pairs + {points};
    }

    /** A further signature: stake, key and signature are added to in place. */
    method AcceptMore(operator: OperatorId, digest: Digest, sig: Point)
      requires Valid() && operator in info.operators && digest in aggregated
      requires ledger.digests[digest].owner in ledger.stakes
      modifies this, owned, pairs
      ensures Valid() && Keeps(old(aggregated), aggregated) && pairs == old(pairs)
      ensures ledger == MoreLedger(info, old(ledger), Submission(operator, digest, sig))
    {
      ghost var before, digests := aggregated, ledger.digests;
      assert Agrees(info, records, before[digest], digests[digest]);
      EnterMore(operator, digest, sig);
      DigestsAgreeAfter(info, records, before, digests, digest, aggregated[digest], ledger.digests[digest]);
      KeepsAfter(before, digest, aggregated[digest]);
    }

    method EnterMore(operator: OperatorId, digest: Digest, sig: Point)
      requires OwnRecords(info, owned, records) && StakesAgree(owned, records, ledger.stakes)
      requires PointsAgree(pairs, aggregated, ledger.digests) && operator in info.operators && digest in aggregated
      requires Shares(info, records, aggregated[digest]) && aggregated[digest].owner == ledger.digests[digest].owner
      modifies this`aggregated, this`ledger, aggregated[digest].points, aggregated[digest].totalStake
      ensures StakesAgree(owned, records, ledger.stakes) && PointsAgree(pairs, aggregated, ledger.digests)
      ensures ledger == MoreLedger(info, old(ledger), Submission(operator, digest, sig))
      ensures aggregated ==
        old(aggregated)[digest := old(aggregated[digest]).(ids := old(aggregated[digest]).ids + {operator})]
    {
      var a := aggregated[digest];
      EnterPoints(operator, digest, sig);
      EnterStake(operator, a);
    }

    method EnterPoints(operator: OperatorId, digest: Digest, sig: Point)
      requires PointsAgree(pairs, aggregated, ledger.digests) && operator in info.operators && digest in aggregated
      modifies this`aggregated, this`ledger, aggregated[digest].points
      ensures PointsAgree(pairs, aggregated, ledger.digests)
      ensures ledger == old(ledger).(digests :=
        old(ledger.digests)[digest := MoreAggregated(info, old(ledger), Submission(operator, digest, sig))])
      ensures aggregated ==
        old(aggregated)[digest := old(aggregated[digest]).(ids := old(aggregated[digest]).ids + {operator})]
    {
      var a := aggregated[digest].(ids := aggregated[digest].ids + {operator});
      ghost var l := MoreAggregated(info, ledger, Submission(operator, digest, sig));
      AddPoints(pairs, aggregated, ledger.digests, digest, info.operators[operator].pubkeyG2, sig, a, l);
      aggregated, ledger := aggregated[digest := a], ledger.(digests := ledger.digests[digest := l]);
    }

    method EnterStake(operator: OperatorId, a: AggregatedOperators)
      requires OwnRecords(info, owned, records) && StakesAgree(owned, records, ledger.stakes)
      requires operator in info.operators && Shares(info, records, a)
      modifies this`ledger, a.totalStake
      ensures StakesAgree(owned, records, ledger.stakes)
      ensures ledger == old(ledger).(stakes :=
        old(ledger.stakes)[a.owner := AddStakes(old(ledger.stakes[a.owner]), old(ledger.stakes[operator]))])
    {
      AddStake(info, owned, records, a, operator, ledger.stakes);
      ledger := ledger.(stakes := ledger.stakes[a.owner := AddStakes(ledger.stakes[a.owner], ledger.stakes[operator])]);
    }

    /** `handleSignedMessageDigest` after the signature has been verified. */
    method Accept(operator: OperatorId, digest: Digest, sig: Point)
      requires Valid() && operator in info.operators
      modifies this, owned, pairs
      ensures Valid() && Keeps(old(aggregated), aggregated) && fresh(pairs - old(pairs))
      ensures WellFormed(info, old(ledger))
      ensures ledger == BlsLedger.Accept(info, old(ledger), Submission(operator, digest, sig))
    {
      LedgerWellFormed();
      AcceptIs(info, ledger, Submission(operator, digest, sig));
      if digest !in aggregated {
        AcceptFirst(operator, digest, sig);
      } else {
        AcceptMore(operator, digest, sig);
      }
    }
  }

  // ---------------------------------------------------------------------------------------------
  // The checks

  datatype PercentageError = PercentagesValid | PercentageOutOfBounds | PercentageLessThan51

  function PercentageErrorOf(p: nat): PercentageError {
    if p > 100 then PercentageOutOfBounds else if p < 51 then PercentageLessThan51 else PercentagesValid
  }

  ghost predicate ValidUpTo(percentages: seq<nat>, n: nat)
    requires n <= |percentages|
  {
    forall i :: 0 <= i < n ==> 51 <= percentages[i] <= 100
  }

  /** `validateQuorumThresholdPercentages`: the error, if any, is that of the first bad percentage. */
  method ValidatePercentages(percentages: seq<nat>) returns (r: PercentageError)
    ensures r == PercentagesValid <==> ValidUpTo(percentages, |percentages|)
    ensures r == PercentageOutOfBounds <==>
      exists i :: 0 <= i < |percentages| && ValidUpTo(percentages, i) && percentages[i] > 100
    ensures r == PercentageLessThan51 <==>
      exists i :: 0 <= i < |percentages| && ValidUpTo(percentages, i) && percentages[i] < 51
  {
    for i := 0 to |percentages|
      invariant ValidUpTo(percentages, i)
    {
      r := PercentageErrorOf(percentages[i]);
      if r != PercentagesValid {
        return;
      }
    }
    r := PercentagesValid;
  }

  /** Among the first `n` quorums, the one at `i` is not listed again. */
  ghost predicate LastListed(quorums: seq<QuorumNum>, i: int, n: nat)
    requires 0 <= i < n <= |quorums|
  {
    forall j :: i < j < n ==> quorums[j] != quorums[i]
  }

  /** The first `n` quorums. */
  ghost function Listed(quorums: seq<QuorumNum>, n: nat): set<QuorumNum>
    requires n <= |quorums|
  {
    set q <- quorums[..n]
  }

  lemma ListOneMore(quorums: seq<QuorumNum>, n: nat)
    requires n < |quorums|
    ensures Listed(quorums, n + 1) == Listed(quorums, n) + {quorums[n]}
  {
    assert quorums[..n + 1] == quorums[..n] + [quorums[n]];
  }

  /**
   * The threshold map that `fetchValidationInfo` builds: every quorum is asked for 51 to 100 percent,
   * the last percentage listed for it.
   */
  method BuildThresholds(quorums: seq<QuorumNum>, percentages: seq<nat>) returns (thresholds: map<QuorumNum, nat>)
    requires |quorums| == |percentages| && ValidUpTo(percentages, |percentages|)
    ensures thresholds.Keys == (set q <- quorums)
    ensures forall q <- thresholds :: 51 <= thresholds[q] <= 100
    ensures forall i :: 0 <= i < |quorums| && LastListed(quorums, i, |quorums|) ==>
      quorums[i] in thresholds && thresholds[quorums[i]] == percentages[i]
  {
    thresholds := map[];
    for i := 0 to |quorums|
      invariant thresholds.Keys == Listed(quorums, i)
      invariant forall q <- thresholds :: 51 <= thresholds[q] <= 100
      invariant forall k :: 0 <= k < i && LastListed(quorums, k, i) ==>
        quorums[k] in thresholds && thresholds[quorums[k]] == percentages[k]
    {
      ListOneMore(quorums, i);
      thresholds := thresholds[quorums[i] := percentages[i]];
    }
    assert quorums[..|quorums|] == quorums;
  }

  method CheckIfStakeThresholdsMet(info: Info, signed: Stakes) returns (met: bool)
    requires info.thresholds.Keys <= signed.Keys && info.thresholds.Keys <= info.totalStake.Keys
    ensures met <==> forall q <- info.thresholds :: signed[q] * 100 >= info.totalStake[q] * info.thresholds[q]
    ensures met <==> ThresholdsMet(info, signed)
  {
    var quorums := info.thresholds.Keys;
    while quorums != {}
      invariant quorums <= info.thresholds.Keys
      invariant forall q <- info.thresholds.Keys - quorums ::
        100 * Get(signed, q) >= info.thresholds[q] * Get(info.totalStake, q)
      decreases quorums
    {
      var q :| q in quorums;
      if signed[q] * 100 < info.totalStake[q] * info.thresholds[q] {
        assert 100 * Get(signed, q) < info.thresholds[q] * Get(info.totalStake, q);
        return false;
      }
      quorums := quorums - {q};
    }
    return true;
  }

  method CheckIfFullStakeThresholdMet(info: Info, signed: Stakes) returns (met: bool)
    requires signed.Keys <= info.totalStake.Keys
    ensures met <==> forall q <- signed :: signed[q] == info.totalStake[q]
    ensures met <==> FullStakeMet(info, signed)
  {
    var quorums := signed.Keys;
    while quorums != {}
      invariant quorums <= signed.Keys
      invariant forall q <- signed.Keys - quorums :: signed[q] == Get(info.totalStake, q)
      decreases quorums
    {
      var q :| q in quorums;
      if signed[q] != info.totalStake[q] {
        return false;
      }
      quorums := quorums - {q};
    }
    return true;
  }

  // ---------------------------------------------------------------------------------------------
  // The response

  lemma InsertedAt(ids: seq<OperatorId>, id: OperatorId, i: nat)
    requires StrictlyAscending(ids) && i <= |ids|
    requires (forall k :: 0 <= k < i ==> ids[k] < id) && (forall k :: i <= k < |ids| ==> id < ids[k])
    ensures StrictlyAscending(ids[..i] + [id] + ids[i..])
    ensures forall x :: x in ids[..i] + [id] + ids[i..] <==> x in ids || x == id
  {
    var r := ids[..i] + [id] + ids[i..];
    forall j, k | 0 <= j < k < |r| ensures r[j] < r[k] {
      assert r[j] == if j < i then ids[j] else if j == i then id else ids[j - 1];
      assert r[k] == if k < i then ids[k] else if k == i then id else ids[k - 1];
    }
    forall x ensures x in r <==> x in ids || x == id {
      assert ids == ids[..i] + ids[i..];
      assert x in ids <==> x in ids[..i] || x in ids[i..];
    }
  }

  /** One insertion of the sort: `id` goes before the first larger one. */
  method InsertAscending(ids: seq<OperatorId>, id: OperatorId) returns (r: seq<OperatorId>)
    requires StrictlyAscending(ids) && id !in ids
    ensures StrictlyAscending(r) && forall x :: x in r <==> x in ids || x == id
  {
    var i := |ids|;
    while i > 0 && id < ids[i - 1]
      invariant 0 <= i <= |ids|
      invariant forall k :: i <= k < |ids| ==> id < ids[k]
    {
      i := i - 1;
    }
    assert forall k :: 0 <= k < i ==> ids[k] < id by {
      assert i > 0 ==> ids[i - 1] in ids;
    }
    InsertedAt(ids, id, i);
    r := ids[..i] + [id] + ids[i..];
  }

  /** The operators that did not sign, found in map order and sorted. */
  method ListNonSigners(info: Info, signers: set<OperatorId>) returns (ids: seq<OperatorId>)
    ensures ids == Sorted(info.operators.Keys - signers)
  {
    ids := [];
    var operators := info.operators.Keys;
    while operators != {}
      invariant operators <= info.operators.Keys
      invariant StrictlyAscending(ids) && Lists(ids, info.operators.Keys - operators - signers)
      decreases operators
    {
      var o :| o in operators;
      operators := operators - {o};
      if o !in signers {
        ids := InsertAscending(ids, o);
      }
    }
    SortedIsUnique(ids, info.operators.Keys - signers);
  }

  method ListPubkeys(info: Info, ids: seq<OperatorId>) returns (ps: seq<Point>)
    requires forall o <- ids :: o in info.operators
    ensures ps == PubkeysG1(info, ids)
  {
    ps := [];
    for i := 0 to |ids|
      invariant ps == PubkeysG1(info, ids)[..i]
    {
      ps := ps + [info.operators[ids[i]].pubkeyG1];
    }
  }

  /** `getMessageBlsAggregationStatus` for a digest that is known. */
  method GetStatus(info: Info, signed: Stakes) returns (status: Status)
    requires info.Valid() && signed.Keys == info.thresholds.Keys
    ensures status == FullStakeThresholdMet <==> forall q <- signed :: signed[q] == info.totalStake[q]
    ensures status == ThresholdNotReached <==>
      && (exists q <- signed :: signed[q] != info.totalStake[q])
      && (exists q <- info.thresholds :: signed[q] * 100 < info.totalStake[q] * info.thresholds[q])
    ensures status != NoStatus && status == StatusOf(info, signed)
  {
    var full := CheckIfFullStakeThresholdMet(info, signed);
    if full {
      return FullStakeThresholdMet;
    }
    var met := CheckIfStakeThresholdsMet(info, signed);
    return if met then ThresholdReached else ThresholdNotReached;
  }

  /** An aggregation as it is sent: the key and the signature are those of the digest. */
  datatype SharedAggregation = SharedAggregation(
    nonSigners: seq<OperatorId>, nonSignersPubkeysG1: seq<Point>, signers: PointPair)

  datatype SentResponse = SentResponse(
    message: Option<Message>, status: Status, finished: bool, error: ResponseError,
    aggregation: Option<SharedAggregation>)

  const SENT_EXPIRY: SentResponse := SentResponse(None, NoStatus, true, MessageExpired, None)

  /** What a response reads like now. */
  ghost function Read(s: SentResponse): Response
    reads if s.aggregation.Some? then {s.aggregation.value.signers} else {}
  {
    Response(s.message, s.status, s.finished, s.error,
      if s.aggregation.None? then None
      else
        var a := s.aggregation.value;
        Some(Aggregation(a.nonSigners, a.nonSignersPubkeysG1, a.signers.apkG2, a.signers.aggSig)))
  }

  /** `s` is the response `r`, but for holding the points of the digest. */
  ghost predicate Sends(aggregated: map<Digest, AggregatedOperators>, s: SentResponse, r: Response) {
    && s.message == r.message && s.status == r.status && s.finished == r.finished && s.error == r.error
    && (s.aggregation.Some? <==> r.aggregation.Some?)
    && (r.aggregation.Some? ==>
        && r.message.Some? && Digest(r.message.value) in aggregated
        && s.aggregation.value.nonSigners == r.aggregation.value.nonSigners
        && s.aggregation.value.nonSignersPubkeysG1 == r.aggregation.value.nonSignersPubkeysG1
        && s.aggregation.value.signers == aggregated[Digest(r.message.value)].points)
  }

  /** So it reads like `r` with whatever key and signature the digest has by now. */
  lemma ReadsCurrent(v: ValidationInfo, s: SentResponse, r: Response)
    requires v.Valid() && Sends(v.aggregated, s, r)
    ensures Read(s) == ReadAt(r, v.ledger)
  {
    if r.aggregation.Some? {
      var d := Digest(r.message.value);
      assert Agrees(v.info, v.records, v.aggregated[d], v.ledger.digests[d]);
    }
  }

  /** `getMessageBlsAggregationResponse`; `indicesOk` says whether the indices could be fetched. */
  method GetResponse(v: ValidationInfo, m: Message, forced: bool, indicesOk: bool) returns (s: SentResponse)
    requires v.Valid() && v.info.Valid() && Covered(v.info, v.ledger)
    ensures WellFormed(v.info, v.ledger)
    ensures Sends(v.aggregated, s, ResponseFor(v.info, v.ledger, m, forced, indicesOk))
    ensures Read(s) == ResponseFor(v.info, v.ledger, m, forced, indicesOk)
  {
    v.LedgerWellFormed();
    var d := Digest(m);
    if d !in v.aggregated {
      return SentResponse(Some(m), NoStatus, forced, MessageNotFound, None);
    }
    var a := v.aggregated[d];
    assert Agrees(v.info, v.records, a, v.ledger.digests[d]);
    assert a.totalStake.perQuorum == v.ledger.stakes[a.owner];
    var status := GetStatus(v.info, a.totalStake.perQuorum);
    var ids := ListNonSigners(v.info, a.ids);
    if !indicesOk {
      return SentResponse(Some(m), NoStatus, forced, IndicesUnavailable, None);
    }
    var pubkeys := ListPubkeys(v.info, ids);
    s := SentResponse(Some(m), status, status == FullStakeThresholdMet || forced, NoFailure,
      Some(SharedAggregation(ids, pubkeys, a.points)));
  }

  // ---------------------------------------------------------------------------------------------
  // The event loop

  /**
   * `handleSignedMessageDigest`: an operator that is not registered is told so, one whose signature is
   * not the one its key gives on the message is told so, and any other signature is added.
   */
  method HandleSignedMessageDigest(v: ValidationInfo, e: Event) returns (err: SubmitError)
    requires v.Valid() && e.SignedMessage?
    modifies v, v.owned, v.pairs
    ensures v.Valid() && Keeps(old(v.aggregated), v.aggregated) && fresh(v.pairs - old(v.pairs))
    ensures err == OperatorNotInQuorum <==> e.operator !in v.info.operators
    ensures err == NoError <==>
      && e.operator in v.info.operators
      && e.sig == Scale(v.info.hashToG1(Digest(e.message)), v.info.operators[e.operator].pubkeyG2)
    ensures err == CheckSignature(v.info, e) && WellFormed(v.info, old(v.ledger))
    ensures v.ledger ==
      if err == NoError then BlsLedger.Accept(v.info, old(v.ledger), SubmissionOf(e)) else old(v.ledger)
  {
    v.LedgerWellFormed();
    err := CheckSignature(v.info, e);
    if err == NoError {
      v.Accept(e.operator, Digest(e.message), e.sig);
    }
  }

  /** The goroutine's data cover the quorums of the message. */
  ghost predicate Usable(g: Goroutine) {
    g.info.Valid() && WellFormed(g.info, g.ledger) && Covered(g.info, g.ledger)
  }

  lemma RunUsable(info: Info, events: seq<Event>)
    requires Sound(info)
    ensures Usable(Run(info, events))
  {
    RunInv(info, events);
  }

  /** A received signature: what the signer is told and, if it was added, the response. */
  method AddAndRespond(v: ValidationInfo, e: Event, ghost g: Goroutine) returns (err: SubmitError, s: SentResponse)
    requires v.Valid() && Usable(g) && g.info == v.info && g.ledger == v.ledger && e.SignedMessage?
    modifies v, v.owned, v.pairs
    ensures v.Valid() && Keeps(old(v.aggregated), v.aggregated) && fresh(v.pairs - old(v.pairs))
    ensures err == CheckSignature(g.info, e)
    ensures err != NoError ==> v.ledger == g.ledger
    ensures err == NoError ==> v.ledger == Accepted(g, e).ledger && Sends(v.aggregated, s, AcceptedResponse(g, e))
  {
    s := SENT_EXPIRY;
    err := HandleSignedMessageDigest(v, e);
    if err == NoError {
      AcceptKeepsCovered(g.info, g.ledger, SubmissionOf(e));
      s := GetResponse(v, e.message, false, e.indicesOk);
    }
  }

  ghost function AcceptedResponse(g: Goroutine, e: Event): Response
    requires WellFormed(g.info, g.ledger) && e.SignedMessage? && CheckSignature(g.info, e) == NoError
  {
    AcceptKeepsWellFormed(g.info, g.ledger, SubmissionOf(e));
    ResponseFor(g.info, Accepted(g, e).ledger, e.message, false, e.indicesOk)
  }

  function PhaseAfter(status: Status, m: Message): Phase {
    match status
    case ThresholdReached => Reached(m)
    case FullStakeThresholdMet => Stopped
    case _ => PreThreshold
  }

  lemma PreThresholdOutcome(g: Goroutine, e: Event)
    requires WellFormed(g.info, g.ledger) && g.phase == PreThreshold && e.SignedMessage?
    ensures CheckSignature(g.info, e) != NoError ==> Step(g, e) == g
    ensures CheckSignature(g.info, e) == NoError ==>
      var h, r := Accepted(g, e), AcceptedResponse(g, e);
      Step(g, e) == if r.status == ThresholdNotReached then h else Emit(h, r, PhaseAfter(r.status, e.message))
  {
  }

  lemma ReachedOutcome(g: Goroutine, e: Event)
    requires WellFormed(g.info, g.ledger) && g.phase.Reached? && e.SignedMessage? && e.message == g.phase.message
    ensures CheckSignature(g.info, e) != NoError ==> Step(g, e) == g
    ensures CheckSignature(g.info, e) == NoError ==>
      var h, r := Accepted(g, e), AcceptedResponse(g, e);
      Step(g, e) == Emit(h, r, if r.status == FullStakeThresholdMet then Stopped else g.phase)
  {
  }

  /** `sent` are the responses that `after` has more than `before`. */
  ghost predicate SendsRest(
    aggregated: map<Digest, AggregatedOperators>, sent: seq<SentResponse>, before: seq<Response>, after: seq<Response>)
  {
    && |after| == |before| + |sent| && after[..|before|] == before
    && forall i :: 0 <= i < |sent| ==> Sends(aggregated, sent[i], after[|before| + i])
  }

  lemma SendsNone(aggregated: map<Digest, AggregatedOperators>, before: seq<Response>)
    ensures SendsRest(aggregated, [], before, before)
  {
  }

  lemma SendsOne(aggregated: map<Digest, AggregatedOperators>, s: SentResponse, before: seq<Response>, r: Response)
    requires Sends(aggregated, s, r)
    ensures SendsRest(aggregated, [s], before, before + [r])
  {
  }

  /** One event before the threshold. */
  method HandlePreThreshold(v: ValidationInfo, e: Event, ghost g: Goroutine)
    returns (sent: seq<SentResponse>, phase: Phase)
    requires v.Valid() && Usable(g) && g.phase == PreThreshold && g.info == v.info && g.ledger == v.ledger
    modifies v, v.owned, v.pairs
    ensures v.Valid() && Keeps(old(v.aggregated), v.aggregated) && fresh(v.pairs - old(v.pairs))
    ensures v.ledger == Step(g, e).ledger && phase == Step(g, e).phase
    ensures SendsRest(v.aggregated, sent, g.emitted, Step(g, e).emitted)
  {
    if e.Timer? {
      SendsOne(v.aggregated, SENT_EXPIRY, g.emitted, EXPIRY);
      return [SENT_EXPIRY], Stopped;
    }
    PreThresholdOutcome(g, e);
    var err, s := AddAndRespond(v, e, g);
    if err != NoError || s.status == ThresholdNotReached {
      SendsNone(v.aggregated, g.emitted);
      return [], PreThreshold;
    }
    SendsOne(v.aggregated, s, g.emitted, AcceptedResponse(g, e));
    return [s], PhaseAfter(s.status, e.message);
  }

  /** One event after the threshold was reached for `m`. */
  method HandleReached(v: ValidationInfo, m: Message, e: Event, ghost g: Goroutine)
    returns (sent: seq<SentResponse>, phase: Phase)
    requires v.Valid() && Usable(g) && g.phase == Reached(m) && g.info == v.info && g.ledger == v.ledger
    modifies v, v.owned, v.pairs
    ensures v.Valid() && Keeps(old(v.aggregated), v.aggregated) && fresh(v.pairs - old(v.pairs))
    ensures v.ledger == Step(g, e).ledger && phase == Step(g, e).phase
    ensures SendsRest(v.aggregated, sent, g.emitted, Step(g, e).emitted)
  {
    SendsNone(v.aggregated, g.emitted);
    if e.Timer? {
      var s := GetResponse(v, m, true, e.indicesOk);
      SendsOne(v.aggregated, s, g.emitted, ResponseFor(v.info, v.ledger, m, true, e.indicesOk));
      return [s], Stopped;
    }
    if Digest(e.message) != Digest(m) {
      return [], Reached(m);
    }
    ReachedOutcome(g, e);
    var err, s := AddAndRespond(v, e, g);
    if err != NoError {
      SendsNone(v.aggregated, g.emitted);
      return [], Reached(m);
    }
    SendsOne(v.aggregated, s, g.emitted, AcceptedResponse(g, e));
    return [s], if s.status == FullStakeThresholdMet then Stopped else Reached(m);
  }

  /** Digests that keep their points keep what was sent for them. */
  lemma StillSends(v: ValidationInfo, before: map<Digest, AggregatedOperators>, sent: seq<SentResponse>,
                   rs: seq<Response>)
    requires Keeps(before, v.aggregated)
    requires |sent| == |rs| && forall i :: 0 <= i < |sent| ==> Sends(before, sent[i], rs[i])
    ensures forall i :: 0 <= i < |sent| ==> Sends(v.aggregated, sent[i], rs[i])
  {
  }

  /** `emitted` are the responses `rs`, holding the points of `v`. */
  ghost predicate SendsAll(aggregated: map<Digest, AggregatedOperators>, emitted: seq<SentResponse>,
                           rs: seq<Response>)
  {
    |emitted| == |rs| && forall i :: 0 <= i < |emitted| ==> Sends(aggregated, emitted[i], rs[i])
  }

  lemma SendsMore(
    v: ValidationInfo, before: map<Digest, AggregatedOperators>, emitted: seq<SentResponse>, sent: seq<SentResponse>,
    rs: seq<Response>, more: seq<Response>)
    requires Keeps(before, v.aggregated) && SendsAll(before, emitted, rs) && SendsRest(v.aggregated, sent, rs, more)
    ensures SendsAll(v.aggregated, emitted + sent, more)
  {
    StillSends(v, before, emitted, rs);
    forall i | 0 <= i < |more| ensures Sends(v.aggregated, (emitted + sent)[i], more[i]) {
      if i < |rs| {
        assert more[..|rs|][i] == more[i];
      }
    }
  }

  /** One event, whatever the phase. */
  method HandleEvent(v: ValidationInfo, phase: Phase, e: Event, ghost g: Goroutine)
    returns (sent: seq<SentResponse>, next: Phase)
    requires v.Valid() && Usable(g) && g.phase == phase != Stopped && g.info == v.info && g.ledger == v.ledger
    modifies v, v.owned, v.pairs
    ensures v.Valid() && Keeps(old(v.aggregated), v.aggregated) && fresh(v.pairs - old(v.pairs))
    ensures v.ledger == Step(g, e).ledger && next == Step(g, e).phase
    ensures SendsRest(v.aggregated, sent, g.emitted, Step(g, e).emitted)
  {
    if phase == PreThreshold {
      sent, next := HandlePreThreshold(v, e, g);
    } else {
      sent, next := HandleReached(v, phase.message, e, g);
    }
  }

  /**
   * The goroutine from start to end: for the events it receives it sends the responses that `Run`
   * sends, which afterwards read like those with the keys and signatures the digests have by then.
   */
  method SingleMessageAggregator(v: ValidationInfo, events: seq<Event>) returns (emitted: seq<SentResponse>)
    requires v.Valid() && Sound(v.info) && v.ledger == InitialLedger(v.info) && v.pairs == {}
    modifies v, v.owned
    ensures v.Valid() && v.ledger == Run(v.info, events).ledger
    ensures |emitted| == |Run(v.info, events).emitted|
    ensures forall i :: 0 <= i < |emitted| ==>
      Read(emitted[i]) == ReadAt(Run(v.info, events).emitted[i], Run(v.info, events).ledger)
  {
    var phase := PreThreshold;
    emitted := [];
    for i := 0 to |events|
      invariant v.Valid() && fresh(v.pairs)
      invariant var g := Run(v.info, events[..i]);
        v.ledger == g.ledger && phase == g.phase && SendsAll(v.aggregated, emitted, g.emitted)
    {
      ghost var g := Run(v.info, events[..i]);
      RunUsable(v.info, events[..i]);
      assert events[..i + 1][..i] == events[..i];
      if phase != Stopped {
        ghost var before := v.aggregated;
        var sent;
        sent, phase := HandleEvent(v, phase, events[i], g);
        SendsMore(v, before, emitted, sent, g.emitted, Step(g, events[i]).emitted);
        emitted := emitted + sent;
      }
    }
    assert events[..|events|] == events;
    forall i | 0 <= i < |emitted|
      ensures Read(emitted[i]) == ReadAt(Run(v.info, events).emitted[i], Run(v.info, events).ledger)
    {
      ReadsCurrent(v, emitted[i], Run(v.info, events).emitted[i]);
    }
  }
}
