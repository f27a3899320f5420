/**
 * The rollup contract's check of an aggregated signature, and exactly which of the aggregator's
 * responses it accepts.
 */
module RollupVerification {
  import opened Sums
  import opened SortedIds
  import opened BlsTypes
  import BlsLedger
  import opened BlsGoroutine
  import OperatorSetDelta
  import opened RollupRegistry

  ghost predicate HashAscending(c: Curve, ps: seq<Pubkey>) {
    forall i, j :: 0 <= i < j < |ps| ==> c.hash(ps[i]) < c.hash(ps[j])
  }

  ghost predicate AllWeighted(ws: Weights, ps: seq<Pubkey>) {
    forall i :: 0 <= i < |ps| ==> WeightIn(ws, ps[i]) != 0
  }

  function WeightOf(ws: Weights, ps: seq<Pubkey>): nat {
    if ps == [] then 0 else WeightOf(ws, ps[..|ps| - 1]) + WeightIn(ws, ps[|ps| - 1])
  }

  function PointsAt(c: Curve, ps: seq<Pubkey>): (r: seq<Point>)
    ensures |r| == |ps|
  {
    seq<Point>(|ps|, i requires 0 <= i < |ps| => c.point(ps[i]))
  }

  datatype SignatureInfo = SignatureInfo(nonSignerPubkeys: seq<Pubkey>, apkG2: Point, sigma: Point)

  /**
   * The pairing check of `trySignatureAndApkVerification`: that the two forms of the key agree and that
   * the signature on `h` is theirs, put into one equation by the coefficient.
   */
  predicate Paired(c: Curve, h: Point, apkG1: Point, apkG2: Point, sigma: Point) {
    var gamma := c.coefficient(h, apkG1, apkG2, sigma);
    Plus(sigma, Scale(gamma, apkG1)) == Scale(h + gamma, apkG2)
  }

  /** The key the contract works out for the signers. */
  ghost function SignersKey(c: Curve, ws: Weights, nonSigners: seq<Pubkey>): Point {
    Plus(ApkOf(c, ws), Negate(SumPoints(PointsAt(c, nonSigners))))
  }

  /** When an agreement on a message that hashes to `h` is accepted. */
  ghost predicate Accepts(c: Curve, ws: Weights, threshold: nat, h: Point, s: SignatureInfo) {
    && TotalOf(ws) != 0
    && HashAscending(c, s.nonSignerPubkeys) && AllWeighted(ws, s.nonSignerPubkeys)
    && Paired(c, h, SignersKey(c, ws, s.nonSignerPubkeys), s.apkG2, s.sigma)
    && TotalOf(ws) * threshold < U128
    && TotalOf(ws) - WeightOf(ws, s.nonSignerPubkeys) >= TotalOf(ws) * threshold / THRESHOLD_DENOMINATOR
  }

  lemma NextInOrder(c: Curve, ps: seq<Pubkey>, i: nat)
    requires i < |ps| && HashAscending(c, ps[..i]) && (i == 0 || c.hash(ps[i - 1]) < c.hash(ps[i]))
    ensures HashAscending(c, ps[..i + 1])
  {
    assert forall k :: 0 <= k < i ==> c.hash(ps[..i][k]) < c.hash(ps[i]);
  }

  lemma NextWeighted(ws: Weights, ps: seq<Pubkey>, i: nat)
    requires i < |ps| && AllWeighted(ws, ps[..i]) && WeightIn(ws, ps[i]) != 0
    ensures AllWeighted(ws, ps[..i + 1])
  {
    assert forall k :: 0 <= k < i ==> ps[..i + 1][k] == ps[..i][k];
  }

  lemma NextAdded(c: Curve, ws: Weights, ps: seq<Pubkey>, i: nat)
    requires i < |ps|
    ensures SumPoints(PointsAt(c, ps[..i + 1])) == Plus(SumPoints(PointsAt(c, ps[..i])), c.point(ps[i]))
    ensures WeightOf(ws, ps[..i + 1]) == WeightOf(ws, ps[..i]) + WeightIn(ws, ps[i])
  {
    assert ps[..i + 1][..i] == ps[..i];
    assert PointsAt(c, ps[..i + 1]) == PointsAt(c, ps[..i]) + [c.point(ps[i])];
    SumPointsAppend(PointsAt(c, ps[..i]), c.point(ps[i]));
  }

  /** The loop over the non-signers: whether they are in order and weighted, their key and the weight without them. */
  method AddNonSigners(c: Curve, ws: Weights, total: nat, ps: seq<Pubkey>)
    returns (valid: bool, apk: Point, weight: int)
    ensures valid <==> HashAscending(c, ps) && AllWeighted(ws, ps)
    ensures valid ==> apk == SumPoints(PointsAt(c, ps)) && weight == total - WeightOf(ws, ps)
  {
    apk, weight := 0, total;
    for i := 0 to |ps|
      invariant HashAscending(c, ps[..i])
      invariant AllWeighted(ws, ps[..i])
      invariant apk == SumPoints(PointsAt(c, ps[..i]))
      invariant weight == total - WeightOf(ws, ps[..i])
    {
      if i != 0 && c.hash(ps[i]) <= c.hash(ps[i - 1]) {
        return false, apk, weight;
      }
      if WeightIn(ws, ps[i]) == 0 {
        return false, apk, weight;
      }
      NextInOrder(c, ps, i);
      NextWeighted(ws, ps, i);
      NextAdded(c, ws, ps, i);
      apk := Plus(apk, c.point(ps[i]));
      weight := weight - WeightIn(ws, ps[i]);
    }
    assert ps[..|ps|] == ps;
    valid := true;
  }

  // ---------------------------------------------------------------------------------------------
  // Which operators an agreement is accepted for

  ghost function Listed(ps: seq<Pubkey>): set<Pubkey> { set p <- ps }

  /** The operators with weight that are not on the list. */
  ghost function Unlisted(ws: Weights, ps: seq<Pubkey>): (r: set<Pubkey>)
    ensures r <= ws.Keys
  {
    Members(ws) - Listed(ps)
  }

  /** The sum of the unlisted operators' keys. */
  ghost function UnlistedKey(c: Curve, ws: Weights, ps: seq<Pubkey>): Point {
    Reduce(Sum(Unlisted(ws, ps), PointsOf(c, ws)))
  }

  /**
   * The list names operators with weight in the order of their hashes, the two equations of the pairing
   * hold for the key of the operators that it does not name, and these have the weight asked for.
   */
  ghost predicate AcceptedFor(c: Curve, ws: Weights, threshold: nat, h: Point, s: SignatureInfo) {
    var ps, total, key := s.nonSignerPubkeys, Sum(ws.Keys, ws), UnlistedKey(c, ws, s.nonSignerPubkeys);
    var gamma := c.coefficient(h, key, s.apkG2, s.sigma);
    && total != 0
    && (forall i, j :: 0 <= i < j < |ps| ==> c.hash(ps[i]) < c.hash(ps[j]))
    && (forall p <- ps :: p in ws && ws[p] != 0)
    && Plus(s.sigma, Scale(gamma, key)) == Scale(h + gamma, s.apkG2)
    && total * threshold < 0x1_0000_0000_0000_0000_0000_0000_0000_0000
    && Sum(Unlisted(ws, ps), ws) >= total * threshold / 100
  }

  lemma AscendingFront(c: Curve, ps: seq<Pubkey>)
    requires HashAscending(c, ps) && ps != []
    ensures var n := |ps| - 1;
      HashAscending(c, ps[..n]) && ps[n] !in Listed(ps[..n]) && Listed(ps) == Listed(ps[..n]) + {ps[n]}
  {
    var n := |ps| - 1;
    assert ps == ps[..n] + [ps[n]];
    assert forall i :: 0 <= i < n ==> c.hash(ps[i]) < c.hash(ps[n]);
  }

  lemma ListedAreMembers(ws: Weights, ps: seq<Pubkey>)
    requires AllWeighted(ws, ps)
    ensures Listed(ps) <= Members(ws)
  {
  }

  /** Listed in the order of their hashes, nobody is listed twice: the weights add up. */
  lemma {:induction false} ListedWeights(c: Curve, ws: Weights, ps: seq<Pubkey>)
    requires HashAscending(c, ps) && Listed(ps) <= ws.Keys
    ensures WeightOf(ws, ps) == Sum(Listed(ps), ws)
    decreases |ps|
  {
    if ps == [] {
      assert Listed(ps) == {};
    } else {
      var n := |ps| - 1;
      AscendingFront(c, ps);
      ListedWeights(c, ws, ps[..n]);
      SumInsert(Listed(ps[..n]), ws, ps[n]);
    }
  }

  lemma {:induction false} ListedPoints(c: Curve, ws: Weights, ps: seq<Pubkey>)
    requires HashAscending(c, ps) && Listed(ps) <= ws.Keys
    ensures SumPoints(PointsAt(c, ps)) == Reduce(Sum(Listed(ps), PointsOf(c, ws)))
    decreases |ps|
  {
    if ps == [] {
      assert Listed(ps) == {};
    } else {
      var n := |ps| - 1;
      AscendingFront(c, ps);
      ListedPoints(c, ws, ps[..n]);
      OneMorePoint(c, ws, ps, n, Listed(ps[..n]));
    }
  }

  lemma OneMorePoint(c: Curve, ws: Weights, ps: seq<Pubkey>, n: nat, front: set<Pubkey>)
    requires n == |ps| - 1 && front + {ps[n]} <= ws.Keys && ps[n] !in front
    requires SumPoints(PointsAt(c, ps[..n])) == Reduce(Sum(front, PointsOf(c, ws)))
    ensures SumPoints(PointsAt(c, ps)) == Reduce(Sum(front + {ps[n]}, PointsOf(c, ws)))
  {
    var sum, more := Sum(front, PointsOf(c, ws)), Sum(front + {ps[n]}, PointsOf(c, ws));
    assert more == sum + c.point(ps[n]) by { SumInsert(front, PointsOf(c, ws), ps[n]); }
    assert ps[..n + 1] == ps;
    NextAdded(c, ws, ps, n);
    ReduceAppend(sum, c.point(ps[n]));
  }

  /** So what is left after the loop is the weight and the key of the unlisted. */
  lemma WhatIsLeft(c: Curve, ws: Weights, ps: seq<Pubkey>)
    requires HashAscending(c, ps) && AllWeighted(ws, ps)
    ensures TotalOf(ws) - WeightOf(ws, ps) == Sum(Unlisted(ws, ps), ws)
    ensures SignersKey(c, ws, ps) == UnlistedKey(c, ws, ps)
  {
    ListedAreMembers(ws, ps);
    ListedWeights(c, ws, ps);
    ListedPoints(c, ws, ps);
    SumOfNonMembers(ws);
    SumPart(Members(ws), Listed(ps), ws);
    SumPart(Members(ws), Listed(ps), PointsOf(c, ws));
    var some, rest := Sum(Listed(ps), PointsOf(c, ws)), Sum(Unlisted(ws, ps), PointsOf(c, ws));
    PlusReduced(some, rest, Sum(Members(ws), PointsOf(c, ws)));
    MoveSummand(Reduce(some), Reduce(rest), ApkOf(c, ws));
  }

  /** The check as it is computed is the check for the operators that are not listed. */
  lemma AcceptsIff(c: Curve, ws: Weights, threshold: nat, h: Point, s: SignatureInfo)
    ensures Accepts(c, ws, threshold, h, s) <==> AcceptedFor(c, ws, threshold, h, s)
  {
    var ps := s.nonSignerPubkeys;
    AllWeightedIff(ws, ps);
    if HashAscending(c, ps) && AllWeighted(ws, ps) {
      WhatIsLeft(c, ws, ps);
    }
  }

  lemma AllWeightedIff(ws: Weights, ps: seq<Pubkey>)
    ensures AllWeighted(ws, ps) <==> forall p <- ps :: p in ws && ws[p] != 0
  {
    if forall p <- ps :: p in ws && ws[p] != 0 {
      forall i | 0 <= i < |ps| ensures WeightIn(ws, ps[i]) != 0 {
        assert ps[i] in ps;
      }
    }
  }

  /** For two forms of one key, the pairing check passes exactly if the signature is that key's. */
  lemma PairedOwnKeyIff(c: Curve, h: Point, key: Point, sigma: Point)
    ensures Paired(c, h, key, key, sigma) <==> sigma == Scale(h, key)
  {
    var gamma := c.coefficient(h, key, key, sigma);
    ScaleSplits(h, gamma, key);
    CancelRight(sigma, Scale(h, key), Scale(gamma, key));
  }

  lemma CancelRight(p: Point, q: Point, r: Point)
    ensures Plus(p, r) == Plus(q, r) <==> p == q
  {
    CancelLeft(r, p, q);
  }

  /**
   * With the unlisted operators' own key, an agreement is accepted exactly if the list is in order, the
   * signature is theirs and their weight is what is asked for: it takes no other signature, and it
   * refuses every list that leaves less.
   */
  lemma OwnKeyAcceptedIff(c: Curve, ws: Weights, threshold: nat, h: Point, s: SignatureInfo)
    requires s.apkG2 == UnlistedKey(c, ws, s.nonSignerPubkeys)
    ensures var ps, total := s.nonSignerPubkeys, Sum(ws.Keys, ws);
      Accepts(c, ws, threshold, h, s) <==>
      && total != 0 && total * threshold < U128
      && HashAscending(c, ps) && AllWeighted(ws, ps)
      && s.sigma == Scale(h, s.apkG2)
      && Sum(Unlisted(ws, ps), ws) >= total * threshold / 100
  {
    if HashAscending(c, s.nonSignerPubkeys) && AllWeighted(ws, s.nonSignerPubkeys) {
      WhatIsLeft(c, ws, s.nonSignerPubkeys);
      PairedOwnKeyIff(c, h, s.apkG2, s.sigma);
    }
  }

  /**
   * `RollupOperators.verifyCalldata`; a revert counts as not accepted. The agreement is accepted exactly
   * if the operators on the list have weight and are listed in the order of their hashes, the signature
   * passes the pairing check for the key of the operators not listed, and those have the percentage
   * of the total weight that is asked for.
   */
  method VerifyCalldata(operators: OperatorSet, h: Point, s: SignatureInfo) returns (ok: bool)
    requires operators.Valid()
    ensures ok <==> AcceptedFor(operators.curve, operators.weights, operators.quorumThreshold, h, s)
    ensures ok <==> Accepts(operators.curve, operators.weights, operators.quorumThreshold, h, s)
  {
    AcceptsIff(operators.curve, operators.weights, operators.quorumThreshold, h, s);
    if operators.totalWeight == 0 {
      return false;
    }
    var valid, nonSigners, weight := AddNonSigners(
      operators.curve, operators.weights, operators.totalWeight, s.nonSignerPubkeys);
    if !valid {
      return false;
    }
    var apk := Plus(operators.apk, Negate(nonSigners));
    if !Paired(operators.curve, h, apk, s.apkG2, s.sigma) {
      return false;
    }
    var share := operators.totalWeight * operators.quorumThreshold;
    ok := share < U128 && weight >= share / THRESHOLD_DENOMINATOR;
  }

  // ---------------------------------------------------------------------------------------------
  // The aggregator's responses

  /** The rollup's copy is the operator set of `info` in quorum 0; an operator's id is its key's hash. */
  ghost predicate Mirrors(c: Curve, ws: Weights, info: Info, keys: map<OperatorId, Pubkey>) {
    && keys.Keys == info.operators.Keys
    && (forall o :: o in keys ==>
        && c.hash(keys[o]) == o && c.point(keys[o]) == info.operators[o].pubkeyG1
        && WeightIn(ws, keys[o]) == Get(info.operators[o].stakePerQuorum, 0))
    && (forall p :: p in Members(ws) ==> exists o :: o in keys && keys[o] == p)
  }

  ghost function KeysAt(keys: map<OperatorId, Pubkey>, ids: seq<OperatorId>): (ps: seq<Pubkey>)
    requires forall o <- ids :: o in keys
    ensures |ps| == |ids|
  {
    seq(|ids|, i requires 0 <= i < |ids| => assert ids[i] in ids; keys[ids[i]])
  }

  ghost function Image(keys: map<OperatorId, Pubkey>, s: set<OperatorId>): set<Pubkey>
    requires s <= keys.Keys
  {
    set o <- s :: keys[o]
  }

  /** Operators without stake in quorum 0, who have no weight on a rollup. */
  ghost function Unweighted(info: Info): set<OperatorId> {
    set o <- info.operators | Get(info.operators[o].stakePerQuorum, 0) == 0
  }

  /** A sum over operators is the sum over their keys. */
  lemma {:induction false} SumOverKeys(c: Curve, keys: map<OperatorId, Pubkey>, s: set<OperatorId>,
                                       f: map<OperatorId, int>, g: map<Pubkey, int>)
    requires s <= keys.Keys && s <= f.Keys && Image(keys, s) <= g.Keys
    requires forall o :: o in keys ==> c.hash(keys[o]) == o
    requires forall o :: o in s ==> g[keys[o]] == f[o]
    ensures Sum(s, f) == Sum(Image(keys, s), g)
    decreases |s|
  {
    if s == {} {
      assert Image(keys, s) == {};
    } else {
      var o :| o in s;
      assert Image(keys, s - {o}) == Image(keys, s) - {keys[o]} by {
        forall p | p in s && p != o ensures keys[p] != keys[o] {
          assert c.hash(keys[p]) == p && c.hash(keys[o]) == o;
        }
      }
      SumOverKeys(c, keys, s - {o}, f, g);
      SumRemove(s, f, o);
      SumRemove(Image(keys, s), g, keys[o]);
    }
  }

  lemma MembersAreStaked(c: Curve, ws: Weights, info: Info, keys: map<OperatorId, Pubkey>)
    requires Mirrors(c, ws, info, keys)
    ensures Members(ws) == Image(keys, info.operators.Keys - Unweighted(info))
  {
    var staked := info.operators.Keys - Unweighted(info);
    forall p | p in Members(ws) ensures p in Image(keys, staked) {
      var o :| o in keys && keys[o] == p;
      assert o in staked;
    }
    forall p | p in Image(keys, staked) ensures p in Members(ws) {
      var o :| o in staked && keys[o] == p;
    }
  }

  lemma {:induction false} SumOfUnweighted(info: Info, s: set<OperatorId>)
    requires s <= Unweighted(info)
    ensures info.StakeOf(s, 0) == 0
    decreases |s|
  {
    if s != {} {
      var o :| o in s;
      SumOfUnweighted(info, s - {o});
      SumRemove(s, info.StakeIn(0), o);
    }
  }

  lemma SumOfNonMembers(ws: Weights)
    ensures Sum(ws.Keys, ws) == Sum(Members(ws), ws)
  {
    var rest := ws.Keys - Members(ws);
    SumUnion(Members(ws), rest, ws);
    assert Members(ws) + rest == ws.Keys;
    SumOfZeros(rest, ws);
  }

  /** The rollup's total weight is the total stake. */
  lemma TotalsAgree(c: Curve, ws: Weights, info: Info, keys: map<OperatorId, Pubkey>)
    requires Mirrors(c, ws, info, keys)
    ensures TotalOf(ws) == info.StakeOf(info.operators.Keys, 0)
  {
    var none := Unweighted(info);
    var staked := info.operators.Keys - none;
    MembersAreStaked(c, ws, info, keys);
    SumOfNonMembers(ws);
    forall o | o in staked ensures keys[o] in ws && ws[keys[o]] == info.StakeIn(0)[o] {
    }
    SumOverKeys(c, keys, staked, info.StakeIn(0), ws);
    SumUnion(staked, none, info.StakeIn(0));
    assert staked + none == info.operators.Keys;
    SumOfUnweighted(info, none);
  }

  /** The rollup's aggregate key is that of the operators with stake. */
  lemma ApksAgree(c: Curve, ws: Weights, info: Info, keys: map<OperatorId, Pubkey>)
    requires Mirrors(c, ws, info, keys)
    ensures ApkOf(c, ws) == Reduce(Sum(info.operators.Keys - Unweighted(info), info.KeysG1()))
  {
    var staked := info.operators.Keys - Unweighted(info);
    MembersAreStaked(c, ws, info, keys);
    forall o | o in staked ensures keys[o] in ws && PointsOf(c, ws)[keys[o]] == info.KeysG1()[o] {
      assert keys[o] in Members(ws);
    }
    SumOverKeys(c, keys, staked, info.KeysG1(), PointsOf(c, ws));
  }

  /** The non-signers' weight, added up in order, is their stake. */
  lemma {:induction false} NonSignerWeights(c: Curve, ws: Weights, info: Info, keys: map<OperatorId, Pubkey>,
                                            ids: seq<OperatorId>, s: set<OperatorId>)
    requires Mirrors(c, ws, info, keys) && StrictlyAscending(ids) && Lists(ids, s) && s <= keys.Keys
    ensures WeightOf(ws, KeysAt(keys, ids)) == info.StakeOf(s, 0)
    decreases |ids|
  {
    if ids == [] {
      assert s == {};
    } else {
      var n := |ids| - 1;
      ListsFront(ids, s);
      NonSignerWeights(c, ws, info, keys, ids[..n], s - {ids[n]});
      assert KeysAt(keys, ids)[..n] == KeysAt(keys, ids[..n]);
      SumRemove(s, info.StakeIn(0), ids[n]);
    }
  }

  /** The key of the operators without weight. */
  ghost function UnweightedKey(info: Info): Point {
    Reduce(Sum(Unweighted(info), info.KeysG1()))
  }

  lemma KeyOfParts(info: Info, part: set<OperatorId>)
    requires part <= info.operators.Keys
    ensures Plus(Reduce(Sum(info.operators.Keys - part, info.KeysG1())), Reduce(Sum(part, info.KeysG1()))) ==
            Reduce(Sum(info.operators.Keys, info.KeysG1()))
  {
    SumPart(info.operators.Keys, part, info.KeysG1());
    ReduceAdds(Sum(info.operators.Keys - part, info.KeysG1()), Sum(part, info.KeysG1()));
  }

  /** If `a` and `z` make what `others` and `ours` make, `a` without `others` is `ours` without `z`. */
  lemma WithoutOthers(a: Point, z: Point, others: Point, ours: Point)
    requires Plus(a, z) == Plus(others, ours)
    ensures Plus(Plus(a, Negate(others)), z) == ours
  {
    var x := Plus(a, Negate(others));
    MoveSummand(others, x, a);
    PlusAssociates(others, x, z);
    CancelLeft(others, Plus(x, z), ours);
  }

  /** So the contract's key for the signers lacks theirs. */
  lemma LackingKey(c: Curve, ws: Weights, info: Info, keys: map<OperatorId, Pubkey>, others: Point, ours: Point)
    requires Mirrors(c, ws, info, keys)
    requires Plus(others, ours) == Reduce(Sum(info.operators.Keys, info.KeysG1()))
    ensures Plus(Plus(ApkOf(c, ws), Negate(others)), UnweightedKey(info)) == ours
  {
    ApksAgree(c, ws, info, keys);
    KeyOfParts(info, Unweighted(info));
    WithoutOthers(ApkOf(c, ws), UnweightedKey(info), others, ours);
  }

  /** The pairing check of a valid signature on a key that lacks `z`: passes exactly if the coefficient cancels `z`. */
  lemma PairedIff(c: Curve, h: Point, apkG1: Point, z: Point, apkG2: Point, sigma: Point)
    requires Plus(apkG1, z) == apkG2 && sigma == Scale(h, apkG2)
    ensures Paired(c, h, apkG1, apkG2, sigma) <==> Scale(c.coefficient(h, apkG1, apkG2, sigma), z) == 0
  {
    var gamma := c.coefficient(h, apkG1, apkG2, sigma);
    ScaleSplits(h, gamma, apkG2);
    CancelLeft(sigma, Scale(gamma, apkG1), Scale(gamma, apkG2));
    ScaleAdds(gamma, apkG1, z);
    CancelPoint(Scale(gamma, apkG1), Scale(gamma, z));
  }

  /** The non-signers' keys are in the order the contract asks for, and have weight if they have stake. */
  lemma NonSignersInOrder(c: Curve, ws: Weights, info: Info, keys: map<OperatorId, Pubkey>, ids: seq<OperatorId>)
    requires Mirrors(c, ws, info, keys) && StrictlyAscending(ids) && forall o <- ids :: o in keys
    ensures HashAscending(c, KeysAt(keys, ids))
    ensures AllWeighted(ws, KeysAt(keys, ids)) <==> forall o <- ids :: Get(info.operators[o].stakePerQuorum, 0) != 0
    ensures PointsAt(c, KeysAt(keys, ids)) == PubkeysG1(info, ids)
  {
    var ps := KeysAt(keys, ids);
    assert forall i :: 0 <= i < |ids| ==> ids[i] in ids && ps[i] == keys[ids[i]];
    if AllWeighted(ws, ps) {
      forall o | o in ids ensures Get(info.operators[o].stakePerQuorum, 0) != 0 {
        var i :| 0 <= i < |ids| && ids[i] == o;
        assert WeightIn(ws, ps[i]) != 0;
      }
    }
  }

  /** The key check: it passes exactly if the unweighted operators' keys, times the coefficient, cancel out. */
  lemma KeyCheckIff(c: Curve, ws: Weights, info: Info, keys: map<OperatorId, Pubkey>, others: Point, ours: Point,
                    h: Point, sigma: Point)
    requires Mirrors(c, ws, info, keys) && sigma == Scale(h, ours)
    requires Plus(others, ours) == Reduce(Sum(info.operators.Keys, info.KeysG1()))
    ensures var apk := Plus(ApkOf(c, ws), Negate(others));
      Paired(c, h, apk, ours, sigma) <==> Scale(c.coefficient(h, apk, ours, sigma), UnweightedKey(info)) == 0
  {
    LackingKey(c, ws, info, keys, others, ours);
    PairedIff(c, h, Plus(ApkOf(c, ws), Negate(others)), UnweightedKey(info), ours, sigma);
  }

  /**
   * A sound response of the aggregator is accepted by a rollup that holds the same operator set
   * exactly when somebody has stake, every non-signer has stake, the keys of operators without stake
   * (all of them signers then), times the coefficient, cancel out, and the total times the threshold
   * fits 128 bits; so, if every operator has stake and it fits, always.
   */
  lemma ResponseAcceptedIff(
    c: Curve, ws: Weights, threshold: nat, info: Info, keys: map<OperatorId, Pubkey>,
    m: Message, a: Aggregation, signers: set<OperatorId>)
    requires SignedBy(info, m, a, signers) && Mirrors(c, ws, info, keys)
    requires 0 in info.thresholds && threshold <= info.thresholds[0]
    requires Get(info.totalStake, 0) == info.StakeOf(info.operators.Keys, 0)
    ensures var h, nonSigners := info.hashToG1(Digest(m)), KeysAt(keys, a.nonSigners);
      var gamma := c.coefficient(h, SignersKey(c, ws, nonSigners), a.signersApkG2, a.signersAggSigG1);
      Accepts(c, ws, threshold, h, SignatureInfo(nonSigners, a.signersApkG2, a.signersAggSigG1)) <==>
      && info.StakeOf(info.operators.Keys, 0) != 0 && info.StakeOf(info.operators.Keys, 0) * threshold < U128
      && (forall o <- a.nonSigners :: Get(info.operators[o].stakePerQuorum, 0) != 0)
      && Scale(gamma, UnweightedKey(info)) == 0
  {
    TotalsAgree(c, ws, info, keys);
    NonSignersInOrder(c, ws, info, keys, a.nonSigners);
    KeyCheckIff(c, ws, info, keys, SumPoints(a.nonSignersPubkeysG1), a.signersApkG2, info.hashToG1(Digest(m)),
      a.signersAggSigG1);
    QuorumIsMet(c, ws, threshold, info, keys, a.nonSigners, signers);
  }

  /** Two operators, the second without stake. */
  ghost function OneStaked(): Info {
    Info(map[1 := Operator(1, 1, map[0 := 1]), 2 := Operator(2, 2, map[0 := 0])], map[0 := 1], map[0 := 66],
      (d: Digest) => 1)
  }

  ghost function OneStakedCurve(): Curve {
    Curve((p: Pubkey) => p.x, (p: Pubkey) => if p.x == 1 then 1 else 2, (h: Point, p: Point, q: Point, s: Point) => 1)
  }

  ghost function OneStakedKeys(): map<OperatorId, Pubkey> {
    map[1 := OperatorSetDelta.Pubkey(1, 0), 2 := OperatorSetDelta.Pubkey(2, 0)]
  }

  ghost function OneStakedWeights(): Weights {
    map[OperatorSetDelta.Pubkey(1, 0) := 1]
  }

  /** The response the first operator's signature brings. */
  lemma OneStakedIsSigned(m: Message)
    ensures SignedBy(OneStaked(), m, Aggregation([2], [2], 1, 1), {1})
  {
    var info := OneStaked();
    assert info.operators.Keys == {1} + {2};
    SumUnion({1}, {2}, info.KeysG1());
    SumSingleton(info.KeysG1(), 1);
    SumSingleton(info.KeysG1(), 2);
    assert PubkeysG1(info, [2]) == [2];
    assert SumPoints([2]) == 2;
    StakeOfOne(info, 1, 0);
  }

  lemma OneStakedIsMirrored()
    ensures Mirrors(OneStakedCurve(), OneStakedWeights(), OneStaked(), OneStakedKeys())
  {
    assert 1 in OneStakedKeys();
  }

  lemma WeightlessIsRejected(c: Curve, ws: Weights, threshold: nat, h: Point, s: SignatureInfo, i: nat)
    requires i < |s.nonSignerPubkeys| && WeightIn(ws, s.nonSignerPubkeys[i]) == 0
    ensures !Accepts(c, ws, threshold, h, s)
  {
  }

  /** A sound response that is not accepted: all the stake has signed, and a non-signer has none. */
  lemma StakelessNonSignerIsRejected(m: Message)
    ensures var info, a := OneStaked(), Aggregation([2], [2], 1, 1);
      var c, ws, keys := OneStakedCurve(), OneStakedWeights(), OneStakedKeys();
      && SignedBy(info, m, a, {1}) && Mirrors(c, ws, info, keys)
      && !Accepts(c, ws, 66, info.hashToG1(Digest(m)), SignatureInfo(KeysAt(keys, a.nonSigners), 1, 1))
  {
    OneStakedIsSigned(m);
    OneStakedIsMirrored();
    var s := SignatureInfo(KeysAt(OneStakedKeys(), [2]), 1, 1);
    WeightlessIsRejected(OneStakedCurve(), OneStakedWeights(), 66, OneStaked().hashToG1(Digest(m)), s, 0);
  }

  lemma QuorumIsMet(
    c: Curve, ws: Weights, threshold: nat, info: Info, keys: map<OperatorId, Pubkey>, ids: seq<OperatorId>,
    signers: set<OperatorId>)
    requires Mirrors(c, ws, info, keys) && signers <= info.operators.Keys
    requires StrictlyAscending(ids) && Lists(ids, info.operators.Keys - signers)
    requires 0 in info.thresholds && threshold <= info.thresholds[0]
    requires Get(info.totalStake, 0) == info.StakeOf(info.operators.Keys, 0)
    requires BlsLedger.HasShareIn(info, signers, 0)
    ensures TotalOf(ws) - WeightOf(ws, KeysAt(keys, ids)) >= TotalOf(ws) * threshold / THRESHOLD_DENOMINATOR
  {
    var all := info.operators.Keys;
    TotalsAgree(c, ws, info, keys);
    NonSignerWeights(c, ws, info, keys, ids, all - signers);
    assert info.StakeOf(all, 0) == info.StakeOf(all - signers, 0) + info.StakeOf(signers, 0) by {
      SumUnion(all - signers, signers, info.StakeIn(0));
      assert all - signers + signers == all;
    }
    ShareSuffices(info.StakeOf(signers, 0), Get(info.totalStake, 0), threshold, info.thresholds[0]);
  }

  lemma ShareSuffices(signed: int, total: nat, threshold: nat, asked: nat)
    requires 100 * signed >= asked * total && threshold <= asked
    ensures signed >= total * threshold / 100
  {
    MulMonotone(threshold, asked, total);
  }
}
