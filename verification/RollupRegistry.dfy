/**
 * The operator set copy that a rollup contract keeps, and how initialisations and update messages
 * change it.
 */
module RollupRegistry {
  import opened Sums
  import opened BlsTypes
  import opened BlsGoroutine
  import Delta = OperatorSetDelta

  type Pubkey = Delta.Pubkey
  type Weights = map<Pubkey, nat>
  type Entry = Delta.Operator

  const THRESHOLD_DENOMINATOR: nat := 100

  /** Weights and their total are 128-bit unsigned integers, and arithmetic that does not fit reverts. */
  const U128: nat := 0x1_0000_0000_0000_0000_0000_0000_0000_0000

  /**
   * The hash and the curve point of a public key, and the coefficient hashed from a message's point, the
   * two forms of a key and a signature.
   */
  datatype Curve = Curve(
    hash: Pubkey -> nat, point: Pubkey -> Point, coefficient: (Point, Point, Point, Point) -> nat)

  function WeightIn(ws: Weights, p: Pubkey): nat { if p in ws then ws[p] else 0 }

  /** The weights after overwriting those of `ops`, in order. */
  function Applied(ws: Weights, ops: seq<Entry>): (r: Weights) {
    if ops == [] then ws
    else
      var n := |ops| - 1;
      Applied(ws, ops[..n])[ops[n].pubkey := ops[n].weight]
  }

  /** No entry is up to date already when it is written. */
  predicate Updatable(ws: Weights, ops: seq<Entry>) {
    ops != [] ==>
      var n := |ops| - 1;
      Updatable(ws, ops[..n]) && ops[n].weight != WeightIn(Applied(ws, ops[..n]), ops[n].pubkey)
  }

  // ---------------------------------------------------------------------------------------------
  // The totals the contract keeps

  ghost function TotalOf(ws: Weights): int { Sum(ws.Keys, ws) }

  /** The total fits after each entry. */
  ghost predicate Fits(ws: Weights, ops: seq<Entry>) {
    ops != [] ==> Fits(ws, ops[..|ops| - 1]) && TotalOf(Applied(ws, ops)) < U128
  }

  /** The contract writes the list without reverting. */
  ghost predicate Writes(ws: Weights, ops: seq<Entry>) {
    Updatable(ws, ops) && Fits(ws, ops)
  }

  ghost function Members(ws: Weights): set<Pubkey> { set p | p in ws && ws[p] != 0 }

  ghost function PointsOf(c: Curve, ws: Weights): map<Pubkey, int> { map p | p in ws :: c.point(p) as int }

  ghost function ApkOf(c: Curve, ws: Weights): Point { Reduce(Sum(Members(ws), PointsOf(c, ws))) }

  lemma TotalAfter(ws: Weights, p: Pubkey, w: nat)
    ensures TotalOf(ws[p := w]) == TotalOf(ws) - WeightIn(ws, p) + w
  {
    var r, others := ws[p := w], ws.Keys - {p};
    SumRemove(r.Keys, r, p);
    assert r.Keys - {p} == others;
    SumCongruent(others, r, ws);
    if p in ws {
      SumRemove(ws.Keys, ws, p);
    } else {
      assert others == ws.Keys;
    }
  }

  lemma TotalAtLeast(ws: Weights, p: Pubkey)
    ensures 0 <= WeightIn(ws, p) <= TotalOf(ws)
  {
    SumNonNegative(ws.Keys - {p}, ws);
    if p in ws {
      SumRemove(ws.Keys, ws, p);
    } else {
      assert ws.Keys - {p} == ws.Keys;
    }
  }

  lemma {:induction false} NoTotalIffNoMembers(ws: Weights)
    ensures TotalOf(ws) == 0 <==> forall p :: WeightIn(ws, p) == 0
  {
    forall p ensures WeightIn(ws, p) <= TotalOf(ws) {
      TotalAtLeast(ws, p);
    }
    if forall p :: WeightIn(ws, p) == 0 {
      assert forall p <- ws :: ws[p] == WeightIn(ws, p);
      SumOfZeros(ws.Keys, ws);
    }
  }

  /** Joining adds a key to the aggregate. */
  lemma ApkAfterJoin(c: Curve, ws: Weights, p: Pubkey, w: nat)
    requires WeightIn(ws, p) == 0 && w != 0
    ensures ApkOf(c, ws[p := w]) == Plus(ApkOf(c, ws), c.point(p))
  {
    var r := ws[p := w];
    assert Members(r) == Members(ws) + {p};
    var n := Sum(Members(ws), PointsOf(c, ws));
    assert Sum(Members(r), PointsOf(c, r)) == n + c.point(p) by {
      SumInsert(Members(ws), PointsOf(c, r), p);
      SumCongruent(Members(ws), PointsOf(c, ws), PointsOf(c, r));
    }
    ReduceAppend(n, c.point(p));
  }

  /** Leaving takes it out, by adding its negation. */
  lemma ApkAfterLeave(c: Curve, ws: Weights, p: Pubkey)
    requires WeightIn(ws, p) != 0
    ensures ApkOf(c, ws[p := 0]) == Plus(ApkOf(c, ws), Negate(c.point(p)))
  {
    var r := ws[p := 0];
    assert Members(ws) - {p} == Members(r);
    var n := Sum(Members(ws), PointsOf(c, ws));
    assert Sum(Members(r), PointsOf(c, r)) == n - c.point(p) as int by {
      SumRemove(Members(ws), PointsOf(c, ws), p);
      SumCongruent(Members(r), PointsOf(c, ws), PointsOf(c, r));
    }
    ReduceAdds(n, 0 - c.point(p) as int);
  }

  /** A change of weight alone leaves it. */
  lemma ApkAfterChange(c: Curve, ws: Weights, p: Pubkey, w: nat)
    requires WeightIn(ws, p) != 0 && w != 0
    ensures ApkOf(c, ws[p := w]) == ApkOf(c, ws)
  {
    var r := ws[p := w];
    assert Members(r) == Members(ws);
    SumCongruent(Members(r), PointsOf(c, ws), PointsOf(c, r));
  }

  /** The totals after one weight is overwritten. */
  method Recount(c: Curve, ws: Weights, apk: Point, total: nat, o: Entry) returns (newApk: Point, newTotal: nat)
    requires total == TotalOf(ws) && apk == ApkOf(c, ws) && o.weight != WeightIn(ws, o.pubkey)
    ensures newTotal == TotalOf(ws[o.pubkey := o.weight]) && newApk == ApkOf(c, ws[o.pubkey := o.weight])
  {
    var current := WeightIn(ws, o.pubkey);
    TotalAtLeast(ws, o.pubkey);
    TotalAfter(ws, o.pubkey, o.weight);
    newTotal, newApk := total - current + o.weight, apk;
    if current == 0 {
      ApkAfterJoin(c, ws, o.pubkey, o.weight);
      newApk := Plus(apk, c.point(o.pubkey));
    } else if o.weight == 0 {
      ApkAfterLeave(c, ws, o.pubkey);
      newApk := Plus(apk, Negate(c.point(o.pubkey)));
    } else {
      ApkAfterChange(c, ws, o.pubkey, o.weight);
    }
  }

  /** The loop of `update`, up to the first entry that makes it revert. */
  method Overwrite(c: Curve, weights: Weights, apk: Point, total: nat, operators: seq<Entry>)
    returns (ok: bool, ws: Weights, newApk: Point, newTotal: nat)
    requires total == TotalOf(weights) < U128 && apk == ApkOf(c, weights)
    ensures ok == Writes(weights, operators)
    ensures ok ==> ws == Applied(weights, operators) && newTotal == TotalOf(ws) < U128 && newApk == ApkOf(c, ws)
  {
    ws, newApk, newTotal := weights, apk, total;
    for i := 0 to |operators|
      invariant Writes(weights, operators[..i]) && ws == Applied(weights, operators[..i])
      invariant newTotal == TotalOf(ws) < U128 && newApk == ApkOf(c, ws)
    {
      assert operators[..i + 1][..i] == operators[..i];
      if operators[i].weight == WeightIn(ws, operators[i].pubkey) {
        NotWritten(weights, operators, i + 1);
        ok := false;
        return;
      }
      newApk, newTotal := Recount(c, ws, newApk, newTotal, operators[i]);
      ws := ws[operators[i].pubkey := operators[i].weight];
      if newTotal >= U128 {
        NotWritten(weights, operators, i + 1);
        ok := false;
        return;
      }
    }
    assert operators[..|operators|] == operators;
    ok := true;
  }

  class OperatorSet {
    const curve: Curve
    const quorumThreshold: nat
    var weights: Weights
    var apk: Point
    var totalWeight: nat
    var nextOperatorUpdateId: nat

    /** The kept totals are those of the weights. */
    ghost predicate Valid()
      reads this
    {
      totalWeight == TotalOf(weights) < U128 && apk == ApkOf(curve, weights)
    }

    constructor (curve: Curve, quorumThreshold: nat)
      ensures this.curve == curve && this.quorumThreshold == quorumThreshold
      ensures Valid() && weights == map[] && nextOperatorUpdateId == 0
    {
      this.curve, this.quorumThreshold := curve, quorumThreshold;
      weights, apk, totalWeight, nextOperatorUpdateId := map[], 0, 0, 0;
    }

    /** `RollupOperators.update`. A revert undoes everything. */
    method Update(operators: seq<Entry>) returns (ok: bool)
      requires Valid()
      modifies this`weights, this`apk, this`totalWeight
      ensures Valid() && ok == Writes(old(weights), operators)
      ensures weights == if ok then Applied(old(weights), operators) else old(weights)
    {
      var ws, newApk, newTotal;
      ok, ws, newApk, newTotal := Overwrite(curve, weights, apk, totalWeight, operators);
      if ok {
        weights, apk, totalWeight := ws, newApk, newTotal;
      }
    }

    /** `setInitialOperatorSet`: guarded by the total weight, not by the update id. */
    method SetInitialOperatorSet(operators: seq<Entry>, next: nat) returns (ok: bool)
      requires Valid()
      modifies this
      ensures Valid() && State() == SetInitial(old(State()), operators, next)
      ensures ok == (TotalOf(old(weights)) == 0 && Writes(old(weights), operators))
    {
      if totalWeight != 0 {
        return false;
      }
      ok := Update(operators);
      if ok {
        nextOperatorUpdateId := next;
      }
    }

    /** `updateOperatorSet`; `verified` is the outcome of the signature check, which needs a total weight. */
    method UpdateOperatorSet(id: nat, operators: seq<Entry>, verified: bool) returns (ok: bool)
      requires Valid()
      modifies this
      ensures Valid() && State() == UpdateSet(old(State()), id, operators, verified)
      ensures ok ==
        (id == old(nextOperatorUpdateId) && TotalOf(old(weights)) != 0 && verified && Writes(old(weights), operators))
    {
      if id != nextOperatorUpdateId || totalWeight == 0 || !verified {
        return false;
      }
      ok := Update(operators);
      if ok {
        nextOperatorUpdateId := id + 1;
      }
    }

    ghost function State(): Replica
      reads this
    {
      Replica(weights, nextOperatorUpdateId)
    }
  }

  /** What replication is about: the weights, and the id of the next update. */
  datatype Replica = Replica(weights: Weights, next: nat)

  ghost function SetInitial(r: Replica, ops: seq<Entry>, next: nat): Replica {
    if TotalOf(r.weights) == 0 && Writes(r.weights, ops) then Replica(Applied(r.weights, ops), next) else r
  }

  ghost function UpdateSet(r: Replica, id: nat, ops: seq<Entry>, verified: bool): Replica {
    if id == r.next && TotalOf(r.weights) != 0 && verified && Writes(r.weights, ops) then
      Replica(Applied(r.weights, ops), id + 1)
    else r
  }

  lemma {:induction false} NotWritten(ws: Weights, ops: seq<Entry>, n: nat)
    requires n <= |ops| && !Writes(ws, ops[..n])
    ensures !Writes(ws, ops)
    decreases |ops| - n
  {
    if n == |ops| {
      assert ops[..n] == ops;
    } else {
      assert ops[..n + 1][..n] == ops[..n];
      NotWritten(ws, ops, n + 1);
    }
  }

  /**
   * Stakes of 96 bits, as mainnet has them, always fit: each entry adds at most its weight, so that
   * it takes two thousand million operators to reach what does not fit.
   */
  lemma {:induction false} SmallWeightsFit(ws: Weights, ops: seq<Entry>)
    requires TotalOf(ws) < U128 / 2 && |ops| <= 0x8000_0000
    requires forall i :: 0 <= i < |ops| ==> ops[i].weight < 0x1_0000_0000_0000_0000_0000_0000
    ensures TotalOf(Applied(ws, ops)) <= TotalOf(ws) + |ops| * 0x1_0000_0000_0000_0000_0000_0000
    ensures Fits(ws, ops)
  {
    if ops != [] {
      var n := |ops| - 1;
      SmallWeightsFit(ws, ops[..n]);
      TotalAfter(Applied(ws, ops[..n]), ops[n].pubkey, ops[n].weight);
    }
  }
}
