/** The values that message aggregation works on: points, messages, operators, responses. */
module BlsTypes {
  import opened Sums

  type OperatorId = nat
  type QuorumNum = nat
  type MessageKey = nat

  /** The order of the two BN254 groups. */
  const GROUP_ORDER: nat := 21888242871839275222246405745257275088548364400416034343698204186575808495617

  /**
   * A point of either group, as its discrete logarithm to the group's generator: both groups are
   * cyclic of the same order, so this is the group up to isomorphism. A key pair has one logarithm.
   */
  type Point = p: int | 0 <= p < GROUP_ORDER

  function Reduce(n: int): (p: Point) { n % GROUP_ORDER }

  function Plus(p: Point, q: Point): (r: Point) { Reduce(p + q) }

  function Negate(p: Point): (r: Point) { Reduce(0 - p as int) }

  /** The point `n` times `p`. */
  function Scale(n: int, p: Point): (r: Point) { Reduce(n * p) }

  lemma ReduceAdds(m: int, n: int)
    ensures Plus(Reduce(m), Reduce(n)) == Reduce(m + n)
  {
    var a, b := m / GROUP_ORDER, n / GROUP_ORDER;
    assert m + n == Reduce(m) + Reduce(n) + (a + b) * GROUP_ORDER;
    ModOfMultiple(Reduce(m) + Reduce(n), a + b, GROUP_ORDER);
  }

  lemma MulAtLeast(k: int, d: int)
    requires d > 0 && k >= 1
    ensures k * d >= d
  {
    assert (k - 1) * d >= 0;
    assert k * d == (k - 1) * d + d;
  }

  /** Division with remainder is unique. */
  lemma ModUnique(n: int, q: int, r: int, d: int)
    requires 0 <= r < d && n == q * d + r
    ensures n % d == r
  {
    var k := n / d - q;
    assert n == (n / d) * d + n % d;
    assert k * d == (n / d) * d - q * d;
    if k >= 1 {
      MulAtLeast(k, d);
    } else if k <= -1 {
      MulAtLeast(-k, d);
    } else {
      assert k * d == 0;
    }
  }

  lemma ModOfMultiple(x: int, k: int, d: int)
    requires d > 0
    ensures (x + k * d) % d == x % d
  {
    assert x == (x / d) * d + x % d;
    assert (x / d + k) * d == (x / d) * d + k * d;
    ModUnique(x + k * d, x / d + k, x % d, d);
  }

  /** Multiplication by a scalar is additive, which is what makes BLS signatures aggregate. */
  lemma ScaleAdds(n: int, p: Point, q: Point)
    ensures Scale(n, Plus(p, q)) == Plus(Scale(n, p), Scale(n, q))
  {
    var np, nq, sum := n * p, n * q, n * (p + q);
    assert Scale(n, Plus(p, q)) == Reduce(sum) by { ScaleReduces(n, p + q); }
    assert Scale(n, p) == Reduce(np) && Scale(n, q) == Reduce(nq);
    assert sum == np + nq by { Distribute(n, p, q); }
    ReduceAdds(np, nq);
  }

  lemma Distribute(n: int, p: int, q: int)
    ensures n * (p + q) == n * p + n * q
  {
  }

  lemma Associate(n: int, k: int, d: int)
    ensures n * (k * d) == (n * k) * d
  {
  }

  lemma ScaleReduces(n: int, m: int)
    ensures Scale(n, Reduce(m)) == Reduce(n * m)
  {
    var k := m / GROUP_ORDER;
    Distribute(n, Reduce(m), k * GROUP_ORDER);
    Associate(n, k, GROUP_ORDER);
    ModOfMultiple(n * Reduce(m), n * k, GROUP_ORDER);
  }

  lemma PlusForm(p: Point, q: Point)
    ensures Plus(p, q) == if p + q < GROUP_ORDER then p + q else p + q - GROUP_ORDER
  {
    if p + q >= GROUP_ORDER {
      ModUnique(p + q, 1, p + q - GROUP_ORDER, GROUP_ORDER);
    }
  }

  lemma NegateForm(p: Point)
    ensures Negate(p) == if p == 0 then 0 else GROUP_ORDER - p
  {
    if p != 0 {
      ModUnique(0 - p as int, -1, GROUP_ORDER - p, GROUP_ORDER);
    }
  }

  /** In the group, moving a summand to the other side. */
  lemma MoveSummand(a: Point, b: Point, x: Point)
    ensures Plus(x, Negate(a)) == b <==> x == Plus(a, b)
  {
    PlusForm(a, b);
    NegateForm(a);
    PlusForm(x, Negate(a));
  }

  lemma CancelLeft(p: Point, q: Point, r: Point)
    ensures Plus(p, q) == Plus(p, r) <==> q == r
  {
    MoveSummand(p, q, Plus(p, q));
    MoveSummand(p, r, Plus(p, q));
  }

  lemma ScaleSplits(n: int, k: int, p: Point)
    ensures Scale(n + k, p) == Plus(Scale(n, p), Scale(k, p))
  {
    assert (n + k) * p == n * p + k * p;
    ReduceAdds(n * p, k * p);
  }

  lemma CancelPoint(p: Point, q: Point)
    ensures Plus(p, q) == p <==> q == 0
  {
    PlusForm(p, q);
  }

  lemma PlusZero(p: Point)
    ensures Plus(p, 0) == p
  {
    PlusForm(p, 0);
  }

  lemma PlusAssociates(p: Point, q: Point, r: Point)
    ensures Plus(Plus(p, q), r) == Plus(p, Plus(q, r))
  {
    assert Reduce(p) == p && Reduce(r) == r;
    ReduceAdds(p + q, r);
    ReduceAdds(p, q + r);
  }

  /** A message; its digest is taken to be collision free, so the digest is the message itself. */
  datatype Message = Message(key: MessageKey, timestamp: nat, content: nat)
  datatype Digest = Digest(message: Message)

  type Stakes = map<QuorumNum, nat>

  function Get(s: Stakes, q: QuorumNum): nat { if q in s then s[q] else 0 }

  /** `more` added into `acc`; quorums that `acc` lacks start at zero. */
  function AddStakes(acc: Stakes, more: Stakes): (r: Stakes)
    ensures forall q {:trigger Get(r, q)} :: Get(r, q) == Get(acc, q) + Get(more, q)
  {
    map q | q in acc.Keys + more.Keys :: Get(acc, q) + Get(more, q)
  }

  /** An operator as fetched from the registry at the reference block. */
  datatype Operator = Operator(pubkeyG1: Point, pubkeyG2: Point, stakePerQuorum: Stakes)

  /** What is fetched once when a message is initialised and never fetched again. */
  datatype Info = Info(
    operators: map<OperatorId, Operator>,
    totalStake: Stakes,
    thresholds: map<QuorumNum, nat>,
    hashToG1: Digest -> Point)
  {
    /** Every operator, and the totals, cover exactly the quorums of the message. */
    ghost predicate Valid() {
      && totalStake.Keys == thresholds.Keys
      && forall o <- operators :: operators[o].stakePerQuorum.Keys == thresholds.Keys
    }

    /** Each operator has stake in some quorum. */
    ghost predicate Staked() {
      forall o <- operators :: exists q :: Get(operators[o].stakePerQuorum, q) > 0
    }

    ghost function StakeIn(q: QuorumNum): (f: map<OperatorId, int>) {
      map o | o in operators :: Get(operators[o].stakePerQuorum, q)
    }

    /** The stake that `signers` were fetched with in quorum `q`. */
    ghost function StakeOf(signers: set<OperatorId>, q: QuorumNum): (r: int)
      requires signers <= operators.Keys
    {
      Sum(signers, StakeIn(q))
    }

    ghost function KeysG2(): (f: map<OperatorId, int>) {
      map o | o in operators :: operators[o].pubkeyG2 as int
    }

    ghost function KeysG1(): (f: map<OperatorId, int>) {
      map o | o in operators :: operators[o].pubkeyG1 as int
    }
  }

  lemma StakeOfOne(info: Info, o: OperatorId, q: QuorumNum)
    requires o in info.operators
    ensures info.StakeOf({o}, q) == Get(info.operators[o].stakePerQuorum, q)
  {
    SumSingleton(info.StakeIn(q), o);
  }

  lemma StakeOfMore(info: Info, signers: set<OperatorId>, o: OperatorId, q: QuorumNum)
    requires signers <= info.operators.Keys && o in info.operators && o !in signers
    ensures info.StakeOf(signers + {o}, q) == info.StakeOf(signers, q) + Get(info.operators[o].stakePerQuorum, q)
  {
    SumInsert(signers, info.StakeIn(q), o);
  }

  lemma StakeOfSubset(info: Info, some: set<OperatorId>, all: set<OperatorId>, q: QuorumNum)
    requires some <= all <= info.operators.Keys
    ensures 0 <= info.StakeOf(some, q) <= info.StakeOf(all, q)
  {
    SumNonNegative(some, info.StakeIn(q));
    SumMonotone(some, all, info.StakeIn(q));
  }

  /** If nobody else among the signers has stake, theirs is that of the one. */
  lemma StakeOfAlone(info: Info, signers: set<OperatorId>, o: OperatorId, q: QuorumNum)
    requires o in signers && signers <= info.operators.Keys
    requires forall p <- signers :: p != o ==> Get(info.operators[p].stakePerQuorum, q) == 0
    ensures info.StakeOf(signers, q) == Get(info.operators[o].stakePerQuorum, q)
  {
    SumPart(signers, {o}, info.StakeIn(q));
    SumOfZeros(signers - {o}, info.StakeIn(q));
    StakeOfOne(info, o, q);
  }

  /** Whether `sig` is the signature of the owner of `pubkeyG2` on `d`. */
  predicate Verifies(info: Info, sig: Point, pubkeyG2: Point, d: Digest) {
    sig == Scale(info.hashToG1(d), pubkeyG2)
  }

  datatype SubmitError = NoError | OperatorNotInQuorum | IncorrectSignature
}
