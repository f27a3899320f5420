/**
 * The difference between two weighted operator sets. The program collects both sets in a map keyed
 * by the decimal text of a public key's coordinates, and lists the keys whose weight changed.
 */
module OperatorSetDelta {

  datatype Pubkey = Pubkey(x: nat, y: nat)

  datatype Operator = Operator(pubkey: Pubkey, weight: nat)

  // ---------------------------------------------------------------------------------------------
  // The text keys

  function DigitChar(d: nat): char
    requires d < 10
  {
    '0' + d as char
  }

  /** Decimal digits without leading zeros, as `big.Int` prints them. */
  function Decimal(n: nat): (s: string)
    ensures s != [] && forall i :: 0 <= i < |s| ==> '0' <= s[i] <= '9'
  {
    if n < 10 then [DigitChar(n)] else Decimal(n / 10) + [DigitChar(n % 10)]
  }

  /** The number that a decimal text stands for. */
  function Value(s: string): nat
    requires forall i :: 0 <= i < |s| ==> '0' <= s[i] <= '9'
  {
    if s == [] then 0 else Value(s[..|s| - 1]) * 10 + (s[|s| - 1] - '0') as nat
  }

  lemma {:induction false} ValueOfDecimal(n: nat)
    ensures Value(Decimal(n)) == n
  {
    var s := Decimal(n);
    if n < 10 {
      assert s[..0] == [];
    } else {
      ValueOfDecimal(n / 10);
      assert s[..|s| - 1] == Decimal(n / 10);
    }
  }

  function Key(p: Pubkey): string {
    Decimal(p.x) + "_" + Decimal(p.y)
  }

  /** The separator is the only character that is no digit, so a key splits in one way. */
  lemma KeySplits(a: string, b: string, c: string, d: string)
    requires forall i :: 0 <= i < |a| ==> '0' <= a[i] <= '9'
    requires forall i :: 0 <= i < |c| ==> '0' <= c[i] <= '9'
    requires a + "_" + b == c + "_" + d
    ensures a == c && b == d
  {
    var s, t := a + "_" + b, c + "_" + d;
    assert s[|a|] == '_' && t[|c|] == '_';
    assert forall i :: 0 <= i < |a| ==> s[i] == a[i] && s[i] != '_';
    assert forall i :: 0 <= i < |c| ==> t[i] == c[i] && t[i] != '_';
    assert |a| == |c|;
    assert a == s[..|a|] && c == t[..|c|];
    assert b == s[|a| + 1..] && d == t[|c| + 1..];
  }

  /** Different public keys have different texts. */
  lemma KeyIsInjective(p: Pubkey, q: Pubkey)
    requires Key(p) == Key(q)
    ensures p == q
  {
    KeySplits(Decimal(p.x), Decimal(p.y), Decimal(q.x), Decimal(q.y));
    ValueOfDecimal(p.x);
    ValueOfDecimal(q.x);
    ValueOfDecimal(p.y);
    ValueOfDecimal(q.y);
  }

  // ---------------------------------------------------------------------------------------------
  // Sets and deltas

  predicate Occurs(ops: seq<Operator>, p: Pubkey) {
    exists i :: 0 <= i < |ops| && ops[i].pubkey == p
  }

  /** The weight a list gives a key: that of its last entry, or zero. */
  function Weight(ops: seq<Operator>, p: Pubkey): nat {
    if ops == [] then 0
    else if ops[|ops| - 1].pubkey == p then ops[|ops| - 1].weight
    else Weight(ops[..|ops| - 1], p)
  }

  /** `delta` lists exactly the keys whose weight changed, once each, with the new weight. */
  ghost predicate IsDelta(previous: seq<Operator>, next: seq<Operator>, delta: seq<Operator>) {
    && (forall i, j :: 0 <= i < j < |delta| ==> delta[i].pubkey != delta[j].pubkey)
    && (forall i :: 0 <= i < |delta| ==>
          Changed(previous, next, delta[i].pubkey) && delta[i].weight == Weight(next, delta[i].pubkey))
    && (forall p :: Changed(previous, next, p) ==> Occurs(delta, p))
  }

  predicate Changed(previous: seq<Operator>, next: seq<Operator>, p: Pubkey) {
    Weight(previous, p) != Weight(next, p)
  }

  /** Replacing the weights of the listed keys turns the previous set into the next. */
  lemma DeltaRoundTrip(previous: seq<Operator>, next: seq<Operator>, delta: seq<Operator>, p: Pubkey)
    requires IsDelta(previous, next, delta)
    ensures (if Occurs(delta, p) then Weight(delta, p) else Weight(previous, p)) == Weight(next, p)
  {
    if i :| 0 <= i < |delta| && delta[i].pubkey == p {
      WeightOfDistinct(delta, i);
    }
  }

  lemma {:induction false} WeightOfDistinct(ops: seq<Operator>, i: nat)
    requires forall j, k :: 0 <= j < k < |ops| ==> ops[j].pubkey != ops[k].pubkey
    requires i < |ops|
    ensures Weight(ops, ops[i].pubkey) == ops[i].weight
  {
    if i < |ops| - 1 {
      WeightOfDistinct(ops[..|ops| - 1], i);
    }
  }

  lemma {:induction false} NoWeightUnlessListed(ops: seq<Operator>, p: Pubkey)
    ensures !Occurs(ops, p) ==> Weight(ops, p) == 0
  {
    if ops != [] && !Occurs(ops, p) {
      var front := ops[..|ops| - 1];
      assert !Occurs(front, p) by {
        assert forall i :: 0 <= i < |front| ==> front[i] == ops[i];
      }
      NoWeightUnlessListed(front, p);
    }
  }

  // ---------------------------------------------------------------------------------------------
  // Computing the delta

  datatype Update = Update(pubkey: Pubkey, previousWeight: nat, newWeight: nat)

  /** The collected map holds, for every key of the two lists, both weights. */
  ghost predicate Collected(m: map<string, Update>, previous: seq<Operator>, next: seq<Operator>) {
    && (forall k :: k in m ==>
        && k == Key(m[k].pubkey)
        && m[k].previousWeight == Weight(previous, m[k].pubkey) && m[k].newWeight == Weight(next, m[k].pubkey))
    && (forall p :: Occurs(previous, p) || Occurs(next, p) ==> Key(p) in m)
  }

  lemma OccursSnoc(ops: seq<Operator>, o: Operator, p: Pubkey)
    ensures Occurs(ops + [o], p) <==> Occurs(ops, p) || o.pubkey == p
    ensures Weight(ops + [o], p) == if o.pubkey == p then o.weight else Weight(ops, p)
  {
    assert (ops + [o])[..|ops|] == ops;
    assert (ops + [o])[|ops|] == o;
    assert forall i :: 0 <= i < |ops| ==> (ops + [o])[i] == ops[i];
  }

  /** Entering an operator of the previous set. */
  lemma EnterPrevious(m: map<string, Update>, previous: seq<Operator>, o: Operator)
    requires Collected(m, previous, [])
    ensures Collected(m[Key(o.pubkey) := Update(o.pubkey, o.weight, 0)], previous + [o], [])
  {
    var r := m[Key(o.pubkey) := Update(o.pubkey, o.weight, 0)];
    forall k | k in r ensures r[k].previousWeight == Weight(previous + [o], r[k].pubkey) {
      OccursSnoc(previous, o, r[k].pubkey);
      if k != Key(o.pubkey) {
        assert r[k].pubkey != o.pubkey;
      }
    }
    forall p | Occurs(previous + [o], p) || Occurs([], p) ensures Key(p) in r {
      OccursSnoc(previous, o, p);
    }
  }

  /** Entering an operator of the next set: a known key keeps its previous weight. */
  lemma EnterNext(m: map<string, Update>, previous: seq<Operator>, next: seq<Operator>, o: Operator)
    requires Collected(m, previous, next)
    ensures var k := Key(o.pubkey);
      var u := if k in m then m[k].(newWeight := o.weight) else Update(o.pubkey, 0, o.weight);
      Collected(m[k := u], previous, next + [o])
  {
    var key := Key(o.pubkey);
    var u := if key in m then m[key].(newWeight := o.weight) else Update(o.pubkey, 0, o.weight);
    var r := m[key := u];
    if key in m {
      KeyIsInjective(m[key].pubkey, o.pubkey);
    } else {
      NoWeightUnlessListed(previous, o.pubkey);
    }
    forall k | k in r ensures r[k].newWeight == Weight(next + [o], r[k].pubkey) {
      OccursSnoc(next, o, r[k].pubkey);
    }
    forall p | Occurs(previous, p) || Occurs(next + [o], p) ensures Key(p) in r {
      OccursSnoc(next, o, p);
    }
  }

  method Collect(previous: seq<Operator>, next: seq<Operator>) returns (operators: map<string, Update>)
    ensures Collected(operators, previous, next)
  {
    operators := map[];
    for i := 0 to |previous|
      invariant Collected(operators, previous[..i], [])
    {
      EnterPrevious(operators, previous[..i], previous[i]);
      assert previous[..i + 1] == previous[..i] + [previous[i]];
      operators := operators[Key(previous[i].pubkey) := Update(previous[i].pubkey, previous[i].weight, 0)];
    }
    assert previous[..|previous|] == previous && next[..0] == [];
    for i := 0 to |next|
      invariant Collected(operators, previous, next[..i])
    {
      EnterNext(operators, previous, next[..i], next[i]);
      assert next[..i + 1] == next[..i] + [next[i]];
      var k := Key(next[i].pubkey);
      if k in operators {
        operators := operators[k := operators[k].(newWeight := next[i].weight)];
      } else {
        operators := operators[k := Update(next[i].pubkey, 0, next[i].weight)];
      }
    }
    assert next[..|next|] == next;
  }

  /** `delta` lists, once each and with the new weight, the changed entries of `m` among `done`. */
  ghost predicate Listed(m: map<string, Update>, done: set<string>, delta: seq<Operator>) {
    && done <= m.Keys
    && (forall i, j :: 0 <= i < j < |delta| ==> delta[i].pubkey != delta[j].pubkey)
    && (forall i :: 0 <= i < |delta| ==> ListedAs(m, done, delta[i]))
    && (forall k :: k in done && m[k].previousWeight != m[k].newWeight ==> Occurs(delta, m[k].pubkey))
  }

  ghost predicate ListedAs(m: map<string, Update>, done: set<string>, o: Operator)
    requires done <= m.Keys
  {
    var k := Key(o.pubkey);
    k in done && m[k].pubkey == o.pubkey && m[k].newWeight == o.weight && m[k].previousWeight != m[k].newWeight
  }

  /** The order of the list is arbitrary, as a Go map's is; the final sort only swaps entries. */
  method ListChanges(operators: map<string, Update>) returns (delta: seq<Operator>)
    requires forall k :: k in operators ==> k == Key(operators[k].pubkey)
    ensures Listed(operators, operators.Keys, delta)
  {
    delta := [];
    var rest := operators.Keys;
    while rest != {}
      invariant rest <= operators.Keys && Listed(operators, operators.Keys - rest, delta)
      decreases rest
    {
      var k :| k in rest;
      var u := operators[k];
      ghost var done, before := operators.Keys - rest, delta;
      rest := rest - {k};
      if u.previousWeight != u.newWeight {
        delta := delta + [Operator(u.pubkey, u.newWeight)];
      }
      assert operators.Keys - rest == done + {k};
      ListMore(operators, done, before, k);
    }
    assert operators.Keys - {} == operators.Keys;
  }

  lemma ListMore(m: map<string, Update>, done: set<string>, delta: seq<Operator>, k: string)
    requires Listed(m, done, delta) && k in m && k !in done && (forall l :: l in m ==> l == Key(m[l].pubkey))
    ensures Listed(m, done + {k},
      if m[k].previousWeight != m[k].newWeight then delta + [Operator(m[k].pubkey, m[k].newWeight)] else delta)
  {
    var o := Operator(m[k].pubkey, m[k].newWeight);
    var r := if m[k].previousWeight != m[k].newWeight then delta + [o] else delta;
    forall i | 0 <= i < |r| ensures ListedAs(m, done + {k}, r[i]) {
      assert i < |delta| ==> ListedAs(m, done, delta[i]);
    }
    forall i | 0 <= i < |delta| ensures delta[i].pubkey != o.pubkey {
      assert ListedAs(m, done, delta[i]);
    }
    forall l | l in done + {k} && m[l].previousWeight != m[l].newWeight ensures Occurs(r, m[l].pubkey) {
      OccursSnoc(delta, o, m[l].pubkey);
    }
  }

  /** The delta after the sort, whose comparator is not consistent: some swaps of entries. */
  function Swapped(delta: seq<Operator>, swaps: seq<(nat, nat)>): (r: seq<Operator>)
    ensures |r| == |delta|
    decreases |swaps|
  {
    if swaps == [] then delta
    else
      var (i, j) := swaps[0];
      if i < |delta| && j < |delta| then Swapped(delta[i := delta[j]][j := delta[i]], swaps[1..])
      else Swapped(delta, swaps[1..])
  }

  lemma {:induction false} SwapsKeepDelta(previous: seq<Operator>, next: seq<Operator>, delta: seq<Operator>,
                                          swaps: seq<(nat, nat)>)
    requires IsDelta(previous, next, delta)
    ensures IsDelta(previous, next, Swapped(delta, swaps))
    decreases |swaps|
  {
    if swaps != [] {
      var (i, j) := swaps[0];
      if i < |delta| && j < |delta| {
        var r := delta[i := delta[j]][j := delta[i]];
        forall p | Changed(previous, next, p) ensures Occurs(r, p) {
          var k :| 0 <= k < |delta| && delta[k].pubkey == p;
          assert r[if k == i then j else if k == j then i else k].pubkey == p;
        }
        SwapsKeepDelta(previous, next, r, swaps[1..]);
      } else {
        SwapsKeepDelta(previous, next, delta, swaps[1..]);
      }
    }
  }

  /** `GetOperatorSetUpdateDelta`, for whatever swaps the sort makes. */
  method GetOperatorSetUpdateDelta(previous: seq<Operator>, next: seq<Operator>, swaps: seq<(nat, nat)>)
    returns (delta: seq<Operator>)
    ensures IsDelta(previous, next, delta)
  {
    var operators := Collect(previous, next);
    delta := ListChanges(operators);
    assert IsDelta(previous, next, delta) by {
      forall i | 0 <= i < |delta|
        ensures Changed(previous, next, delta[i].pubkey) && delta[i].weight == Weight(next, delta[i].pubkey)
      {
        assert ListedAs(operators, operators.Keys, delta[i]);
      }
      forall p | Changed(previous, next, p) ensures Occurs(delta, p) {
        NoWeightUnlessListed(previous, p);
        NoWeightUnlessListed(next, p);
        KeyIsInjective(operators[Key(p)].pubkey, p);
      }
    }
    SwapsKeepDelta(previous, next, delta, swaps);
    delta := Swapped(delta, swaps);
  }
}
