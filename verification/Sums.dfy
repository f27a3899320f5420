/** Sums of integers over finite sets, taken in no particular order. */
module Sums {

  /** The sum of `f` over `s`. The choice of element does not matter: see `SumRemove`. */
  ghost function Sum<K>(s: set<K>, f: map<K, int>): (r: int)
    requires s <= f.Keys
  {
    if s == {} then 0
    else
      var x :| x in s;
      f[x] + Sum(s - {x}, f)
  }

  /** Any element may be taken out first. */
  lemma {:induction false} SumRemove<K>(s: set<K>, f: map<K, int>, x: K)
    requires s <= f.Keys && x in s
    ensures Sum(s, f) == f[x] + Sum(s - {x}, f)
    decreases |s|
  {
    var y :| y in s && Sum(s, f) == f[y] + Sum(s - {y}, f);
    if y != x {
      SumRemove(s - {y}, f, x);
      SumRemove(s - {x}, f, y);
      assert s - {y} - {x} == s - {x} - {y};
    }
  }

  lemma SumInsert<K>(s: set<K>, f: map<K, int>, x: K)
    requires s + {x} <= f.Keys && x !in s
    ensures Sum(s + {x}, f) == Sum(s, f) + f[x]
  {
    SumRemove(s + {x}, f, x);
    assert s + {x} - {x} == s;
  }

  lemma SumSingleton<K>(f: map<K, int>, x: K)
    requires x in f
    ensures Sum({x}, f) == f[x]
  {
    SumRemove({x}, f, x);
  }

  lemma {:induction false} SumUnion<K>(s: set<K>, t: set<K>, f: map<K, int>)
    requires s + t <= f.Keys && s !! t
    ensures Sum(s + t, f) == Sum(s, f) + Sum(t, f)
    decreases |t|
  {
    if t == {} {
      assert s + t == s;
    } else {
      var x :| x in t;
      SumUnion(s, t - {x}, f);
      SumRemove(t, f, x);
      SumRemove(s + t, f, x);
      assert s + t - {x} == s + (t - {x});
    }
  }

  lemma SumPart<K>(s: set<K>, t: set<K>, f: map<K, int>)
    requires t <= s <= f.Keys
    ensures Sum(s, f) == Sum(s - t, f) + Sum(t, f)
  {
    assert s - t + t == s;
    SumUnion(s - t, t, f);
  }

  lemma {:induction false} SumOfZeros<K>(s: set<K>, f: map<K, int>)
    requires s <= f.Keys && forall x <- s :: f[x] == 0
    ensures Sum(s, f) == 0
    decreases |s|
  {
    if s != {} {
      var x :| x in s;
      SumRemove(s, f, x);
      SumOfZeros(s - {x}, f);
    }
  }

  lemma {:induction false} SumCongruent<K>(s: set<K>, f: map<K, int>, g: map<K, int>)
    requires s <= f.Keys && s <= g.Keys
    requires forall x <- s :: f[x] == g[x]
    ensures Sum(s, f) == Sum(s, g)
    decreases |s|
  {
    if s != {} {
      var x :| x in s;
      SumCongruent(s - {x}, f, g);
      SumRemove(s, f, x);
      SumRemove(s, g, x);
    }
  }

  lemma {:induction false} SumNonNegative<K>(s: set<K>, f: map<K, int>)
    requires s <= f.Keys
    requires forall x <- s :: f[x] >= 0
    ensures Sum(s, f) >= 0
    decreases |s|
  {
    if s != {} {
      var x :| x in s;
      SumNonNegative(s - {x}, f);
      SumRemove(s, f, x);
    }
  }

  lemma SumMonotone<K>(s: set<K>, t: set<K>, f: map<K, int>)
    requires s <= t <= f.Keys
    requires forall x <- t :: f[x] >= 0
    ensures Sum(s, f) <= Sum(t, f)
  {
    SumUnion(s, t - s, f);
    SumNonNegative(t - s, f);
    assert s + (t - s) == t;
  }
}
