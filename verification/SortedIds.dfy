/** Sets of operator ids listed in ascending order. */
module SortedIds {

  ghost predicate StrictlyAscending(ids: seq<nat>) {
    forall i, j :: 0 <= i < j < |ids| ==> ids[i] < ids[j]
  }

  ghost predicate Lists(ids: seq<nat>, s: set<nat>) {
    forall o :: o in ids <==> o in s
  }

  lemma {:induction false} HasMaximum(s: set<nat>)
    requires s != {}
    ensures exists m :: IsMaximum(m, s)
    decreases |s|
  {
    var y :| y in s;
    if s == {y} {
      assert IsMaximum(y, s);
    } else {
      HasMaximum(s - {y});
      var m :| IsMaximum(m, s - {y});
      var top := if m < y then y else m;
      assert forall x <- s :: x == y || x in s - {y};
      assert IsMaximum(top, s);
    }
  }

  ghost predicate IsMaximum(m: nat, s: set<nat>) {
    m in s && forall x <- s :: x <= m
  }

  /** The members of `s` in ascending order. */
  ghost function Sorted(s: set<nat>): (ids: seq<nat>)
    ensures StrictlyAscending(ids) && Lists(ids, s)
    decreases |s|
  {
    if s == {} then []
    else
      HasMaximum(s);
      var m :| IsMaximum(m, s);
      AppendMaximum(Sorted(s - {m}), s, m);
      Sorted(s - {m}) + [m]
  }

  lemma AppendMaximum(ids: seq<nat>, s: set<nat>, m: nat)
    requires IsMaximum(m, s) && StrictlyAscending(ids) && Lists(ids, s - {m})
    ensures StrictlyAscending(ids + [m]) && Lists(ids + [m], s)
  {
    assert forall i :: 0 <= i < |ids| ==> ids[i] in s - {m};
    forall o ensures o in ids + [m] <==> o in s {
      assert o in s <==> o in s - {m} || o == m;
    }
  }

  lemma ListsFront(ids: seq<nat>, s: set<nat>)
    requires StrictlyAscending(ids) && Lists(ids, s) && ids != []
    ensures var n := |ids| - 1;
      ids[n] in s && StrictlyAscending(ids[..n]) && Lists(ids[..n], s - {ids[n]})
  {
    var front, m := ids[..|ids| - 1], ids[|ids| - 1];
    assert ids == front + [m];
    assert m in ids;
  }

  /** There is only one ascending order of a set. */
  lemma {:induction false} SortedIsUnique(ids: seq<nat>, s: set<nat>)
    requires StrictlyAscending(ids) && Lists(ids, s)
    ensures ids == Sorted(s)
    decreases |ids|
  {
    if ids == [] {
      assert s == {};
    } else {
      var front, m := ids[..|ids| - 1], ids[|ids| - 1];
      assert ids == front + [m];
      assert forall x <- s :: x in ids && x <= m;
      assert IsMaximum(m, s);
      ListsFront(ids, s);
      SortedIsUnique(front, s - {m});
      assert forall k :: IsMaximum(k, s) ==> k == m;
    }
  }
}
