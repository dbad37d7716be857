/** Ordering the identifiers of a set of rows, as ORDER BY id does. */
module Ordering {

  ghost predicate Ascending(ids: seq<nat>) {
    forall i, j :: 0 <= i < j < |ids| ==> ids[i] < ids[j]
  }

  /** ORDER BY id. */
  ghost predicate Orders(ids: seq<nat>, s: set<nat>) {
    Ascending(ids) && forall id :: id in ids <==> id in s
  }

  predicate IsLeast(s: set<nat>, least: nat) {
    least in s && forall id :: id in s ==> least <= id
  }

  lemma {:induction false} LeastExists(s: set<nat>)
    requires s != {}
    ensures exists least :: IsLeast(s, least)
  {
    var some :| some in s;
    if s == {some} {
      assert IsLeast(s, some);
    } else {
      LeastExists(s - {some});
      var m :| IsLeast(s - {some}, m);
      var least := if m < some then m else some;
      forall id | id in s ensures least <= id {
        assert id == some || id in s - {some};
      }
      assert IsLeast(s, least);
    }
  }

  function Least(s: set<nat>): (least: nat)
    requires s != {}
    ensures IsLeast(s, least)
  {
    LeastExists(s);
    var least :| IsLeast(s, least);
    least
  }

  function OrderById(s: set<nat>): (ids: seq<nat>)
    ensures Orders(ids, s) && |ids| == |s|
    decreases |s|
  {
    if s == {} then []
    else
      var rest := OrderById(s - {Least(s)});
      [Least(s)] + rest
  }

  function Elements(ids: seq<nat>): set<nat> {
    set id | id in ids
  }

  lemma {:induction false} SizeOfDistinct(ids: seq<nat>)
    requires forall i, j :: 0 <= i < j < |ids| ==> ids[i] != ids[j]
    ensures |ids| == |Elements(ids)|
  {
    if ids != [] {
      SizeOfDistinct(ids[1..]);
      assert ids[0] !in Elements(ids[1..]);
      assert Elements(ids) == Elements(ids[1..]) + {ids[0]};
    }
  }

  lemma SubsetOfSameSize(a: set<nat>, b: set<nat>)
    requires a <= b && |a| == |b|
    ensures a == b
  {
    assert b == a + (b - a);
    assert |b| == |a| + |b - a|;
  }

  function Smaller(s: set<nat>, id: nat): set<nat> {
    set other | other in s && other < id
  }

  /** ORDER BY id LIMIT n: the identifiers with fewer than n smaller ones. */
  function FirstOf(s: set<nat>, n: nat): (first: set<nat>)
    ensures first <= s
  {
    set id | id in s && |Smaller(s, id)| < n
  }

  /** In order, the k-th identifier has k smaller ones. */
  lemma SmallerAt(s: set<nat>, ids: seq<nat>, k: nat)
    requires Orders(ids, s) && k < |ids|
    ensures |Smaller(s, ids[k])| == k
  {
    var below := ids[..k];
    SizeOfDistinct(below);
    forall id ensures id in Smaller(s, ids[k]) <==> id in Elements(below) {
      if id in s && id < ids[k] {
        var j :| 0 <= j < |ids| && ids[j] == id;
        assert below[j] == id;
      }
    }
    assert Smaller(s, ids[k]) == Elements(below);
  }

  lemma FirstIsPrefix(s: set<nat>, ids: seq<nat>, n: nat, m: nat)
    requires Orders(ids, s) && m == if |ids| <= n then |ids| else n
    ensures FirstOf(s, n) == Elements(ids[..m])
  {
    forall id ensures id in FirstOf(s, n) <==> id in Elements(ids[..m]) {
      if id in s {
        var j :| 0 <= j < |ids| && ids[j] == id;
        SmallerAt(s, ids, j);
        assert j < m ==> ids[..m][j] == id;
      }
      if id in Elements(ids[..m]) {
        var j :| 0 <= j < m && ids[..m][j] == id;
        SmallerAt(s, ids, j);
      }
    }
  }

  /** A limit keeps the whole set, or exactly as many identifiers as it says. */
  lemma SizeOfFirst(s: set<nat>, n: nat)
    ensures |FirstOf(s, n)| == if |s| <= n then |s| else n
  {
    var ids := OrderById(s);
    var m := if |ids| <= n then |ids| else n;
    FirstIsPrefix(s, ids, n, m);
    SizeOfDistinct(ids[..m]);
  }
}
