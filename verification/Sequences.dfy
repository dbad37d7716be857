/** Counting, filtering and deduplicating the elements of a sequence. */
module Sequences {

  function Count<T>(p: T -> bool, s: seq<T>): nat {
    if s == [] then 0 else Count(p, s[..|s| - 1]) + if p(s[|s| - 1]) then 1 else 0
  }

  function Filter<T>(p: T -> bool, s: seq<T>): seq<T> {
    if s == [] then []
    else Filter(p, s[..|s| - 1]) + if p(s[|s| - 1]) then [s[|s| - 1]] else []
  }

  lemma {:induction false} CountAppend<T>(p: T -> bool, a: seq<T>, b: seq<T>)
    ensures Count(p, a + b) == Count(p, a) + Count(p, b)
  {
    if b == [] {
      assert a + b == a;
    } else {
      assert (a + b)[..|a + b| - 1] == a + b[..|b| - 1];
      CountAppend(p, a, b[..|b| - 1]);
    }
  }

  function Without<T>(s: seq<T>, j: nat): seq<T>
    requires j < |s|
  {
    s[..j] + s[j + 1..]
  }

  lemma CountMiddle<T>(p: T -> bool, a: seq<T>, x: T, b: seq<T>, whole: seq<T>)
    requires whole == a + [x] + b
    ensures Count(p, whole) == Count(p, a) + Count(p, b) + if p(x) then 1 else 0
  {
    var front := a + [x];
    CountAppend(p, front, b);
    CountAppend(p, a, [x]);
  }

  lemma SplitAt<T>(s: seq<T>, j: nat)
    requires j < |s|
    ensures s == s[..j] + [s[j]] + s[j + 1..]
  {
  }

  lemma CountWithout<T>(p: T -> bool, s: seq<T>, j: nat)
    requires j < |s|
    ensures Count(p, s) == Count(p, Without(s, j)) + if p(s[j]) then 1 else 0
  {
    var a, b := s[..j], s[j + 1..];
    SplitAt(s, j);
    CountMiddle(p, a, s[j], b, s);
    CountAppend(p, a, b);
    assert Without(s, j) == a + b;
  }

  lemma MultisetWithout<T>(s: seq<T>, j: nat)
    requires j < |s|
    ensures multiset(s) == multiset(Without(s, j)) + multiset{s[j]}
  {
    SplitAt(s, j);
  }

  lemma Cancel<T>(m: multiset<T>, n: multiset<T>, x: T)
    requires m + multiset{x} == n + multiset{x}
    ensures m == n
  {
    assert m == (m + multiset{x}) - multiset{x} && n == (n + multiset{x}) - multiset{x};
  }

  /** Counting does not look at the order. */
  lemma {:induction false} CountPermutes<T>(p: T -> bool, a: seq<T>, b: seq<T>)
    requires multiset(a) == multiset(b)
    ensures Count(p, a) == Count(p, b)
    decreases |a|
  {
    if a == [] {
      assert |multiset(b)| == 0;
    } else {
      assert a[0] in multiset(b);
      var j :| 0 <= j < |b| && b[j] == a[0];
      MultisetWithout(a, 0);
      MultisetWithout(b, j);
      CountWithout(p, a, 0);
      CountWithout(p, b, j);
      Cancel(multiset(Without(a, 0)), multiset(Without(b, j)), a[0]);
      CountPermutes(p, Without(a, 0), Without(b, j));
    }
  }

  predicate Holds<T>(p: T -> bool, s: seq<T>, i: nat) {
    i < |s| && p(s[i])
  }

  lemma {:induction false} CountPositive<T>(p: T -> bool, s: seq<T>)
    ensures Count(p, s) > 0 <==> exists i: nat :: Holds(p, s, i)
  {
    if s != [] {
      var rest := s[..|s| - 1];
      CountPositive(p, rest);
      if i: nat :| Holds(p, rest, i) {
        assert Holds(p, s, i);
      }
      if i: nat :| Holds(p, s, i) {
        assert i < |s| - 1 ==> Holds(p, rest, i);
      }
      assert p(s[|s| - 1]) ==> Holds(p, s, |s| - 1);
    }
  }

  lemma {:induction false} CountPair<T>(p: T -> bool, s: seq<T>)
    ensures Count(p, s) > 1 <==> exists i: nat, j: nat :: i < j && Holds(p, s, i) && Holds(p, s, j)
  {
    if s != [] {
      var rest := s[..|s| - 1];
      CountPair(p, rest);
      CountPositive(p, rest);
      if i: nat, j: nat :| i < j && Holds(p, rest, i) && Holds(p, rest, j) {
        assert Holds(p, s, i) && Holds(p, s, j);
      }
      if i: nat :| Holds(p, rest, i) {
        assert Holds(p, s, i) && i < |s| - 1;
        assert p(s[|s| - 1]) ==> Holds(p, s, |s| - 1);
      }
      if i: nat, j: nat :| i < j && Holds(p, s, i) && Holds(p, s, j) {
        assert Holds(p, rest, i);
        assert j < |s| - 1 ==> Holds(p, rest, j);
      }
    }
  }

  predicate NoRepeats<T(==)>(s: seq<T>) {
    forall i, j :: 0 <= i < j < |s| ==> s[i] != s[j]
  }

  predicate Repeats<T(==)>(s: seq<T>)
    ensures Repeats(s) <==> !NoRepeats(s)
  {
    exists i, j :: 0 <= i < j < |s| && s[i] == s[j]
  }

  /** Each element once, where it first occurs. */
  function Distinct<T(==,!new)>(s: seq<T>): (r: seq<T>)
    ensures forall x :: x in r <==> x in s
    ensures NoRepeats(r)
  {
    if |s| == 0 then []
    else
      var n := |s| - 1;
      var before := Distinct(s[..n]);
      assert s == s[..n] + [s[n]];
      if s[n] in before then before else before + [s[n]]
  }

  predicate Precedes<T(==)>(r: seq<T>, x: T, y: T) {
    exists a: nat, b: nat :: a < b < |r| && r[a] == x && r[b] == y
  }

  lemma LastComesLast<T>(r: seq<T>, x: T, y: T)
    requires x in r
    ensures Precedes(r + [y], x, y)
  {
    var a: nat :| a < |r| && r[a] == x;
    assert (r + [y])[a] == x && (r + [y])[|r|] == y;
  }

  lemma StillPrecedes<T>(r: seq<T>, more: seq<T>, x: T, y: T)
    requires Precedes(r, x, y)
    ensures Precedes(r + more, x, y)
  {
    var a: nat, b: nat :| a < b < |r| && r[a] == x && r[b] == y;
    assert (r + more)[a] == x && (r + more)[b] == y;
  }

  /** In the order of the first occurrences. */
  lemma {:induction false} DistinctInOrder<T(!new)>(s: seq<T>, i: nat, j: nat)
    requires i < j < |s| && s[j] !in s[..j]
    ensures Precedes(Distinct(s), s[i], s[j])
  {
    var n := |s| - 1;
    var before := Distinct(s[..n]);
    if j < n {
      assert s[..n][..j] == s[..j];
      DistinctInOrder(s[..n], i, j);
      StillPrecedes(before, if s[n] in before then [] else [s[n]], s[i], s[j]);
      assert before + [] == before;
    } else {
      assert s[i] in s[..n];
      LastComesLast(before, s[i], s[n]);
    }
  }
}
