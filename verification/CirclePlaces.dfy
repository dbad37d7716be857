/** Places on a circle that turns around one fixed place: who faces whom, and when. */
module CirclePlaces {

  /** With `2 * h` places, of which the first stays put: who sits at place `p` after `k` turns, named by the
      place they had at the start. */
  function Sitting(h: nat, k: nat, p: nat): (a: nat)
    requires k <= 2 * h - 1 && p < 2 * h
    ensures a < 2 * h
  {
    if p == 0 then 0 else if p > k then p - k else p + 2 * h - 1 - k
  }

  /** The place after `k` turns of whoever started at `a`. */
  function PlaceOf(h: nat, k: nat, a: nat): (p: nat)
    requires k <= 2 * h - 1 && a < 2 * h
    ensures p < 2 * h && Sitting(h, k, p) == a
  {
    if a == 0 then 0 else if a + k <= 2 * h - 1 then a + k else a + k - (2 * h - 1)
  }

  /** `a` and `b` face each other over places `i` and `2 * h - 1 - i` after `k` turns. */
  predicate Faces(h: nat, k: nat, i: nat, a: nat, b: nat)
    requires k < 2 * h - 1 && i < h
  {
    var x, y := Sitting(h, k, i), Sitting(h, k, 2 * h - 1 - i);
    (x == a && y == b) || (x == b && y == a)
  }

  /** When two places of the start face each other. */
  function TurnOf(h: nat, a: nat, b: nat): (k: nat)
    requires a < 2 * h && b < 2 * h && a != b
    ensures k < 2 * h - 1
  {
    var half := (a + b) / 2;
    if a == 0 then 2 * h - 1 - b
    else if b == 0 then 2 * h - 1 - a
    else if a + b == 2 * half then 2 * h - 1 - half
    else if half < h then h - 1 - half
    else 3 * h - 2 - half
  }

  /** Over which pair of places they do. */
  function PairOf(h: nat, a: nat, b: nat): (i: nat)
    requires a < 2 * h && b < 2 * h && a != b
    ensures i < h
  {
    var p := PlaceOf(h, TurnOf(h, a, b), a);
    if p < h then p else 2 * h - 1 - p
  }

  /** Every two places face each other exactly once on the whole way round. */
  lemma FaceExactlyOnce(h: nat, k: nat, i: nat, a: nat, b: nat)
    requires k < 2 * h - 1 && i < h && a < 2 * h && b < 2 * h && a != b
    ensures Faces(h, k, i, a, b) <==> k == TurnOf(h, a, b) && i == PairOf(h, a, b)
  {
  }

  /** In every turn each place faces exactly one other. */
  function Opposite(h: nat, k: nat, a: nat): (b: nat)
    requires k < 2 * h - 1 && a < 2 * h
    ensures b < 2 * h && b != a
    ensures TurnOf(h, a, b) == k
  {
    Sitting(h, k, 2 * h - 1 - PlaceOf(h, k, a))
  }

  /** Over which pair of places `a` plays after `k` turns. */
  function OwnPair(h: nat, k: nat, a: nat): (i: nat)
    requires k < 2 * h - 1 && a < 2 * h
    ensures i < h
  {
    var p := PlaceOf(h, k, a);
    if p < h then p else 2 * h - 1 - p
  }

  lemma OppositeExactly(h: nat, k: nat, a: nat, b: nat)
    requires k < 2 * h - 1 && a < 2 * h && b < 2 * h && a != b
    ensures Opposite(h, k, a) == b <==> k == TurnOf(h, a, b)
  {
    FaceExactlyOnce(h, k, OwnPair(h, k, a), a, b);
  }

  /** The pair `i` holds `a` exactly when it is its own, and then its other half is the opponent. */
  lemma OwnPairExactly(h: nat, k: nat, i: nat, a: nat)
    requires k < 2 * h - 1 && i < h && a < 2 * h
    ensures i == OwnPair(h, k, a) <==> Sitting(h, k, i) == a || Sitting(h, k, 2 * h - 1 - i) == a
    ensures Sitting(h, k, i) == a ==> Sitting(h, k, 2 * h - 1 - i) == Opposite(h, k, a)
    ensures Sitting(h, k, 2 * h - 1 - i) == a ==> Sitting(h, k, i) == Opposite(h, k, a)
  {
  }

  /** Whether the place hosts after `k` turns, when the sides swap with every pair and every round. */
  predicate HostsAt(h: nat, k: nat, a: nat) {
    if a == 0 then k % 2 == 1 else (a % 2 == 1) == (a + k <= 2 * h - 1)
  }

  /** The right side of pair `i` hosts when round and pair add up to an odd number, else the left. */
  lemma HostSide(h: nat, k: nat, a: nat)
    requires k < 2 * h - 1 && a < 2 * h
    ensures var i := OwnPair(h, k, a);
      HostsAt(h, k, a) <==> (if (k + 1 + i) % 2 == 1 then Sitting(h, k, 2 * h - 1 - i) == a else Sitting(h, k, i) == a)
  {
  }

  /** In how many of the first `n` turns the place hosts. */
  function HostedBefore(h: nat, a: nat, n: nat): int {
    if a == 0 then n / 2
    else if a % 2 == 1 then (if n < 2 * h - a then n else 2 * h - a)
    else if n < 2 * h - a then 0 else n - (2 * h - a)
  }

  lemma HostedNext(h: nat, a: nat, k: nat)
    requires k < 2 * h - 1 && a < 2 * h
    ensures HostedBefore(h, a, k + 1) == HostedBefore(h, a, k) + if HostsAt(h, k, a) then 1 else 0
  {
  }

  /** Against the last place, everybody but the first would be host. */
  lemma HostsTheLast(h: nat, a: nat)
    requires a < 2 * h - 1
    ensures HostsAt(h, TurnOf(h, a, 2 * h - 1), a) <==> a != 0
  {
  }
}
