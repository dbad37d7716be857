/** What the calendar of a round robin guarantees to every team. */
module RoundRobinFacts {
  import opened CirclePlaces
  import opened RoundRobin
  import opened Sequences
  import opened Wrappers

  /** A circle of `2 * h` places without repetition. */
  predicate IsCircle(c: Rotation, h: nat) {
    h > 0 && |c| == 2 * h && forall i, j :: 0 <= i < j < |c| ==> c[i] != c[j]
  }

  lemma CircleIsCircle(drawn: seq<int>)
    requires |drawn| >= 2 && NoRepeats(drawn)
    ensures IsCircle(Circle(drawn), |Circle(drawn)| / 2)
  {
  }

  /** The place of a team in the draw. */
  function IndexOf(drawn: seq<int>, t: int): (a: nat)
    requires t in drawn
    ensures a < |drawn| && drawn[a] == t
  {
    if drawn[0] == t then 0 else IndexOf(drawn[1..], t) + 1
  }

  // ---------------------------------------------------------------- one hit

  lemma {:induction false} OnePair(q: Question, c: Rotation, h: nat, k: nat, pairs: nat, own: nat, hit: bool)
    requires |c| == 2 * h && k < 2 * h - 1 && pairs <= h
    requires forall i: nat :: i < pairs ==> Hit(q, c, h, k, i) == if hit && i == own then 1 else 0
    ensures OverPairs(q, c, h, k, pairs) == if hit && own < pairs then 1 else 0
  {
    if pairs > 0 {
      OnePair(q, c, h, k, pairs - 1, own, hit);
    }
  }

  lemma {:induction false} OneRound(q: Question, c: Rotation, h: nat, n: nat, turn: nat, hit: bool)
    requires |c| == 2 * h && n <= 2 * h - 1
    requires forall k: nat :: k < n ==> OverPairs(q, c, h, k, h) == if hit && k == turn then 1 else 0
    ensures OverRounds(q, c, h, n) == if hit && turn < n then 1 else 0
  {
    if n > 0 {
      OneRound(q, c, h, n - 1, turn, hit);
    }
  }

  // ---------------------------------------------------------------- who meets whom

  lemma MeetOnce(c: Rotation, h: nat, a: nat, b: nat, t: int, u: int)
    requires IsCircle(c, h) && a < 2 * h && b < 2 * h && a != b && c[a] == Some(t) && c[b] == Some(u)
    ensures OverRounds(Between(t, u), c, h, 2 * h - 1) == 1
  {
    var q, turn, own := Between(t, u), TurnOf(h, a, b), PairOf(h, a, b);
    forall k: nat | k < 2 * h - 1 ensures OverPairs(q, c, h, k, h) == if true && k == turn then 1 else 0 {
      forall i: nat | i < h ensures Hit(q, c, h, k, i) == if k == turn && i == own then 1 else 0 {
        FaceExactlyOnce(h, k, i, a, b);
      }
      OnePair(q, c, h, k, h, own, k == turn);
    }
    OneRound(q, c, h, 2 * h - 1, turn, true);
  }

  /** Every meeting has one of the two as its host. */
  lemma {:induction false} EitherHosts(t: int, u: int, c: Rotation, h: nat, k: nat, pairs: nat)
    requires t != u && |c| == 2 * h && k < 2 * h - 1 && pairs <= h
    ensures OverPairs(Between(t, u), c, h, k, pairs)
         == OverPairs(Hosting(t, u), c, h, k, pairs) + OverPairs(Hosting(u, t), c, h, k, pairs)
  {
    if pairs > 0 {
      EitherHosts(t, u, c, h, k, pairs - 1);
    }
  }

  lemma {:induction false} EitherHostsInAll(t: int, u: int, c: Rotation, h: nat, n: nat)
    requires t != u && |c| == 2 * h && n <= 2 * h - 1
    ensures OverRounds(Between(t, u), c, h, n) == OverRounds(Hosting(t, u), c, h, n) + OverRounds(Hosting(u, t), c, h, n)
  {
    if n > 0 {
      EitherHostsInAll(t, u, c, h, n - 1);
      EitherHosts(t, u, c, h, n - 1, h);
    }
  }

  lemma MeetAndHost(drawn: seq<int>, h: nat, t: int, u: int)
    requires |drawn| >= 2 && NoRepeats(drawn) && |Circle(drawn)| == 2 * h && t in drawn && u in drawn && t != u
    ensures var c, n := Circle(drawn), 2 * h - 1;
      && OverRounds(Between(t, u), c, h, n) == 1
      && OverRounds(Hosting(t, u), c, h, n) + OverRounds(Hosting(u, t), c, h, n) == 1
  {
    CircleIsCircle(drawn);
    MeetOnce(Circle(drawn), h, IndexOf(drawn, t), IndexOf(drawn, u), t, u);
    EitherHostsInAll(t, u, Circle(drawn), h, 2 * h - 1);
  }

  /** Every two teams meet once in each leg, and over two legs once at home and once away. */
  lemma EveryoneMeetsEveryone(matches: seq<Fixture>, drawn: seq<int>, h: nat, legs: nat, t: int, u: int)
    requires |drawn| >= 2 && NoRepeats(drawn) && |Circle(drawn)| == 2 * h && 1 <= legs <= 2
    requires IsCalendar(matches, Circle(drawn), h, legs)
    requires t in drawn && u in drawn && t != u
    ensures HowMany(Between(t, u), matches) == legs
    ensures legs == 2 ==> HowMany(Hosting(t, u), matches) == 1
  {
    MeetAndHost(drawn, h, t, u);
  }

  // ---------------------------------------------------------------- how many

  lemma {:induction false} AllPairs(c: Rotation, h: nat, k: nat, pairs: nat)
    requires |c| == 2 * h && k < 2 * h - 1 && pairs <= h && forall p :: 0 <= p < 2 * h ==> c[p].Some?
    ensures OverPairs(Anything, c, h, k, pairs) == pairs
  {
    if pairs > 0 {
      AllPairs(c, h, k, pairs - 1);
    }
  }

  lemma {:induction false} AllPairsButOne(q: Question, c: Rotation, h: nat, k: nat, pairs: nat, missing: nat)
    requires |c| == 2 * h && k < 2 * h - 1 && pairs <= h
    requires forall i: nat :: i < pairs ==> Hit(q, c, h, k, i) == if i == missing then 0 else 1
    ensures OverPairs(q, c, h, k, pairs) == if missing < pairs then pairs - 1 else pairs
  {
    if pairs > 0 {
      AllPairsButOne(q, c, h, k, pairs - 1, missing);
    }
  }

  lemma InARound(drawn: seq<int>, h: nat, k: nat)
    requires |drawn| >= 2 && |Circle(drawn)| == 2 * h && k < 2 * h - 1
    ensures OverPairs(Anything, Circle(drawn), h, k, h) == |drawn| / 2
  {
    if |drawn| % 2 == 1 {
      var c, missing := Circle(drawn), OwnPair(h, k, 2 * h - 1);
      forall i: nat | i < h ensures Hit(Anything, c, h, k, i) == if i == missing then 0 else 1 {
      }
      AllPairsButOne(Anything, c, h, k, h, missing);
    } else {
      AllPairs(Circle(drawn), h, k, h);
    }
  }

  lemma {:induction false} SameEachRound(q: Question, c: Rotation, h: nat, n: nat, each: nat)
    requires |c| == 2 * h && n <= 2 * h - 1
    requires forall k: nat :: k < n ==> OverPairs(q, c, h, k, h) == each
    ensures OverRounds(q, c, h, n) == n * each
  {
    if n > 0 {
      SameEachRound(q, c, h, n - 1, each);
      assert n * each == (n - 1) * each + each;
    }
  }

  lemma InRounds(drawn: seq<int>, h: nat)
    requires |drawn| >= 2 && |Circle(drawn)| == 2 * h
    ensures OverRounds(Anything, Circle(drawn), h, 2 * h - 1) == (2 * h - 1) * (|drawn| / 2)
  {
    forall k: nat | k < 2 * h - 1 ensures OverPairs(Anything, Circle(drawn), h, k, h) == |drawn| / 2 {
      InARound(drawn, h, k);
    }
    SameEachRound(Anything, Circle(drawn), h, 2 * h - 1, |drawn| / 2);
  }

  lemma {:induction false} AnythingCountsAll(s: seq<Fixture>)
    ensures HowMany(Anything, s) == |s|
  {
    if |s| > 0 {
      AnythingCountsAll(s[..|s| - 1]);
      assert s == s[..|s| - 1] + [s[|s| - 1]];
      OneMore(Anything, s[..|s| - 1], s[|s| - 1]);
    }
  }

  /** There are no other fixtures: half the teams, rounded down, play in every round. */
  lemma NothingElse(matches: seq<Fixture>, drawn: seq<int>, h: nat, legs: nat)
    requires |drawn| >= 2 && |Circle(drawn)| == 2 * h && 1 <= legs <= 2
    requires IsCalendar(matches, Circle(drawn), h, legs)
    ensures |matches| == legs * ((2 * h - 1) * (|drawn| / 2))
  {
    InRounds(drawn, h);
    AnythingCountsAll(matches);
  }

  // ---------------------------------------------------------------- once a round

  lemma PlayingHit(c: Rotation, h: nat, k: nat, i: nat, a: nat, t: int)
    requires IsCircle(c, h) && k < 2 * h - 1 && i < h && a < 2 * h && c[a] == Some(t)
    ensures Hit(PlaysIn(t, k + 1), c, h, k, i) ==
      if c[Opposite(h, k, a)].Some? && i == OwnPair(h, k, a) then 1 else 0
  {
    OwnPairExactly(h, k, i, a);
  }

  lemma NotInOtherRounds(c: Rotation, h: nat, k: nat, other: int, pairs: nat, t: int)
    requires |c| == 2 * h && k < 2 * h - 1 && other != k + 1 && pairs <= h
    ensures OverPairs(PlaysIn(t, other), c, h, k, pairs) == 0
  {
    OnePair(PlaysIn(t, other), c, h, k, pairs, 0, false);
  }

  lemma InOwnRound(q: Question, c: Rotation, h: nat, k: nat, a: nat, t: int)
    requires IsCircle(c, h) && k < 2 * h - 1 && a < 2 * h && c[a] == Some(t) && q == PlaysIn(t, k + 1)
    ensures OverPairs(q, c, h, k, h) == if c[Opposite(h, k, a)].Some? then 1 else 0
  {
    var own, hit := OwnPair(h, k, a), c[Opposite(h, k, a)].Some?;
    forall i: nat | i < h ensures Hit(q, c, h, k, i) == if hit && i == own then 1 else 0 {
      PlayingHit(c, h, k, i, a, t);
    }
    OnePair(q, c, h, k, h, own, hit);
  }

  /** In its round a team plays exactly when somebody sits opposite. */
  lemma PlaysOnce(c: Rotation, h: nat, k: nat, a: nat, t: int)
    requires IsCircle(c, h) && k < 2 * h - 1 && a < 2 * h && c[a] == Some(t)
    ensures OverRounds(PlaysIn(t, k + 1), c, h, 2 * h - 1) == if c[Opposite(h, k, a)].Some? then 1 else 0
  {
    var q, hit := PlaysIn(t, k + 1), c[Opposite(h, k, a)].Some?;
    forall j: nat | j < 2 * h - 1 ensures OverPairs(q, c, h, j, h) == if hit && j == k then 1 else 0 {
      if j == k {
        InOwnRound(q, c, h, k, a, t);
      } else {
        NotInOtherRounds(c, h, j, k + 1, h, t);
      }
    }
    OneRound(q, c, h, 2 * h - 1, k, hit);
  }

  lemma NotOutside(c: Rotation, h: nat, round: int, t: int)
    requires |c| == 2 * h >= 2 && !(1 <= round <= 2 * h - 1)
    ensures OverRounds(PlaysIn(t, round), c, h, 2 * h - 1) == 0
  {
    var q := PlaysIn(t, round);
    forall j: nat | j < 2 * h - 1 ensures OverPairs(q, c, h, j, h) == if false && j == 0 then 1 else 0 {
      NotInOtherRounds(c, h, j, round, h, t);
    }
    OneRound(q, c, h, 2 * h - 1, 0, false);
  }

  /** The turn in which a team of an odd number faces the empty place. */
  function RestTurn(drawn: seq<int>, t: int): (k: nat)
    requires t in drawn && |drawn| % 2 == 1
    ensures k < |drawn|
  {
    TurnOf(|Circle(drawn)| / 2, IndexOf(drawn, t), |drawn|)
  }

  predicate Rests(drawn: seq<int>, k: nat, t: int)
    requires t in drawn
  {
    |drawn| % 2 == 1 && k == RestTurn(drawn, t)
  }

  lemma SomebodyOpposite(drawn: seq<int>, h: nat, k: nat, t: int)
    requires |drawn| >= 2 && NoRepeats(drawn) && t in drawn && |Circle(drawn)| == 2 * h && k < 2 * h - 1
    ensures Circle(drawn)[Opposite(h, k, IndexOf(drawn, t))].Some? <==> !Rests(drawn, k, t)
  {
    if |drawn| % 2 == 1 {
      OppositeExactly(h, k, IndexOf(drawn, t), |drawn|);
    }
  }

  lemma OncePerTurn(drawn: seq<int>, h: nat, k: nat, t: int)
    requires |drawn| >= 2 && NoRepeats(drawn) && t in drawn && |Circle(drawn)| == 2 * h && k < 2 * h - 1
    ensures OverRounds(PlaysIn(t, k + 1), Circle(drawn), h, 2 * h - 1) == if Rests(drawn, k, t) then 0 else 1
  {
    CircleIsCircle(drawn);
    SomebodyOpposite(drawn, h, k, t);
    PlaysOnce(Circle(drawn), h, k, IndexOf(drawn, t), t);
  }

  /** A round of the calendar counts like the round of the leg that it repeats. */
  lemma LegsRepeat(c: Rotation, h: nat, legs: nat, k: nat, leg: nat, t: int)
    requires |c| == 2 * h >= 2 && leg < legs <= 2 && k < 2 * h - 1
    ensures Expected(PlaysIn(t, k + 1 + if leg == 1 then 2 * h - 1 else 0), c, h, legs)
         == OverRounds(PlaysIn(t, k + 1), c, h, 2 * h - 1)
  {
    if leg == 1 {
      NotOutside(c, h, k + 1 + (2 * h - 1), t);
      assert Mirrored(PlaysIn(t, k + 1 + (2 * h - 1)), 2 * h - 1) == PlaysIn(t, k + 1);
    } else {
      NotOutside(c, h, k + 1 - (2 * h - 1), t);
      assert Mirrored(PlaysIn(t, k + 1), 2 * h - 1) == PlaysIn(t, k + 1 - (2 * h - 1));
    }
  }

  /** In every round every team plays exactly once, except that with an odd number of teams it rests in one
      round of each leg. */
  lemma EveryoneOncePerRound(matches: seq<Fixture>, drawn: seq<int>, h: nat, legs: nat, k: nat, leg: nat, t: int)
    requires |drawn| >= 2 && NoRepeats(drawn) && t in drawn && |Circle(drawn)| == 2 * h
    requires leg < legs <= 2 && k < 2 * h - 1
    requires IsCalendar(matches, Circle(drawn), h, legs)
    ensures HowMany(PlaysIn(t, k + 1 + if leg == 1 then 2 * h - 1 else 0), matches) == if Rests(drawn, k, t) then 0 else 1
  {
    OncePerTurn(drawn, h, k, t);
    LegsRepeat(Circle(drawn), h, legs, k, leg, t);
  }

  // ---------------------------------------------------------------- at home and away

  lemma HostingHit(c: Rotation, h: nat, k: nat, i: nat, a: nat, b: nat, t: int, u: int)
    requires IsCircle(c, h) && k < 2 * h - 1 && i < h
    requires a < 2 * h && b < 2 * h && a != b && c[a] == Some(t) && c[b] == Some(u)
    ensures Hit(HostingIn(t, u, k + 1), c, h, k, i) ==
      if k == TurnOf(h, a, b) && i == PairOf(h, a, b) && HostsAt(h, k, a) then 1 else 0
  {
    FaceExactlyOnce(h, k, i, a, b);
    OwnPairExactly(h, k, i, a);
    HostSide(h, k, a);
  }

  lemma NoHostingElsewhere(c: Rotation, h: nat, k: nat, t: int, u: int, round: int)
    requires |c| == 2 * h && k < 2 * h - 1 && round != k + 1
    ensures OverPairs(HostingIn(t, u, round), c, h, k, h) == 0
  {
    OnePair(HostingIn(t, u, round), c, h, k, h, 0, false);
  }

  lemma HostingInLeg(c: Rotation, h: nat, a: nat, b: nat, t: int, u: int, round: int)
    requires IsCircle(c, h) && a < 2 * h && b < 2 * h && a != b && c[a] == Some(t) && c[b] == Some(u)
    ensures OverRounds(HostingIn(t, u, round), c, h, 2 * h - 1) ==
      if round == TurnOf(h, a, b) + 1 && HostsAt(h, TurnOf(h, a, b), a) then 1 else 0
  {
    var q, turn := HostingIn(t, u, round), TurnOf(h, a, b);
    var hit := round == turn + 1 && HostsAt(h, turn, a);
    forall k: nat | k < 2 * h - 1 ensures OverPairs(q, c, h, k, h) == if hit && k == turn then 1 else 0 {
      if round == k + 1 {
        forall i: nat | i < h
          ensures Hit(q, c, h, k, i) == if (hit && k == turn) && i == PairOf(h, a, b) then 1 else 0
        {
          HostingHit(c, h, k, i, a, b, t, u);
        }
        OnePair(q, c, h, k, h, PairOf(h, a, b), hit && k == turn);
      } else {
        NoHostingElsewhere(c, h, k, t, u, round);
      }
    }
    OneRound(q, c, h, 2 * h - 1, turn, hit);
  }

  /** A fixture of the calendar is one of the first leg, or the mirror of one. */
  lemma HostingInLegs(c: Rotation, h: nat, legs: nat, a: nat, b: nat, t: int, u: int, round: int)
    requires IsCircle(c, h) && a < 2 * h && b < 2 * h && a != b && c[a] == Some(t) && c[b] == Some(u)
    ensures var turn := TurnOf(h, a, b);
      Expected(HostingIn(t, u, round), c, h, legs) ==
        (if round == turn + 1 && HostsAt(h, turn, a) then 1 else 0) +
        (if legs == 2 && round - (2 * h - 1) == turn + 1 && HostsAt(h, turn, b) then 1 else 0)
  {
    HostingInLeg(c, h, a, b, t, u, round);
    HostingInLeg(c, h, b, a, u, t, round - (2 * h - 1));
    SameTurn(h, a, b);
  }

  /** The whole calendar: who hosts whom in which round. Two teams meet in the round that their places in the draw
      fix, the host is fixed with it, and a second leg repeats the round with the other as host. */
  lemma FixturesExactly(matches: seq<Fixture>, drawn: seq<int>, h: nat, legs: nat, t: int, u: int, round: int)
    requires |drawn| >= 2 && NoRepeats(drawn) && t in drawn && u in drawn && t != u
    requires |Circle(drawn)| == 2 * h && 1 <= legs <= 2 && IsCalendar(matches, Circle(drawn), h, legs)
    ensures var a, b := IndexOf(drawn, t), IndexOf(drawn, u);
      var turn := TurnOf(h, a, b);
      HowMany(HostingIn(t, u, round), matches) ==
        if (round == turn + 1 && HostsAt(h, turn, a)) ||
           (legs == 2 && round == turn + 1 + (2 * h - 1) && HostsAt(h, turn, b)) then 1 else 0
  {
    CircleIsCircle(drawn);
    HostingInLegs(Circle(drawn), h, legs, IndexOf(drawn, t), IndexOf(drawn, u), t, u, round);
  }

  lemma SameTurn(h: nat, a: nat, b: nat)
    requires a < 2 * h && b < 2 * h && a != b
    ensures TurnOf(h, a, b) == TurnOf(h, b, a)
  {
  }

  lemma SideHits(c: Rotation, h: nat, k: nat, i: nat, a: nat, t: int)
    requires IsCircle(c, h) && k < 2 * h - 1 && i < h && a < 2 * h && c[a] == Some(t)
    ensures var own := c[Opposite(h, k, a)].Some? && i == OwnPair(h, k, a);
      && Hit(AtHome(t), c, h, k, i) == (if own && HostsAt(h, k, a) then 1 else 0)
      && Hit(Away(t), c, h, k, i) == (if own && !HostsAt(h, k, a) then 1 else 0)
  {
    OwnPairExactly(h, k, i, a);
    HostSide(h, k, a);
  }

  lemma SidesInARound(c: Rotation, h: nat, k: nat, a: nat, t: int)
    requires IsCircle(c, h) && k < 2 * h - 1 && a < 2 * h && c[a] == Some(t)
    ensures var plays := c[Opposite(h, k, a)].Some?;
      && OverPairs(AtHome(t), c, h, k, h) == (if plays && HostsAt(h, k, a) then 1 else 0)
      && OverPairs(Away(t), c, h, k, h) == (if plays && !HostsAt(h, k, a) then 1 else 0)
  {
    var plays, hosts, own := c[Opposite(h, k, a)].Some?, HostsAt(h, k, a), OwnPair(h, k, a);
    forall i: nat | i < h
      ensures Hit(AtHome(t), c, h, k, i) == if (plays && hosts) && i == own then 1 else 0
      ensures Hit(Away(t), c, h, k, i) == if (plays && !hosts) && i == own then 1 else 0
    {
      SideHits(c, h, k, i, a, t);
    }
    OnePair(AtHome(t), c, h, k, h, own, plays && hosts);
    OnePair(Away(t), c, h, k, h, own, plays && !hosts);
  }

  /** A circle in which at most the last place is empty. */
  predicate Full(c: Rotation, h: nat) {
    IsCircle(c, h) && forall p :: 0 <= p < 2 * h - 1 ==> c[p].Some?
  }

  /** The turn in which a place faces the last one, if it is another. */
  function LastTurn(h: nat, a: nat): (k: nat)
    requires a < 2 * h
    ensures h > 0 ==> k < 2 * h - 1
  {
    if a < 2 * h - 1 then TurnOf(h, a, 2 * h - 1) else 0
  }

  /** The last place is empty, so that each of the others rests once. */
  predicate Rested(c: Rotation, h: nat, a: nat)
    requires |c| == 2 * h >= 2
  {
    a < 2 * h - 1 && c[2 * h - 1].None?
  }

  /** What a team's place says about its games after `k` turns. */
  predicate SidesFit(c: Rotation, h: nat, k: nat, a: nat, t: int)
    requires |c| == 2 * h && k < 2 * h - 1 && a < 2 * h
  {
    var homes, aways := OverPairs(AtHome(t), c, h, k, h), OverPairs(Away(t), c, h, k, h);
    var rests := Rested(c, h, a) && k == LastTurn(h, a);
    && homes == (if HostsAt(h, k, a) then 1 else 0) - (if rests && a != 0 then 1 else 0)
    && homes + aways == if rests then 0 else 1
  }

  lemma SidesInATurn(c: Rotation, h: nat, k: nat, a: nat, t: int)
    requires Full(c, h) && k < 2 * h - 1 && a < 2 * h && c[a] == Some(t)
    ensures SidesFit(c, h, k, a, t)
  {
    SidesInARound(c, h, k, a, t);
    if a < 2 * h - 1 {
      OppositeExactly(h, k, a, 2 * h - 1);
      HostsTheLast(h, a);
    }
  }

  /** Home games of the first `n` rounds: the turns in which the place hosts, but for the rest; the other turns are
      away games. */
  lemma {:induction false} SidesAddUp(c: Rotation, h: nat, n: nat, a: nat, t: int)
    requires |c| == 2 * h && n <= 2 * h - 1 && a < 2 * h
    requires forall k: nat :: k < n ==> SidesFit(c, h, k, a, t)
    ensures n > 0 ==>
      var rested := Rested(c, h, a) && LastTurn(h, a) < n;
      && OverRounds(AtHome(t), c, h, n) == HostedBefore(h, a, n) - (if rested && a != 0 then 1 else 0)
      && OverRounds(AtHome(t), c, h, n) + OverRounds(Away(t), c, h, n) == n - (if rested then 1 else 0)
  {
    if n > 0 {
      SidesAddUp(c, h, n - 1, a, t);
      HostedNext(h, a, n - 1);
      assert SidesFit(c, h, n - 1, a, t);
    }
  }

  /** How often the team drawn at place `a` of `n` hosts in one leg. */
  function HomeGames(n: nat, a: nat): int {
    if a == 0 then (n - 1) / 2
    else if a % 2 == 1 then n - a
    else if n % 2 == 1 then a - 2 else a - 1
  }

  lemma CircleIsFull(drawn: seq<int>, h: nat)
    requires |drawn| >= 2 && NoRepeats(drawn) && |Circle(drawn)| == 2 * h
    ensures Full(Circle(drawn), h) && (Circle(drawn)[2 * h - 1].None? <==> |drawn| % 2 == 1)
  {
    CircleIsCircle(drawn);
  }

  lemma SidesInAll(c: Rotation, h: nat, a: nat, t: int)
    requires Full(c, h) && a < 2 * h && c[a] == Some(t)
    ensures var rested, n := Rested(c, h, a), 2 * h - 1;
      && OverRounds(AtHome(t), c, h, n) == HostedBefore(h, a, n) - (if rested && a != 0 then 1 else 0)
      && OverRounds(AtHome(t), c, h, n) + OverRounds(Away(t), c, h, n) == n - (if rested then 1 else 0)
  {
    forall k: nat | k < 2 * h - 1 ensures SidesFit(c, h, k, a, t) {
      SidesInATurn(c, h, k, a, t);
    }
    SidesAddUp(c, h, 2 * h - 1, a, t);
  }

  lemma HomesOfAPlace(h: nat, n: nat, a: nat)
    requires n >= 2 && (if n % 2 == 1 then n + 1 else n) == 2 * h && a < n
    ensures HostedBefore(h, a, 2 * h - 1) - (if n % 2 == 1 && a != 0 then 1 else 0) == HomeGames(n, a)
  {
  }

  lemma SidesOfATeam(drawn: seq<int>, h: nat, a: nat, t: int)
    requires |drawn| >= 2 && NoRepeats(drawn) && |Circle(drawn)| == 2 * h && a < |drawn| && drawn[a] == t
    ensures var c := Circle(drawn);
      && OverRounds(AtHome(t), c, h, 2 * h - 1) == HomeGames(|drawn|, a)
      && OverRounds(AtHome(t), c, h, 2 * h - 1) + OverRounds(Away(t), c, h, 2 * h - 1) == |drawn| - 1
  {
    CircleIsFull(drawn, h);
    SidesInAll(Circle(drawn), h, a, t);
    HomesOfAPlace(h, |drawn|, a);
  }

  /** One leg is far from balanced: the place in the draw decides how often a team hosts, and the team drawn second
      always does. Two legs are: everybody hosts everybody once. */
  lemma HomeGamesExactly(matches: seq<Fixture>, drawn: seq<int>, h: nat, legs: nat, t: int)
    requires |drawn| >= 2 && NoRepeats(drawn) && t in drawn && |Circle(drawn)| == 2 * h && 1 <= legs <= 2
    requires IsCalendar(matches, Circle(drawn), h, legs)
    ensures HowMany(AtHome(t), matches) == if legs == 2 then |drawn| - 1 else HomeGames(|drawn|, IndexOf(drawn, t))
    ensures HowMany(AtHome(t), matches) + HowMany(Away(t), matches) == legs * (|drawn| - 1)
  {
    SidesOfATeam(drawn, h, IndexOf(drawn, t), t);
  }
}
