/** The circle method that draws up a round robin. */
module RoundRobin {
  import opened CirclePlaces
  import opened Sequences
  import opened Wrappers

  type Rotation = seq<Option<int>>

  datatype Fixture = Fixture(round: int, number: int, home: int, away: int)

  /** What can be asked of a fixture. */
  datatype Question =
    | Between(t: int, u: int)
    | Hosting(t: int, u: int)
    | PlaysIn(t: int, round: int)
    | HostingIn(t: int, u: int, round: int)
    | AtHome(t: int)
    | Away(t: int)
    | Anything

  predicate Answers(round: int, home: int, away: int, q: Question) {
    match q
    case Between(t, u) => (home == t && away == u) || (home == u && away == t)
    case Hosting(t, u) => home == t && away == u
    case PlaysIn(t, r) => round == r && (home == t || away == t)
    case HostingIn(t, u, r) => round == r && home == t && away == u
    case AtHome(t) => home == t
    case Away(t) => away == t
    case Anything => true
  }

  predicate Fits(f: Fixture, q: Question) {
    Answers(f.round, f.home, f.away, q)
  }

  function HowMany(q: Question, s: seq<Fixture>): nat {
    Count((f: Fixture) => Fits(f, q), s)
  }

  lemma OneMore(q: Question, s: seq<Fixture>, f: Fixture)
    ensures HowMany(q, s + [f]) == HowMany(q, s) + if Fits(f, q) then 1 else 0
  {
    CountAppend((g: Fixture) => Fits(g, q), s, [f]);
  }

  // ---------------------------------------------------------------- what a leg holds

  /** What a pair of places adds to a count. Facing nobody is a bye, not a fixture. */
  function Adds(q: Question, left: Option<int>, right: Option<int>, round: nat, i: nat): nat {
    if left.None? || right.None? then 0
    else if (round + i) % 2 == 1 then (if Answers(round, right.value, left.value, q) then 1 else 0)
    else if Answers(round, left.value, right.value, q) then 1 else 0
  }

  /** What the pair over the places `i` and `2 * h - 1 - i` adds after `k` turns. */
  function Hit(q: Question, c: Rotation, h: nat, k: nat, i: nat): nat
    requires |c| == 2 * h && k < 2 * h - 1 && i < h
  {
    Adds(q, c[Sitting(h, k, i)], c[Sitting(h, k, 2 * h - 1 - i)], k + 1, i)
  }

  function OverPairs(q: Question, c: Rotation, h: nat, k: nat, pairs: nat): nat
    requires |c| == 2 * h && k < 2 * h - 1 && pairs <= h
  {
    if pairs == 0 then 0 else OverPairs(q, c, h, k, pairs - 1) + Hit(q, c, h, k, pairs - 1)
  }

  function OverRounds(q: Question, c: Rotation, h: nat, n: nat): nat
    requires |c| == 2 * h && n <= 2 * h - 1
  {
    if n == 0 then 0 else OverRounds(q, c, h, n - 1) + OverPairs(q, c, h, n - 1, h)
  }

  /** The question that a fixture answers when the same fixture, with home and away swapped and `rounds` rounds
      later, answers `q`. */
  function Mirrored(q: Question, rounds: nat): Question {
    match q
    case Between(t, u) => Between(t, u)
    case Hosting(t, u) => Hosting(u, t)
    case PlaysIn(t, r) => PlaysIn(t, r - rounds)
    case HostingIn(t, u, r) => HostingIn(u, t, r - rounds)
    case AtHome(t) => Away(t)
    case Away(t) => AtHome(t)
    case Anything => Anything
  }

  /** How many fixtures of a calendar of one or two legs answer a question. */
  function Expected(q: Question, c: Rotation, h: nat, legs: nat): nat
    requires |c| == 2 * h >= 2
  {
    OverRounds(q, c, h, 2 * h - 1)
    + if legs == 2 then OverRounds(Mirrored(q, 2 * h - 1), c, h, 2 * h - 1) else 0
  }

  // ---------------------------------------------------------------- the rotation

  function Rotate(r: Rotation): Rotation
    requires |r| >= 2
    ensures |Rotate(r)| == |r|
  {
    [r[0], r[|r| - 1]] + r[1..|r| - 1]
  }

  /** `r` is where everybody sits after `k` turns from `c`. */
  predicate Seated(r: Rotation, c: Rotation, h: nat, k: nat)
    requires |r| == |c| == 2 * h && k <= 2 * h - 1
  {
    forall p: nat :: p < 2 * h ==> r[p] == c[Sitting(h, k, p)]
  }

  /** Turning the circle step by step is sitting where the closed form says. */
  lemma TurnSeats(r: Rotation, c: Rotation, h: nat, k: nat)
    requires |r| == |c| == 2 * h >= 2 && k < 2 * h - 1 && Seated(r, c, h, k)
    ensures Seated(Rotate(r), c, h, k + 1)
  {
    forall p: nat | p < 2 * h ensures Rotate(r)[p] == c[Sitting(h, k + 1, p)] {
      var from := if p == 0 then 0 else if p == 1 then 2 * h - 1 else p - 1;
      assert Rotate(r)[p] == r[from];
    }
  }

  lemma HitOf(q: Question, r: Rotation, c: Rotation, h: nat, k: nat, i: nat)
    requires |r| == |c| == 2 * h && k < 2 * h - 1 && i < h && Seated(r, c, h, k)
    ensures Hit(q, c, h, k, i) == Adds(q, r[i], r[2 * h - 1 - i], k + 1, i)
  {
  }

  // ---------------------------------------------------------------- the calendar

  /** Rounds do not go back, and within a round the fixtures are numbered 1, 2, ... */
  predicate Numbered(s: seq<Fixture>) {
    forall j :: 0 <= j < |s| ==>
      if j > 0 && s[j - 1].round == s[j].round then s[j].number == s[j - 1].number + 1
      else s[j].number == 1 && (j > 0 ==> s[j - 1].round < s[j].round)
  }

  predicate UpTo(s: seq<Fixture>, round: int) {
    forall j :: 0 <= j < |s| ==> 1 <= s[j].round <= round
  }

  /** What has been counted after `k` rounds and `i` pairs of the next one. */
  ghost predicate Counted(s: seq<Fixture>, c: Rotation, h: nat, k: nat, i: nat)
    requires |c| == 2 * h && k < 2 * h - 1 && i <= h
  {
    forall q :: HowMany(q, s) == OverRounds(q, c, h, k) + OverPairs(q, c, h, k, i)
  }

  lemma ByeCounts(s: seq<Fixture>, r: Rotation, c: Rotation, h: nat, k: nat, i: nat)
    requires |r| == |c| == 2 * h && k < 2 * h - 1 && i < h && Seated(r, c, h, k) && Counted(s, c, h, k, i)
    requires r[i].None? || r[2 * h - 1 - i].None?
    ensures Counted(s, c, h, k, i + 1)
  {
    forall q ensures HowMany(q, s) == OverRounds(q, c, h, k) + OverPairs(q, c, h, k, i + 1) {
      HitOf(q, r, c, h, k, i);
    }
  }

  lemma FixtureCounts(s: seq<Fixture>, f: Fixture, r: Rotation, c: Rotation, h: nat, k: nat, i: nat)
    requires |r| == |c| == 2 * h && k < 2 * h - 1 && i < h && Seated(r, c, h, k) && Counted(s, c, h, k, i)
    requires r[i].Some? && r[2 * h - 1 - i].Some? && f.round == k + 1
    requires f.home == (if (k + 1 + i) % 2 == 1 then r[2 * h - 1 - i].value else r[i].value)
    requires f.away == (if (k + 1 + i) % 2 == 1 then r[i].value else r[2 * h - 1 - i].value)
    ensures Counted(s + [f], c, h, k, i + 1)
  {
    forall q ensures HowMany(q, s + [f]) == OverRounds(q, c, h, k) + OverPairs(q, c, h, k, i + 1) {
      HitOf(q, r, c, h, k, i);
      OneMore(q, s, f);
    }
  }

  /** How many fixtures of a round there are at the end of the list. */
  predicate AtNumber(s: seq<Fixture>, round: int, number: nat) {
    number == if |s| > 0 && s[|s| - 1].round == round then s[|s| - 1].number else 0
  }

  lemma NumberNext(s: seq<Fixture>, f: Fixture, number: nat)
    requires Numbered(s) && UpTo(s, f.round) && 1 <= f.round && AtNumber(s, f.round, number) && f.number == number + 1
    ensures Numbered(s + [f]) && UpTo(s + [f], f.round) && AtNumber(s + [f], f.round, number + 1)
  {
  }

  method PlayRound(rotation: Rotation, before: seq<Fixture>, ghost c: Rotation, ghost h: nat, k: nat)
    returns (matches: seq<Fixture>)
    requires |rotation| == |c| == 2 * h && k < 2 * h - 1 && Seated(rotation, c, h, k)
    requires Counted(before, c, h, k, 0) && Numbered(before) && UpTo(before, k)
    ensures Counted(matches, c, h, k, h) && Numbered(matches) && UpTo(matches, k + 1)
  {
    matches := before;
    var round, matchNumber := k + 1, 0;
    for i := 0 to |rotation| / 2
      invariant Counted(matches, c, h, k, i)
      invariant Numbered(matches) && UpTo(matches, round) && AtNumber(matches, round, matchNumber)
    {
      var left, right := rotation[i], rotation[|rotation| - 1 - i];
      if left.None? || right.None? {
        ByeCounts(matches, rotation, c, h, k, i);
        continue;
      }
      if (round + i) % 2 == 1 {
        left, right := right, left;
      }
      var fixture := Fixture(round, matchNumber + 1, left.value, right.value);
      FixtureCounts(matches, fixture, rotation, c, h, k, i);
      NumberNext(matches, fixture, matchNumber);
      matchNumber := matchNumber + 1;
      matches := matches + [fixture];
    }
  }

  method BaseMatches(circle: Rotation, ghost h: nat) returns (matches: seq<Fixture>)
    requires |circle| == 2 * h >= 2
    ensures forall q :: HowMany(q, matches) == OverRounds(q, circle, h, 2 * h - 1)
    ensures Numbered(matches) && UpTo(matches, 2 * h - 1)
  {
    matches := [];
    var rotation := circle;
    for k := 0 to |circle| - 1
      invariant |rotation| == 2 * h && Seated(rotation, circle, h, k)
      invariant forall q :: HowMany(q, matches) == OverRounds(q, circle, h, k)
      invariant Numbered(matches) && UpTo(matches, k)
    {
      matches := PlayRound(rotation, matches, circle, h, k);
      TurnSeats(rotation, circle, h, k);
      rotation := Rotate(rotation);
    }
  }

  // ---------------------------------------------------------------- the legs

  /** The first leg, and the mirror of its first `i` fixtures. */
  ghost predicate SecondLeg(matches: seq<Fixture>, leg: seq<Fixture>, rounds: nat, i: nat)
    requires i <= |leg|
  {
    && |matches| == |leg| + i
    && (|matches| > 0 ==>
          var last := matches[|matches| - 1];
          if i == 0 then last == leg[|leg| - 1]
          else last.round == leg[i - 1].round + rounds && last.number == leg[i - 1].number)
    && Numbered(matches) && UpTo(matches, 2 * rounds)
    && forall q {:trigger HowMany(q, matches)} ::
        HowMany(q, matches) == HowMany(q, leg) + HowMany(Mirrored(q, rounds), leg[..i])
  }

  lemma SecondLegStarts(leg: seq<Fixture>, rounds: nat)
    requires Numbered(leg) && UpTo(leg, rounds)
    ensures SecondLeg(leg, leg, rounds, 0)
  {
    assert forall q :: HowMany(Mirrored(q, rounds), leg[..0]) == 0;
  }

  lemma SecondLegGrows(matches: seq<Fixture>, f: Fixture, leg: seq<Fixture>, rounds: nat, i: nat)
    requires i < |leg| && SecondLeg(matches, leg, rounds, i) && Numbered(leg) && UpTo(leg, rounds)
    requires f == Fixture(leg[i].round + rounds, leg[i].number, leg[i].away, leg[i].home)
    ensures SecondLeg(matches + [f], leg, rounds, i + 1)
  {
    assert leg[..i + 1] == leg[..i] + [leg[i]];
    forall q ensures HowMany(q, matches + [f]) == HowMany(q, leg) + HowMany(Mirrored(q, rounds), leg[..i + 1]) {
      OneMore(q, matches, f);
      OneMore(Mirrored(q, rounds), leg[..i], leg[i]);
    }
  }

  method FirstLeg(baseMatches: seq<Fixture>) returns (matches: seq<Fixture>)
    ensures matches == baseMatches
  {
    matches := [];
    for i := 0 to |baseMatches|
      invariant matches == baseMatches[..i]
    {
      matches := matches + [baseMatches[i]];
    }
  }

  /** The whole first leg and its whole mirror. */
  lemma WholeSecondLeg(matches: seq<Fixture>, leg: seq<Fixture>, rounds: nat)
    requires SecondLeg(matches, leg, rounds, |leg|)
    ensures Numbered(matches) && UpTo(matches, 2 * rounds)
    ensures forall q {:trigger HowMany(q, matches)} ::
        HowMany(q, matches) == HowMany(q, leg) + HowMany(Mirrored(q, rounds), leg)
  {
    assert leg[..|leg|] == leg;
  }

  method AddSecondLeg(baseMatches: seq<Fixture>, roundCount: nat) returns (matches: seq<Fixture>)
    requires Numbered(baseMatches) && UpTo(baseMatches, roundCount)
    ensures Numbered(matches) && UpTo(matches, 2 * roundCount)
    ensures forall q {:trigger HowMany(q, matches)} ::
        HowMany(q, matches) == HowMany(q, baseMatches) + HowMany(Mirrored(q, roundCount), baseMatches)
  {
    matches := baseMatches;
    SecondLegStarts(baseMatches, roundCount);
    for i := 0 to |baseMatches|
      invariant SecondLeg(matches, baseMatches, roundCount, i)
    {
      var m := baseMatches[i];
      var fixture := Fixture(m.round + roundCount, m.number, m.away, m.home);
      SecondLegGrows(matches, fixture, baseMatches, roundCount, i);
      matches := matches + [fixture];
    }
    WholeSecondLeg(matches, baseMatches, roundCount);
  }

  /** What the list of fixtures has to be, of one leg or two. */
  ghost predicate IsCalendar(matches: seq<Fixture>, c: Rotation, h: nat, legs: nat)
    requires |c| == 2 * h >= 2
  {
    && Numbered(matches) && UpTo(matches, if legs == 2 then 2 * (2 * h - 1) else 2 * h - 1)
    && forall q {:trigger HowMany(q, matches)} :: HowMany(q, matches) == Expected(q, c, h, legs)
  }

  /** In a second leg the mirrored questions are the first leg's. */
  lemma BothLegsCount(q: Question, matches: seq<Fixture>, leg: seq<Fixture>, c: Rotation, h: nat)
    requires |c| == 2 * h >= 2
    requires HowMany(q, matches) == HowMany(q, leg) + HowMany(Mirrored(q, 2 * h - 1), leg)
    requires HowMany(q, leg) == OverRounds(q, c, h, 2 * h - 1)
    requires HowMany(Mirrored(q, 2 * h - 1), leg) == OverRounds(Mirrored(q, 2 * h - 1), c, h, 2 * h - 1)
    ensures HowMany(q, matches) == Expected(q, c, h, 2)
  {
  }

  lemma TwoLegsMake(matches: seq<Fixture>, leg: seq<Fixture>, c: Rotation, h: nat)
    requires |c| == 2 * h >= 2 && Numbered(matches) && UpTo(matches, 2 * (2 * h - 1))
    requires forall q {:trigger HowMany(q, matches)} ::
        HowMany(q, matches) == HowMany(q, leg) + HowMany(Mirrored(q, 2 * h - 1), leg)
    requires forall q {:trigger HowMany(q, leg)} :: HowMany(q, leg) == OverRounds(q, c, h, 2 * h - 1)
    ensures IsCalendar(matches, c, h, 2)
  {
    forall q ensures HowMany(q, matches) == Expected(q, c, h, 2) {
      BothLegsCount(q, matches, leg, c, h);
    }
  }

  method DrawUp(circle: Rotation, legs: nat, ghost h: nat) returns (matches: seq<Fixture>)
    requires |circle| == 2 * h >= 2 && 1 <= legs <= 2
    ensures IsCalendar(matches, circle, h, legs)
  {
    var baseMatches := BaseMatches(circle, h);
    if legs == 1 {
      matches := FirstLeg(baseMatches);
    } else {
      matches := AddSecondLeg(baseMatches, |circle| - 1);
      TwoLegsMake(matches, baseMatches, circle, h);
    }
  }

  // ---------------------------------------------------------------- the schedule

  /** The teams in drawn order, with an empty place if they are odd in number. */
  function Circle(drawn: seq<int>): (r: Rotation)
    ensures |r| % 2 == 0 && |drawn| <= |r| <= |drawn| + 1
  {
    var places := seq(|drawn|, i requires 0 <= i < |drawn| => Some(drawn[i]));
    if |drawn| % 2 == 1 then places + [None] else places
  }

  datatype Refusal = TooFewTeams | RepeatedTeams | NegativeSeed | BadLegs | BadRoundInterval | BadMatchInterval

  datatype Answer = Refused(why: Refusal) | Schedule(roundCount: nat, byeCount: nat, matches: seq<Fixture>)

  /** The reason is one that applies, and none is given exactly when none does. */
  method Validate(teams: seq<int>, seed: int, roundIntervalDays: int, matchIntervalHours: int, legs: int)
    returns (why: Option<Refusal>)
    ensures match why
      case None => |teams| >= 2 && NoRepeats(teams) && seed >= 0 && (legs == 1 || legs == 2)
                   && roundIntervalDays >= 1 && matchIntervalHours >= 1
      case Some(TooFewTeams) => |teams| < 2
      case Some(RepeatedTeams) => !NoRepeats(teams)
      case Some(NegativeSeed) => seed < 0
      case Some(BadLegs) => legs < 1 || legs > 2
      case Some(BadRoundInterval) => roundIntervalDays < 1
      case Some(BadMatchInterval) => matchIntervalHours < 1
  {
    if |teams| < 2 {
      return Some(TooFewTeams);
    }
    if Repeats(teams) {
      return Some(RepeatedTeams);
    }
    if seed < 0 {
      return Some(NegativeSeed);
    }
    if legs != 1 && legs != 2 {
      return Some(BadLegs);
    }
    if roundIntervalDays < 1 {
      return Some(BadRoundInterval);
    }
    if matchIntervalHours < 1 {
      return Some(BadMatchInterval);
    }
    return None;
  }

  lemma SameSize(a: seq<int>, b: seq<int>)
    requires multiset(a) == multiset(b)
    ensures |a| == |b|
  {
    assert |multiset(a)| == |a| && |multiset(b)| == |b|;
  }

  /** `drawn` is the seeded shuffle of `teams`. */
  method BuildRoundRobinSchedule(
      teams: seq<int>, drawn: seq<int>, seed: int, roundIntervalDays: int, matchIntervalHours: int, legs: int)
    returns (a: Answer)
    requires multiset(drawn) == multiset(teams)
    ensures a.Schedule? <==> |teams| >= 2 && NoRepeats(teams) && seed >= 0 && (legs == 1 || legs == 2)
                             && roundIntervalDays >= 1 && matchIntervalHours >= 1
    ensures a.Schedule? ==> IsCalendar(a.matches, Circle(drawn), |Circle(drawn)| / 2, legs)
    ensures a.Schedule? ==> a.roundCount == (|Circle(drawn)| - 1) * legs
    ensures a.Schedule? ==> a.byeCount == if |teams| % 2 == 1 then a.roundCount else 0
  {
    var why := Validate(teams, seed, roundIntervalDays, matchIntervalHours, legs);
    if why.Some? {
      return Refused(why.value);
    }
    SameSize(drawn, teams);
    var circle := Circle(drawn);
    var matches := DrawUp(circle, legs, |circle| / 2);
    var roundCount := (|circle| - 1) * legs;
    return Schedule(roundCount, if |teams| % 2 == 1 then roundCount else 0, matches);
  }
}
