/** The draw of a Swiss round: a bounded search with backtracking, and a greedy fallback. */
module Swiss {
  import opened Sequences
  import opened Wrappers

  type Counts = map<int, int>

  datatype Pair = Pair(home: int, away: int)

  /** Everything the draw reads and never changes. `random` is the seeded number of each team. */
  datatype Config = Config(
    prior: set<Pair>, homeTarget: Option<int>, awayTarget: Option<int>,
    points: Counts, won: Counts, random: map<int, real>)

  function Get(m: Counts, t: int): int {
    if t in m then m[t] else 0
  }

  function Random(c: Config, t: int): real {
    if t in c.random then c.random[t] else 0.0
  }

  function Add(m: Counts, t: int, n: int): Counts {
    m[t := Get(m, t) + n]
  }

  // ---------------------------------------------------------------- what a draw may be

  /** An earlier meeting counts whoever played at home. */
  predicate HaveMet(c: Config, p: Pair) {
    p in c.prior || Pair(p.away, p.home) in c.prior
  }

  predicate Under(target: Option<int>, count: int) {
    target.None? || count < target.value
  }

  /** The home side may still play at home, and the away side away. */
  predicate HasGames(c: Config, home: Counts, away: Counts, p: Pair) {
    Under(c.homeTarget, Get(home, p.home)) && Under(c.awayTarget, Get(away, p.away))
  }

  predicate Allowed(c: Config, home: Counts, away: Counts, p: Pair) {
    !HaveMet(c, p) && HasGames(c, home, away, p)
  }

  predicate AllAllowed(c: Config, home: Counts, away: Counts, pairs: seq<Pair>) {
    forall i :: 0 <= i < |pairs| ==> Allowed(c, home, away, pairs[i])
  }

  /** Pair after pair takes two different teams that are still there, and nobody is left. */
  predicate PairsUp(pairs: seq<Pair>, teams: set<int>) {
    if |pairs| == 0 then teams == {}
    else
      var p := pairs[0];
      p.home in teams && p.away in teams && p.home != p.away && PairsUp(pairs[1..], teams - {p.home, p.away})
  }

  predicate IsDraw(c: Config, home: Counts, away: Counts, teams: set<int>, pairs: seq<Pair>) {
    PairsUp(pairs, teams) && AllAllowed(c, home, away, pairs)
  }

  ghost predicate Drawable(c: Config, home: Counts, away: Counts, teams: set<int>) {
    exists pairs :: IsDraw(c, home, away, teams, pairs)
  }

  predicate Agree(m: Counts, n: Counts, teams: set<int>) {
    forall t :: t in teams ==> Get(m, t) == Get(n, t)
  }

  // ---------------------------------------------------------------- draws with one pair more or less

  lemma {:induction false} PairsAreOfTeams(pairs: seq<Pair>, teams: set<int>)
    requires PairsUp(pairs, teams)
    ensures forall i :: 0 <= i < |pairs| ==>
      pairs[i].home in teams && pairs[i].away in teams && pairs[i].home != pairs[i].away
  {
    if |pairs| > 0 {
      PairsAreOfTeams(pairs[1..], teams - {pairs[0].home, pairs[0].away});
    }
  }

  lemma {:induction false} PlaceOf(pairs: seq<Pair>, teams: set<int>, t: int) returns (k: nat)
    requires PairsUp(pairs, teams) && t in teams
    ensures k < |pairs| && (pairs[k].home == t || pairs[k].away == t)
  {
    var p := pairs[0];
    if p.home == t || p.away == t {
      k := 0;
    } else {
      k := PlaceOf(pairs[1..], teams - {p.home, p.away}, t);
      k := k + 1;
    }
  }

  /** Nobody is in two pairs. */
  lemma {:induction false} PairsAreDisjoint(pairs: seq<Pair>, teams: set<int>, i: nat, j: nat)
    requires PairsUp(pairs, teams) && i < j < |pairs|
    ensures {pairs[i].home, pairs[i].away} !! {pairs[j].home, pairs[j].away}
  {
    var rest := teams - {pairs[0].home, pairs[0].away};
    PairsAreOfTeams(pairs[1..], rest);
    if i == 0 {
      assert pairs[1..][j - 1] == pairs[j];
    } else {
      PairsAreDisjoint(pairs[1..], rest, i - 1, j - 1);
    }
  }

  /** Every team plays, against somebody else, and nobody else does. */
  lemma {:induction false} EveryTeamPlays(pairs: seq<Pair>, teams: set<int>, t: int)
    requires PairsUp(pairs, teams)
    ensures t in teams <==> exists i :: 0 <= i < |pairs| && t in {pairs[i].home, pairs[i].away}
    ensures forall i :: 0 <= i < |pairs| ==> pairs[i].home != pairs[i].away
  {
    if |pairs| > 0 {
      var p, tail := pairs[0], pairs[1..];
      EveryTeamPlays(tail, teams - {p.home, p.away}, t);
      if t in {p.home, p.away} {
        assert t in {pairs[0].home, pairs[0].away};
      } else if t in teams {
        var i :| 0 <= i < |tail| && t in {tail[i].home, tail[i].away};
        assert pairs[i + 1] == tail[i];
      }
    }
  }

  /** A team the tables do not mention has played, scored and drawn nothing. */
  lemma NothingRecorded(m: Counts, c: Config, t: int)
    ensures Get(m, t) == (if t in m then m[t] else 0) && Random(c, t) == (if t in c.random then c.random[t] else 0.0)
    ensures Get(Add(m, t, 1), t) == Get(m, t) + 1
  {
  }

  /** A draw repeats no earlier meeting, whoever was at home in it, and takes nobody past the games there are to play:
      with this round, the home side has at most its target at home and the away side at most its target away. */
  lemma DrawKeepsTargets(c: Config, home: Counts, away: Counts, teams: set<int>, pairs: seq<Pair>)
    ensures IsDraw(c, home, away, teams, pairs) <==>
      && PairsUp(pairs, teams)
      && (forall p :: p in pairs ==> Pair(p.home, p.away) !in c.prior && Pair(p.away, p.home) !in c.prior)
      && (c.homeTarget.Some? ==> forall p :: p in pairs ==> Get(home, p.home) + 1 <= c.homeTarget.value)
      && (c.awayTarget.Some? ==> forall p :: p in pairs ==> Get(away, p.away) + 1 <= c.awayTarget.value)
  {
    forall i | 0 <= i < |pairs|
      ensures var p := pairs[i];
        Allowed(c, home, away, p) <==>
          && Pair(p.home, p.away) !in c.prior && Pair(p.away, p.home) !in c.prior
          && (c.homeTarget.Some? ==> Get(home, p.home) + 1 <= c.homeTarget.value)
          && (c.awayTarget.Some? ==> Get(away, p.away) + 1 <= c.awayTarget.value)
    {
      assert pairs[i] == Pair(pairs[i].home, pairs[i].away);
    }
  }

  lemma {:induction false} PairRemoved(pairs: seq<Pair>, k: nat, teams: set<int>)
    requires k < |pairs| && PairsUp(pairs, teams)
    ensures PairsUp(Without(pairs, k), teams - {pairs[k].home, pairs[k].away})
  {
    PairsAreOfTeams(pairs, teams);
    if k == 0 {
      assert Without(pairs, 0) == pairs[1..];
    } else {
      var p, q := pairs[0], pairs[k];
      PairRemoved(pairs[1..], k - 1, teams - {p.home, p.away});
      PairsAreOfTeams(pairs[1..], teams - {p.home, p.away});
      assert pairs[1..][k - 1] == q;
      assert Without(pairs, k)[0] == p && Without(pairs, k)[1..] == Without(pairs[1..], k - 1);
      assert teams - {p.home, p.away} - {q.home, q.away} == teams - {q.home, q.away} - {p.home, p.away};
    }
  }

  lemma SameAllowed(c: Config, home: Counts, away: Counts, home': Counts, away': Counts, teams: set<int>, pairs: seq<Pair>)
    requires Agree(home, home', teams) && Agree(away, away', teams) && PairsUp(pairs, teams)
    ensures AllAllowed(c, home, away, pairs) <==> AllAllowed(c, home', away', pairs)
  {
    PairsAreOfTeams(pairs, teams);
    forall i | 0 <= i < |pairs|
      ensures Allowed(c, home, away, pairs[i]) <==> Allowed(c, home', away', pairs[i])
    {
    }
  }

  /** No draw holds this pair. */
  ghost predicate NeverDrawn(c: Config, home: Counts, away: Counts, teams: set<int>, p: Pair) {
    forall pairs :: IsDraw(c, home, away, teams, pairs) ==> p !in pairs
  }

  lemma WithoutAllowed(c: Config, home: Counts, away: Counts, pairs: seq<Pair>, k: nat)
    requires k < |pairs| && AllAllowed(c, home, away, pairs)
    ensures AllAllowed(c, home, away, Without(pairs, k))
  {
    forall i | 0 <= i < |Without(pairs, k)| ensures Allowed(c, home, away, Without(pairs, k)[i]) {
      assert Without(pairs, k)[i] == pairs[if i < k then i else i + 1];
    }
  }

  lemma DrawnPairRemoved(c: Config, home: Counts, away: Counts, home': Counts, away': Counts, teams: set<int>,
                         pairs: seq<Pair>, k: nat)
    requires k < |pairs| && IsDraw(c, home, away, teams, pairs)
    requires var rest := teams - {pairs[k].home, pairs[k].away};
      Agree(home, home', rest) && Agree(away, away', rest)
    ensures IsDraw(c, home', away', teams - {pairs[k].home, pairs[k].away}, Without(pairs, k))
  {
    PairRemoved(pairs, k, teams);
    WithoutAllowed(c, home, away, pairs, k);
    SameAllowed(c, home, away, home', away', teams - {pairs[k].home, pairs[k].away}, Without(pairs, k));
  }

  /** If the others cannot be drawn once a pair is taken, no draw holds that pair. */
  lemma TakenPairFails(c: Config, home: Counts, away: Counts, home': Counts, away': Counts, teams: set<int>, p: Pair)
    requires !Drawable(c, home', away', teams - {p.home, p.away})
    requires Agree(home, home', teams - {p.home, p.away}) && Agree(away, away', teams - {p.home, p.away})
    ensures NeverDrawn(c, home, away, teams, p)
  {
    forall pairs: seq<Pair> | IsDraw(c, home, away, teams, pairs) ensures p !in pairs {
      forall k: nat | k < |pairs| ensures pairs[k] != p {
        if pairs[k] == p {
          DrawnPairRemoved(c, home, away, home', away', teams, pairs, k);
        }
      }
    }
  }

  /** Nothing can be drawn if every pair of somebody with anybody else is never drawn. */
  lemma NobodyLeftFor(c: Config, home: Counts, away: Counts, teams: set<int>, first: int)
    requires first in teams
    requires forall s :: s in teams && s != first ==>
      NeverDrawn(c, home, away, teams, Pair(first, s)) && NeverDrawn(c, home, away, teams, Pair(s, first))
    ensures !Drawable(c, home, away, teams)
  {
    forall pairs: seq<Pair> ensures !IsDraw(c, home, away, teams, pairs) {
      if PairsUp(pairs, teams) {
        var k := PlaceOf(pairs, teams, first);
        PairsAreOfTeams(pairs, teams);
        var s := if pairs[k].home == first then pairs[k].away else pairs[k].home;
        assert pairs[k] in pairs && (pairs[k] == Pair(first, s) || pairs[k] == Pair(s, first));
      }
    }
  }

  // ---------------------------------------------------------------- the budget and the running counts

  class PairingBudget {
    const searchLimit: nat
    const totalLimit: nat
    var evaluations: nat

    constructor (searchLimit: nat, totalLimit: nat)
      ensures this.searchLimit == searchLimit && this.totalLimit == totalLimit && evaluations == 0
    {
      this.searchLimit, this.totalLimit, evaluations := searchLimit, totalLimit, 0;
    }

    method Take(limit: nat) returns (ok: bool)
      modifies this
      ensures ok == (old(evaluations) < limit)
      ensures evaluations == old(evaluations) + if ok then 1 else 0
    {
      if evaluations >= limit {
        return false;
      }
      evaluations := evaluations + 1;
      return true;
    }
  }

  /** The counts a search changes on its way down and restores on its way up. */
  class Tally {
    var home: Counts
    var away: Counts

    constructor (home: Counts, away: Counts)
      ensures this.home == home && this.away == away
    {
      this.home, this.away := home, away;
    }
  }

  // ---------------------------------------------------------------- priorities

  datatype Key = Key(first: int, second: int, third: int, tie: real)

  predicate Less(a: Key, b: Key) {
    if a.first != b.first then a.first < b.first
    else if a.second != b.second then a.second < b.second
    else if a.third != b.third then a.third < b.third
    else a.tie < b.tie
  }

  function Abs(x: int): nat {
    if x < 0 then -x else x
  }

  /** Same record first, then the smaller gap in points, then the seeded number. */
  function CandidateKey(c: Config, first: int, second: int): Key {
    var same := Get(c.points, first) == Get(c.points, second) && Get(c.won, first) == Get(c.won, second);
    Key(if same then 0 else 1, Abs(Get(c.points, second) - Get(c.points, first)), 0, Random(c, second))
  }

  predicate SameRecord(c: Config, a: int, b: int) {
    Get(c.points, a) == Get(c.points, b) && Get(c.won, a) == Get(c.won, b)
  }

  /** How far apart two teams are in points. */
  function Apart(c: Config, a: int, b: int): nat {
    if Get(c.points, a) < Get(c.points, b) then Get(c.points, b) - Get(c.points, a)
    else Get(c.points, a) - Get(c.points, b)
  }

  /** `s` is at least as good a partner for `first` as `t`: somebody with the same record comes before everybody
      with another one; among equals in that, whoever is nearer in points; and then the smaller seeded number. */
  predicate AtLeastAsGood(c: Config, first: int, s: int, t: int) {
    && (SameRecord(c, first, t) ==> SameRecord(c, first, s))
    && (SameRecord(c, first, s) == SameRecord(c, first, t) ==>
          && Apart(c, first, s) <= Apart(c, first, t)
          && (Apart(c, first, s) == Apart(c, first, t) ==> Random(c, s) <= Random(c, t)))
  }

  lemma BeforeExactly(c: Config, first: int, s: int, t: int)
    ensures !Before(c, first, t, s) <==> AtLeastAsGood(c, first, s, t)
  {
  }

  /** The side has all the games it should have. */
  predicate Reached(target: Option<int>, count: int) {
    count >= if target.Some? then target.value else 1000000000
  }

  /** How far from even the games of a team would be after one more at home. */
  function Uneven(home: Counts, away: Counts, t: int): nat {
    if Get(home, t) + 1 < Get(away, t) then Get(away, t) - Get(home, t) - 1 else Get(home, t) + 1 - Get(away, t)
  }

  /** `p` is at least as good an orientation as `q`: best if the home side still needs home games; then if the away
      side still needs away games; then if the home side's games are more even; then by its seeded number. */
  predicate AtLeastAsFair(c: Config, home: Counts, away: Counts, p: Pair, q: Pair) {
    var hostFull, hostFull' := Reached(c.homeTarget, Get(home, p.home)), Reached(c.homeTarget, Get(home, q.home));
    var guestFull, guestFull' := Reached(c.awayTarget, Get(away, p.away)), Reached(c.awayTarget, Get(away, q.away));
    && (hostFull ==> hostFull')
    && (hostFull == hostFull' ==> (guestFull ==> guestFull'))
    && (hostFull == hostFull' && guestFull == guestFull' ==>
          && Uneven(home, away, p.home) <= Uneven(home, away, q.home)
          && (Uneven(home, away, p.home) == Uneven(home, away, q.home) ==> Random(c, p.home) <= Random(c, q.home)))
  }

  lemma PreferredExactly(c: Config, home: Counts, away: Counts, p: Pair, q: Pair)
    ensures !Preferred(c, home, away, q, p) <==> AtLeastAsFair(c, home, away, p, q)
  {
  }

  const NO_TARGET := 1000000000

  function Target(t: Option<int>): int {
    if t.Some? then t.value else NO_TARGET
  }

  function OrientationKey(c: Config, home: Counts, away: Counts, p: Pair): Key {
    Key(if Get(home, p.home) >= Target(c.homeTarget) then 1 else 0,
        if Get(away, p.away) >= Target(c.awayTarget) then 1 else 0,
        Abs(Get(home, p.home) + 1 - Get(away, p.home)), Random(c, p.home))
  }

  predicate Sorted(c: Config, first: int, s: seq<int>) {
    forall i, j :: 0 <= i < j < |s| ==> !Before(c, first, s[j], s[i])
  }

  predicate Before(c: Config, first: int, s: int, t: int) {
    Less(CandidateKey(c, first, s), CandidateKey(c, first, t))
  }

  lemma BeforeOneWay(c: Config, first: int, t: int, s: int)
    requires Before(c, first, t, s)
    ensures !Before(c, first, s, t)
  {
  }

  lemma InsertKeeps(c: Config, first: int, s: seq<int>, i: nat, t: int, out: seq<int>)
    requires i <= |s| && Sorted(c, first, s) && out == s[..i] + [t] + s[i..]
    requires forall j :: 0 <= j < i ==> !Before(c, first, t, s[j])
    requires forall j :: i <= j < |s| ==> !Before(c, first, s[j], t)
    ensures Sorted(c, first, out) && multiset(out) == multiset(s) + multiset{t}
    ensures forall x :: x in out <==> x in s || x == t
  {
    assert s == s[..i] + s[i..];
    forall j, k | 0 <= j < k < |out| ensures !Before(c, first, out[k], out[j]) {
      assert j < i ==> out[j] == s[j];
      assert j > i ==> out[j] == s[j - 1];
      assert k < i ==> out[k] == s[k];
      assert k > i ==> out[k] == s[k - 1];
    }
  }

  method InsertCandidate(c: Config, first: int, s: seq<int>, t: int) returns (out: seq<int>)
    requires Sorted(c, first, s)
    ensures Sorted(c, first, out) && multiset(out) == multiset(s) + multiset{t}
    ensures forall x :: x in out <==> x in s || x == t
  {
    var i := |s|;
    while i > 0 && Before(c, first, t, s[i - 1])
      invariant 0 <= i <= |s|
      invariant forall j :: i <= j < |s| ==> !Before(c, first, s[j], t)
    {
      BeforeOneWay(c, first, t, s[i - 1]);
      i := i - 1;
    }
    forall j | 0 <= j < i ensures !Before(c, first, t, s[j]) {
    }
    out := s[..i] + [t] + s[i..];
    InsertKeeps(c, first, s, i, t, out);
  }

  /** The candidates for the first of the remaining teams, in priority order. */
  method Candidates(c: Config, first: int, others: seq<int>) returns (out: seq<int>)
    ensures Sorted(c, first, out) && multiset(out) == multiset(others)
    ensures forall i, j :: 0 <= i < j < |out| ==> AtLeastAsGood(c, first, out[i], out[j])
    ensures forall x :: x in out <==> x in others
  {
    out := [];
    for i := 0 to |others|
      invariant Sorted(c, first, out) && multiset(out) == multiset(others[..i])
      invariant forall x :: x in out <==> x in others[..i]
    {
      assert others[..i + 1] == others[..i] + [others[i]];
      out := InsertCandidate(c, first, out, others[i]);
    }
    assert others[..|others|] == others;
    forall i, j | 0 <= i < j < |out| ensures AtLeastAsGood(c, first, out[i], out[j]) {
      BeforeExactly(c, first, out[i], out[j]);
    }
  }

  predicate OptionsSorted(c: Config, home: Counts, away: Counts, options: seq<Pair>) {
    forall i, j :: 0 <= i < j < |options| ==> !Preferred(c, home, away, options[j], options[i])
  }

  predicate Preferred(c: Config, home: Counts, away: Counts, p: Pair, q: Pair) {
    Less(OrientationKey(c, home, away, p), OrientationKey(c, home, away, q))
  }

  /** The two ways to orient a pair, in priority order, without those whose side has its games already. */
  method OrientationOptions(c: Config, first: int, second: int, home: Counts, away: Counts) returns (options: seq<Pair>)
    ensures forall p :: p in options <==> OneOf(first, second, p) && HasGames(c, home, away, p)
    ensures OptionsSorted(c, home, away, options)
    ensures |options| == 2 ==> AtLeastAsFair(c, home, away, options[0], options[1])
  {
    PreferredExactly(c, home, away, Pair(first, second), Pair(second, first));
    PreferredExactly(c, home, away, Pair(second, first), Pair(first, second));
    var a, b := Pair(first, second), Pair(second, first);
    var ordered := if Less(OrientationKey(c, home, away, b), OrientationKey(c, home, away, a)) then [b, a] else [a, b];
    assert forall p :: p in ordered <==> p == ordered[0] || p == ordered[1];
    if c.homeTarget.None? && c.awayTarget.None? {
      return ordered;
    }
    options := [];
    for i := 0 to 2
      invariant options == (if i > 0 && HasGames(c, home, away, ordered[0]) then [ordered[0]] else [])
                         + (if i > 1 && HasGames(c, home, away, ordered[1]) then [ordered[1]] else [])
    {
      var p := ordered[i];
      if HasGames(c, home, away, p) {
        options := options + [p];
      }
    }
  }

  predicate OneOf(first: int, second: int, p: Pair) {
    p == Pair(first, second) || p == Pair(second, first)
  }

  // ---------------------------------------------------------------- the search

  datatype Outcome = Found(pairs: seq<Pair>) | NoPairing | LimitReached

  function Teams(s: seq<int>): set<int> {
    set t | t in s
  }

  function Leave(s: seq<int>, a: int, b: int): seq<int> {
    if |s| == 0 then []
    else (if s[0] == a || s[0] == b then [] else [s[0]]) + Leave(s[1..], a, b)
  }

  lemma {:induction false} LeaveExactly(s: seq<int>, a: int, b: int)
    requires NoRepeats(s)
    ensures NoRepeats(Leave(s, a, b)) && |Leave(s, a, b)| <= |s|
    ensures forall t :: t in Leave(s, a, b) <==> t in s && t != a && t != b
  {
    if |s| > 0 {
      LeaveExactly(s[1..], a, b);
      assert s[0] !in s[1..];
      assert forall t :: t in s <==> t == s[0] || t in s[1..];
    }
  }

  ghost predicate Restored(m: Counts, n: Counts) {
    forall t :: Get(m, t) == Get(n, t)
  }

  /** Counting a game and taking it back changes nothing. */
  lemma TakenBack(m: Counts, up: Counts, back: Counts, t: int)
    requires Restored(back, up)
    requires forall x :: Get(up, x) == Get(m, x) + if x == t then 1 else 0
    ensures Restored(Add(back, t, -1), m)
  {
  }

  lemma RestTeams(remaining: seq<int>, second: int)
    requires |remaining| > 0 && NoRepeats(remaining) && second in remaining[1..]
    ensures var rest := Leave(remaining[1..], second, second);
      NoRepeats(rest) && |rest| < |remaining| && Teams(rest) == Teams(remaining) - {remaining[0], second}
    ensures second != remaining[0] && second in Teams(remaining)
  {
    LeaveExactly(remaining[1..], second, second);
    var i :| 0 <= i < |remaining[1..]| && remaining[1..][i] == second;
    assert remaining[i + 1] == second;
    assert remaining[0] !in remaining[1..];
    forall t ensures t in remaining <==> t == remaining[0] || t in remaining[1..] {
      assert remaining == [remaining[0]] + remaining[1..];
    }
  }

  lemma FoundWithPair(c: Config, home: Counts, away: Counts, home': Counts, away': Counts, teams: set<int>, p: Pair,
                      rest: seq<Pair>)
    requires p.home in teams && p.away in teams && p.home != p.away && Allowed(c, home, away, p)
    requires IsDraw(c, home', away', teams - {p.home, p.away}, rest)
    requires Agree(home, home', teams - {p.home, p.away}) && Agree(away, away', teams - {p.home, p.away})
    ensures IsDraw(c, home, away, teams, [p] + rest)
  {
    SameAllowed(c, home, away, home', away', teams - {p.home, p.away}, rest);
    assert ([p] + rest)[1..] == rest;
  }

  /** What a search on some teams may answer, given the counts it started from. */
  ghost predicate Answers(c: Config, home: Counts, away: Counts, teams: set<int>, r: Outcome) {
    && (r.Found? ==> IsDraw(c, home, away, teams, r.pairs))
    && (r.NoPairing? ==> !Drawable(c, home, away, teams))
  }

  /** The pairs `first` makes with `second`, both ways round. */
  ghost predicate BothNeverDrawn(c: Config, home: Counts, away: Counts, teams: set<int>, first: int, second: int) {
    NeverDrawn(c, home, away, teams, Pair(first, second)) && NeverDrawn(c, home, away, teams, Pair(second, first))
  }

  function Partner(first: int, p: Pair): int {
    if p.home == first then p.away else p.home
  }

  /** The first pair cannot be improved: with no partner of higher priority, and in no preferred orientation, is
      there a draw. */
  ghost predicate BestPair(c: Config, home: Counts, away: Counts, remaining: seq<int>, p: Pair)
    requires |remaining| > 0
  {
    var first, second, teams := remaining[0], Partner(remaining[0], p), Teams(remaining);
    && second in remaining[1..] && OneOf(first, second, p)
    && (forall s :: s in remaining[1..] && Before(c, first, s, second) ==>
          BothNeverDrawn(c, home, away, teams, first, s))
    && (forall q :: OneOf(first, second, q) && Preferred(c, home, away, q, p) ==> NeverDrawn(c, home, away, teams, q))
  }

  /** A draw that is best at its first pair, and then, given that, at its second, and so on. */
  ghost predicate Best(c: Config, home: Counts, away: Counts, remaining: seq<int>, pairs: seq<Pair>)
    decreases |pairs|
  {
    if |pairs| == 0 then |remaining| == 0
    else
      |remaining| > 0 &&
      var p, second := pairs[0], Partner(remaining[0], pairs[0]);
      BestPair(c, home, away, remaining, p) &&
      Best(c, Add(home, p.home, 1), Add(away, p.away, 1), Leave(remaining[1..], second, second), pairs[1..])
  }

  lemma SameDraws(c: Config, home: Counts, away: Counts, home': Counts, away': Counts, teams: set<int>)
    requires Restored(home, home') && Restored(away, away')
    ensures forall pairs :: IsDraw(c, home, away, teams, pairs) <==> IsDraw(c, home', away', teams, pairs)
  {
    forall pairs: seq<Pair>
      ensures AllAllowed(c, home, away, pairs) <==> AllAllowed(c, home', away', pairs)
    {
      forall i | 0 <= i < |pairs|
        ensures Allowed(c, home, away, pairs[i]) <==> Allowed(c, home', away', pairs[i])
      {
      }
    }
  }

  lemma AddRestored(m: Counts, n: Counts, t: int, k: int)
    requires Restored(m, n)
    ensures Restored(Add(m, t, k), Add(n, t, k))
  {
    assert Get(m, t) == Get(n, t);
    forall x ensures Get(Add(m, t, k), x) == Get(Add(n, t, k), x) {
      assert Get(m, x) == Get(n, x);
    }
  }

  lemma SameBestPair(c: Config, home: Counts, away: Counts, home': Counts, away': Counts, remaining: seq<int>, p: Pair)
    requires |remaining| > 0 && Restored(home, home') && Restored(away, away')
    requires BestPair(c, home, away, remaining, p)
    ensures BestPair(c, home', away', remaining, p)
  {
    SameDraws(c, home, away, home', away', Teams(remaining));
    forall q ensures OrientationKey(c, home, away, q) == OrientationKey(c, home', away', q) {
    }
  }

  /** What is best depends on the counts only through what they say. */
  lemma {:induction false} SameBest(c: Config, home: Counts, away: Counts, home': Counts, away': Counts,
                                    remaining: seq<int>, pairs: seq<Pair>)
    requires Restored(home, home') && Restored(away, away') && Best(c, home, away, remaining, pairs)
    ensures Best(c, home', away', remaining, pairs)
    decreases |pairs|
  {
    if |pairs| > 0 {
      var p, second := pairs[0], Partner(remaining[0], pairs[0]);
      SameBestPair(c, home, away, home', away', remaining, p);
      AddRestored(home, home', p.home, 1);
      AddRestored(away, away', p.away, 1);
      SameBest(c, Add(home, p.home, 1), Add(away, p.away, 1), Add(home', p.home, 1), Add(away', p.away, 1),
        Leave(remaining[1..], second, second), pairs[1..]);
    }
  }

  /** The partner that the best draw gives the first team is at least as good as any with whom there is a draw. */
  lemma BestPartner(c: Config, home: Counts, away: Counts, remaining: seq<int>, pairs: seq<Pair>, s: int)
    requires Best(c, home, away, remaining, pairs) && |remaining| > 0 && |pairs| > 0 && s in remaining[1..]
    requires !BothNeverDrawn(c, home, away, Teams(remaining), remaining[0], s)
    ensures AtLeastAsGood(c, remaining[0], Partner(remaining[0], pairs[0]), s)
  {
    BeforeExactly(c, remaining[0], Partner(remaining[0], pairs[0]), s);
  }

  /** So a team meets one of its own record whenever there is a draw in which it does. */
  lemma SameRecordFirst(c: Config, home: Counts, away: Counts, remaining: seq<int>, pairs: seq<Pair>, s: int)
    requires Best(c, home, away, remaining, pairs) && |remaining| > 0 && |pairs| > 0 && s in remaining[1..]
    requires SameRecord(c, remaining[0], s)
    requires !BothNeverDrawn(c, home, away, Teams(remaining), remaining[0], s)
    ensures SameRecord(c, remaining[0], Partner(remaining[0], pairs[0]))
  {
    BestPartner(c, home, away, remaining, pairs, s);
  }

  /** And it plays at home or away as is fairer, unless no draw has the pair that way round. */
  lemma BestOrientation(c: Config, home: Counts, away: Counts, remaining: seq<int>, pairs: seq<Pair>)
    requires Best(c, home, away, remaining, pairs) && |remaining| > 0 && |pairs| > 0
    ensures var p := pairs[0];
      var q := Pair(p.away, p.home);
      AtLeastAsFair(c, home, away, p, q) || NeverDrawn(c, home, away, Teams(remaining), q)
  {
    var p := pairs[0];
    PreferredExactly(c, home, away, p, Pair(p.away, p.home));
  }

  lemma NotAllowedNeverDrawn(c: Config, home: Counts, away: Counts, teams: set<int>, p: Pair)
    requires !Allowed(c, home, away, p)
    ensures NeverDrawn(c, home, away, teams, p)
  {
  }

  method PairRemaining(c: Config, remaining: seq<int>, tally: Tally, budget: PairingBudget) returns (r: Outcome)
    requires NoRepeats(remaining)
    modifies tally, budget
    ensures Restored(tally.home, old(tally.home)) && Restored(tally.away, old(tally.away))
    ensures Answers(c, old(tally.home), old(tally.away), Teams(remaining), r)
    ensures r.Found? ==> Best(c, old(tally.home), old(tally.away), remaining, r.pairs)
    ensures old(budget.evaluations) <= budget.evaluations
    ensures budget.evaluations <= old(budget.evaluations) || budget.evaluations <= budget.searchLimit
    ensures r.LimitReached? ==> budget.evaluations >= budget.searchLimit
    decreases |remaining|, 1
  {
    if |remaining| == 0 {
      return Found([]);
    }
    ghost var home, away, teams := tally.home, tally.away, Teams(remaining);
    var first := remaining[0];
    var candidates := Candidates(c, first, remaining[1..]);
    for j := 0 to |candidates|
      invariant Restored(tally.home, home) && Restored(tally.away, away)
      invariant forall i :: 0 <= i < j ==> BothNeverDrawn(c, home, away, teams, first, candidates[i])
      invariant old(budget.evaluations) <= budget.evaluations
      invariant budget.evaluations <= old(budget.evaluations) || budget.evaluations <= budget.searchLimit
    {
      var second := candidates[j];
      var ok := budget.Take(budget.searchLimit);
      if !ok {
        return LimitReached;
      }
      if HaveMet(c, Pair(first, second)) {
        continue;
      }
      r := TryPair(c, remaining, second, tally, budget, home, away);
      if !r.NoPairing? {
        forall s | s in remaining[1..] && Before(c, first, s, second)
          ensures BothNeverDrawn(c, home, away, teams, first, s)
        {
          var k :| 0 <= k < |candidates| && candidates[k] == s;
          assert k < j;
        }
        return;
      }
    }
    forall s | s in teams && s != first ensures BothNeverDrawn(c, home, away, teams, first, s) {
      assert remaining == [first] + remaining[1..];
      assert s in candidates;
    }
    NobodyLeftFor(c, home, away, teams, first);
    return NoPairing;
  }

  /** The first pair is with `second`, in its best orientation, and the others are best after it. */
  ghost predicate StartsBest(c: Config, home: Counts, away: Counts, remaining: seq<int>, second: int, pairs: seq<Pair>)
    requires |remaining| > 0
  {
    |pairs| > 0 &&
    var p := pairs[0];
    && OneOf(remaining[0], second, p)
    && (forall q :: OneOf(remaining[0], second, q) && Preferred(c, home, away, q, p) ==>
          NeverDrawn(c, home, away, Teams(remaining), q))
    && Best(c, Add(home, p.home, 1), Add(away, p.away, 1), Leave(remaining[1..], second, second), pairs[1..])
  }

  /** Both orientations of one pair, one after the other. */
  method TryPair(c: Config, remaining: seq<int>, second: int, tally: Tally, budget: PairingBudget,
                 ghost home: Counts, ghost away: Counts)
    returns (r: Outcome)
    requires |remaining| > 0 && NoRepeats(remaining) && second in remaining[1..]
    requires !HaveMet(c, Pair(remaining[0], second))
    requires Restored(tally.home, home) && Restored(tally.away, away)
    modifies tally, budget
    ensures Restored(tally.home, home) && Restored(tally.away, away)
    ensures r.Found? ==> IsDraw(c, home, away, Teams(remaining), r.pairs)
    ensures r.Found? ==> StartsBest(c, home, away, remaining, second, r.pairs)
    ensures r.NoPairing? ==> BothNeverDrawn(c, home, away, Teams(remaining), remaining[0], second)
    ensures old(budget.evaluations) <= budget.evaluations
    ensures budget.evaluations <= old(budget.evaluations) || budget.evaluations <= budget.searchLimit
    ensures r.LimitReached? ==> budget.evaluations >= budget.searchLimit
    decreases |remaining|, 0
  {
    var first := remaining[0];
    ghost var teams := Teams(remaining);
    RestTeams(remaining, second);
    var rest := Leave(remaining[1..], second, second);
    ghost var keptHome, keptAway := tally.home, tally.away;
    var options := OrientationOptions(c, first, second, tally.home, tally.away);
    for i := 0 to |options|
      invariant Restored(tally.home, home) && Restored(tally.away, away)
      invariant forall k :: 0 <= k < i ==> NeverDrawn(c, home, away, teams, options[k])
      invariant old(budget.evaluations) <= budget.evaluations
      invariant budget.evaluations <= old(budget.evaluations) || budget.evaluations <= budget.searchLimit
    {
      assert options[i] in options;
      r := TryOriented(c, options[i], rest, tally, budget, teams, home, away);
      if !r.NoPairing? {
        EarlierOptions(c, home, away, keptHome, keptAway, teams, first, second, options, i);
        return;
      }
    }
    forall p | OneOf(first, second, p) ensures NeverDrawn(c, home, away, teams, p) {
      if p !in options {
        NotAllowedNeverDrawn(c, home, away, teams, p);
      }
    }
    return NoPairing;
  }

  /** Every orientation preferred to the one at `i` was tried before it, or is not allowed. */
  lemma EarlierOptions(c: Config, home: Counts, away: Counts, keptHome: Counts, keptAway: Counts, teams: set<int>,
                       first: int, second: int, options: seq<Pair>, i: nat)
    requires i < |options| && Restored(keptHome, home) && Restored(keptAway, away)
    requires forall p :: p in options <==> OneOf(first, second, p) && HasGames(c, keptHome, keptAway, p)
    requires OptionsSorted(c, keptHome, keptAway, options)
    requires forall k :: 0 <= k < i ==> NeverDrawn(c, home, away, teams, options[k])
    ensures forall q :: OneOf(first, second, q) && Preferred(c, home, away, q, options[i]) ==>
      NeverDrawn(c, home, away, teams, q)
  {
    forall q | OneOf(first, second, q) && Preferred(c, home, away, q, options[i])
      ensures NeverDrawn(c, home, away, teams, q)
    {
      assert OrientationKey(c, home, away, q) == OrientationKey(c, keptHome, keptAway, q);
      assert OrientationKey(c, home, away, options[i]) == OrientationKey(c, keptHome, keptAway, options[i]);
      if q in options {
        var k :| 0 <= k < |options| && options[k] == q;
        assert k < i;
      } else {
        NotAllowedNeverDrawn(c, home, away, teams, q);
      }
    }
  }

  /** Counts the pair, searches the others, and takes the pair back, whatever came out. */
  method TryOriented(c: Config, p: Pair, rest: seq<int>, tally: Tally, budget: PairingBudget,
                     ghost teams: set<int>, ghost home: Counts, ghost away: Counts)
    returns (r: Outcome)
    requires NoRepeats(rest) && Teams(rest) == teams - {p.home, p.away}
    requires p.home in teams && p.away in teams && p.home != p.away && Allowed(c, home, away, p)
    requires Restored(tally.home, home) && Restored(tally.away, away)
    modifies tally, budget
    ensures Restored(tally.home, home) && Restored(tally.away, away)
    ensures r.Found? ==> IsDraw(c, home, away, teams, r.pairs) && |r.pairs| > 0 && r.pairs[0] == p
    ensures r.Found? ==> Best(c, Add(home, p.home, 1), Add(away, p.away, 1), rest, r.pairs[1..])
    ensures r.NoPairing? ==> NeverDrawn(c, home, away, teams, p)
    ensures old(budget.evaluations) <= budget.evaluations
    ensures budget.evaluations <= old(budget.evaluations) || budget.evaluations <= budget.searchLimit
    ensures r.LimitReached? ==> budget.evaluations >= budget.searchLimit
    decreases |rest|, 2
  {
    ghost var kept, keptAway := tally.home, tally.away;
    tally.home := Add(tally.home, p.home, 1);
    tally.away := Add(tally.away, p.away, 1);
    ghost var home', away' := tally.home, tally.away;
    assert Agree(home, home', teams - {p.home, p.away}) && Agree(away, away', teams - {p.home, p.away});
    r := PairRemaining(c, rest, tally, budget);
    ghost var back, returned := tally.home, tally.away;
    tally.home := Add(tally.home, p.home, -1);
    tally.away := Add(tally.away, p.away, -1);
    TakenBack(home, home', back, p.home);
    TakenBack(away, away', returned, p.away);
    if r.Found? {
      FoundWithPair(c, home, away, home', away', teams, p, r.pairs);
      AddRestored(kept, home, p.home, 1);
      AddRestored(keptAway, away, p.away, 1);
      SameBest(c, home', away', Add(home, p.home, 1), Add(away, p.away, 1), rest, r.pairs);
      assert ([p] + r.pairs)[1..] == r.pairs;
      r := Found([p] + r.pairs);
    } else if r.NoPairing? {
      TakenPairFails(c, home, away, home', away', teams, p);
    }
  }

  // ---------------------------------------------------------------- the fallback

  /** Whatever completes the rest completes the whole. */
  ghost predicate Leads(pairs: seq<Pair>, remaining: set<int>, teams: set<int>) {
    forall tail :: PairsUp(tail, remaining) ==> PairsUp(pairs + tail, teams)
  }

  lemma LeadsOn(pairs: seq<Pair>, remaining: set<int>, teams: set<int>, p: Pair)
    requires Leads(pairs, remaining, teams)
    requires p.home in remaining && p.away in remaining && p.home != p.away
    ensures Leads(pairs + [p], remaining - {p.home, p.away}, teams)
  {
    forall tail | PairsUp(tail, remaining - {p.home, p.away}) ensures PairsUp(pairs + [p] + tail, teams) {
      var longer := [p] + tail;
      assert longer[1..] == tail;
      assert PairsUp(longer, remaining);
      assert pairs + [p] + tail == pairs + longer;
    }
  }

  lemma LeadsFromTheStart(teams: set<int>)
    ensures Leads([], teams, teams)
  {
    forall tail: seq<Pair> | PairsUp(tail, teams) ensures PairsUp([] + tail, teams) {
      assert [] + tail == tail;
    }
  }

  lemma LeadsToTheEnd(pairs: seq<Pair>, teams: set<int>)
    requires Leads(pairs, {}, teams)
    ensures PairsUp(pairs, teams)
  {
    assert PairsUp([], {});
    assert pairs + [] == pairs;
  }

  /** What holds before every turn of the fallback. */
  ghost predicate Underway(c: Config, home: Counts, away: Counts, homeCounts: Counts, awayCounts: Counts,
                           order: seq<int>, remaining: seq<int>, pairs: seq<Pair>)
  {
    && NoRepeats(remaining)
    && Leads(pairs, Teams(remaining), Teams(order)) && AllAllowed(c, home, away, pairs)
    && Agree(home, homeCounts, Teams(remaining)) && Agree(away, awayCounts, Teams(remaining))
  }

  lemma OthersOf(remaining: seq<int>, second: int)
    requires |remaining| > 0 && NoRepeats(remaining) && second in remaining[1..]
    ensures var rest := Leave(remaining, remaining[0], second);
      NoRepeats(rest) && |rest| < |remaining| && Teams(rest) == Teams(remaining) - {remaining[0], second}
    ensures second != remaining[0] && second in Teams(remaining) && remaining[0] in Teams(remaining)
  {
    RestTeams(remaining, second);
    LeaveExactly(remaining, remaining[0], second);
    LeaveExactly(remaining[1..], remaining[0], second);
    var rest := Leave(remaining, remaining[0], second);
    assert rest == Leave(remaining[1..], remaining[0], second);
    assert forall t :: t in Teams(rest) <==> t in Teams(remaining) - {remaining[0], second};
  }

  lemma TurnKeeps(c: Config, home: Counts, away: Counts, homeCounts: Counts, awayCounts: Counts,
                  order: seq<int>, remaining: seq<int>, pairs: seq<Pair>, p: Pair, second: int)
    requires Underway(c, home, away, homeCounts, awayCounts, order, remaining, pairs)
    requires |remaining| > 1 && second in remaining[1..] && OneOf(remaining[0], second, p)
    requires Allowed(c, homeCounts, awayCounts, p)
    ensures Underway(c, home, away, Add(homeCounts, p.home, 1), Add(awayCounts, p.away, 1),
      order, Leave(remaining, remaining[0], second), pairs + [p])
  {
    OthersOf(remaining, second);
    assert {p.home, p.away} == {remaining[0], second};
    LeadsOn(pairs, Teams(remaining), Teams(order), p);
    assert p.home in Teams(remaining) && p.away in Teams(remaining);
    assert Allowed(c, home, away, p);
  }

  /** The rules allow the pair, and none with a partner of higher priority or in a preferred orientation. */
  predicate GreedyPair(c: Config, home: Counts, away: Counts, remaining: seq<int>, p: Pair)
    requires |remaining| > 0
  {
    var first, second := remaining[0], Partner(remaining[0], p);
    && second in remaining[1..] && OneOf(first, second, p) && Allowed(c, home, away, p)
    && (forall s :: s in remaining[1..] && Before(c, first, s, second) ==> Barred(c, home, away, first, s))
    && !(Preferred(c, home, away, Pair(p.away, p.home), p) && Allowed(c, home, away, Pair(p.away, p.home)))
  }

  predicate Barred(c: Config, home: Counts, away: Counts, first: int, second: int) {
    !Allowed(c, home, away, Pair(first, second)) && !Allowed(c, home, away, Pair(second, first))
  }

  /** A draw whose every pair is the greedy one. */
  predicate Steady(c: Config, home: Counts, away: Counts, remaining: seq<int>, pairs: seq<Pair>)
    decreases |pairs|
  {
    if |pairs| == 0 then |remaining| == 0
    else
      |remaining| > 0 &&
      var p, second := pairs[0], Partner(remaining[0], pairs[0]);
      GreedyPair(c, home, away, remaining, p) &&
      Steady(c, Add(home, p.home, 1), Add(away, p.away, 1), Leave(remaining, remaining[0], second), pairs[1..])
  }

  /** The greedy partner is at least as good as any that the rules allow, and the orientation fairer if both are
      allowed. */
  lemma GreedyPartner(c: Config, home: Counts, away: Counts, remaining: seq<int>, p: Pair, s: int)
    requires |remaining| > 0 && GreedyPair(c, home, away, remaining, p) && s in remaining[1..]
    ensures !Barred(c, home, away, remaining[0], s) ==> AtLeastAsGood(c, remaining[0], Partner(remaining[0], p), s)
    ensures Allowed(c, home, away, Pair(p.away, p.home)) ==> AtLeastAsFair(c, home, away, p, Pair(p.away, p.home))
  {
    BeforeExactly(c, remaining[0], Partner(remaining[0], p), s);
    PreferredExactly(c, home, away, p, Pair(p.away, p.home));
  }

  /** The first candidate that the rules allow, with its preferred orientation. */
  method Choose(c: Config, remaining: seq<int>, home: Counts, away: Counts, budget: PairingBudget)
    returns (chosen: Option<Pair>)
    requires |remaining| > 1 && NoRepeats(remaining)
    modifies budget
    ensures chosen.Some? ==> GreedyPair(c, home, away, remaining, chosen.value)
    ensures old(budget.evaluations) <= budget.evaluations
    ensures budget.evaluations <= old(budget.evaluations) || budget.evaluations <= budget.totalLimit
  {
    var first := remaining[0];
    var candidates := Candidates(c, first, remaining[1..]);
    for j := 0 to |candidates|
      invariant forall i :: 0 <= i < j ==> Barred(c, home, away, first, candidates[i])
      invariant old(budget.evaluations) <= budget.evaluations
      invariant budget.evaluations <= old(budget.evaluations) || budget.evaluations <= budget.totalLimit
    {
      var second := candidates[j];
      var ok := budget.Take(budget.totalLimit);
      if !ok {
        return None;
      }
      if HaveMet(c, Pair(first, second)) {
        continue;
      }
      var options := OrientationOptions(c, first, second, home, away);
      if |options| == 0 {
        assert Pair(first, second) !in options && Pair(second, first) !in options;
        continue;
      }
      FirstIsGreedy(c, home, away, remaining, candidates, j, options);
      return Some(options[0]);
    }
    return None;
  }

  lemma FirstIsGreedy(c: Config, home: Counts, away: Counts, remaining: seq<int>, candidates: seq<int>, j: nat,
                      options: seq<Pair>)
    requires |remaining| > 0 && NoRepeats(remaining) && j < |candidates| && |options| > 0
    requires Sorted(c, remaining[0], candidates) && forall x :: x in candidates <==> x in remaining[1..]
    requires forall i :: 0 <= i < j ==> Barred(c, home, away, remaining[0], candidates[i])
    requires !HaveMet(c, Pair(remaining[0], candidates[j]))
    requires forall p :: p in options <==> OneOf(remaining[0], candidates[j], p) && HasGames(c, home, away, p)
    requires OptionsSorted(c, home, away, options)
    ensures GreedyPair(c, home, away, remaining, options[0])
  {
    var first, second, p := remaining[0], candidates[j], options[0];
    assert p in options && second in candidates;
    RestTeams(remaining, second);
    forall s | s in remaining[1..] && Before(c, first, s, second) ensures Barred(c, home, away, first, s) {
      var k :| 0 <= k < |candidates| && candidates[k] == s;
      assert k < j;
    }
    var q := Pair(p.away, p.home);
    if Allowed(c, home, away, q) {
      assert q in options;
      var k :| 0 <= k < |options| && options[k] == q;
      assert k > 0 ==> !Preferred(c, home, away, options[k], options[0]);
    }
  }

  /** Whatever greedy draw completes the rest completes a greedy draw of all. */
  ghost predicate SteadyLeads(c: Config, home: Counts, away: Counts, homeCounts: Counts, awayCounts: Counts,
                              order: seq<int>, remaining: seq<int>, pairs: seq<Pair>)
  {
    forall tail {:trigger Steady(c, homeCounts, awayCounts, remaining, tail)} ::
      Steady(c, homeCounts, awayCounts, remaining, tail) ==> Steady(c, home, away, order, pairs + tail)
  }

  lemma SteadyOn(c: Config, home: Counts, away: Counts, homeCounts: Counts, awayCounts: Counts,
                 order: seq<int>, remaining: seq<int>, pairs: seq<Pair>, p: Pair)
    requires SteadyLeads(c, home, away, homeCounts, awayCounts, order, remaining, pairs)
    requires |remaining| > 0 && GreedyPair(c, homeCounts, awayCounts, remaining, p)
    ensures SteadyLeads(c, home, away, Add(homeCounts, p.home, 1), Add(awayCounts, p.away, 1), order,
      Leave(remaining, remaining[0], Partner(remaining[0], p)), pairs + [p])
  {
    var home', away' := Add(homeCounts, p.home, 1), Add(awayCounts, p.away, 1);
    var rest := Leave(remaining, remaining[0], Partner(remaining[0], p));
    forall tail: seq<Pair> | Steady(c, home', away', rest, tail)
      ensures Steady(c, home, away, order, pairs + [p] + tail)
    {
      var longer := [p] + tail;
      assert longer[0] == p && longer[1..] == tail;
      assert Steady(c, homeCounts, awayCounts, remaining, longer);
      assert pairs + [p] + tail == pairs + longer;
    }
  }

  lemma SteadyFromTheStart(c: Config, home: Counts, away: Counts, order: seq<int>)
    ensures SteadyLeads(c, home, away, home, away, order, order, [])
  {
    forall tail: seq<Pair> | Steady(c, home, away, order, tail) ensures Steady(c, home, away, order, [] + tail) {
      assert [] + tail == tail;
    }
  }

  lemma SteadyToTheEnd(c: Config, home: Counts, away: Counts, homeCounts: Counts, awayCounts: Counts,
                       order: seq<int>, pairs: seq<Pair>)
    requires SteadyLeads(c, home, away, homeCounts, awayCounts, order, [], pairs)
    ensures Steady(c, home, away, order, pairs)
  {
    assert Steady(c, homeCounts, awayCounts, [], []);
    assert pairs + [] == pairs;
  }

  method Greedy(c: Config, order: seq<int>, home: Counts, away: Counts, budget: PairingBudget)
    returns (found: Option<seq<Pair>>)
    requires NoRepeats(order)
    modifies budget
    ensures found.Some? ==> IsDraw(c, home, away, Teams(order), found.value)
    ensures found.Some? ==> Steady(c, home, away, order, found.value)
    ensures old(budget.evaluations) <= budget.evaluations
    ensures budget.evaluations <= old(budget.evaluations) || budget.evaluations <= budget.totalLimit
  {
    var remaining, pairs, homeCounts, awayCounts := order, [], home, away;
    LeadsFromTheStart(Teams(order));
    SteadyFromTheStart(c, home, away, order);
    while |remaining| > 0
      invariant Underway(c, home, away, homeCounts, awayCounts, order, remaining, pairs)
      invariant SteadyLeads(c, home, away, homeCounts, awayCounts, order, remaining, pairs)
      invariant old(budget.evaluations) <= budget.evaluations
      invariant budget.evaluations <= old(budget.evaluations) || budget.evaluations <= budget.totalLimit
      decreases |remaining|
    {
      if |remaining| == 1 {
        return None;
      }
      var first := remaining[0];
      var chosen := Choose(c, remaining, homeCounts, awayCounts, budget);
      if chosen.None? {
        return None;
      }
      var p := chosen.value;
      var second := Partner(first, p);
      SteadyOn(c, home, away, homeCounts, awayCounts, order, remaining, pairs, p);
      TurnKeeps(c, home, away, homeCounts, awayCounts, order, remaining, pairs, p, second);
      OthersOf(remaining, second);
      homeCounts := Add(homeCounts, p.home, 1);
      awayCounts := Add(awayCounts, p.away, 1);
      pairs := pairs + [p];
      remaining := Leave(remaining, first, second);
    }
    assert Teams(remaining) == {};
    LeadsToTheEnd(pairs, Teams(order));
    SteadyToTheEnd(c, home, away, homeCounts, awayCounts, order, pairs);
    return Some(pairs);
  }

  // ---------------------------------------------------------------- the draw

  datatype Draw =
    | Drawn(pairs: seq<Pair>, bye: Option<int>)
    | NoValidPairing
    | BudgetExhausted
    | Refused

  /** With an odd number of teams one of them sits the round out. */
  predicate IsFullDraw(c: Config, home: Counts, away: Counts, teams: seq<int>, pairs: seq<Pair>, bye: Option<int>) {
    if |teams| % 2 == 1 then
      bye.Some? && bye.value in teams && IsDraw(c, home, away, Teams(teams) - {bye.value}, pairs)
    else bye.None? && IsDraw(c, home, away, Teams(teams), pairs)
  }

  ghost predicate Possible(c: Config, home: Counts, away: Counts, teams: seq<int>) {
    if |teams| % 2 == 1 then exists b :: b in teams && Drawable(c, home, away, Teams(teams) - {b})
    else Drawable(c, home, away, Teams(teams))
  }

  /** The bye goes to the candidate at `k`, and with none of those before it can the others be drawn. */
  ghost predicate FirstBye(c: Config, home: Counts, away: Counts, ordered: seq<int>, byeCandidates: seq<int>,
                           bye: int, k: nat)
  {
    && k < |byeCandidates| && bye == byeCandidates[k]
    && forall j :: 0 <= j < k ==> !Drawable(c, home, away, Teams(ordered) - {byeCandidates[j]})
  }

  /** Who plays when somebody sits out, in order. */
  function Playing(ordered: seq<int>, bye: Option<int>): seq<int> {
    if bye.None? then ordered else Leave(ordered, bye.value, bye.value)
  }

  lemma LeaveOne(ordered: seq<int>, b: int)
    requires NoRepeats(ordered)
    ensures NoRepeats(Leave(ordered, b, b)) && Teams(Leave(ordered, b, b)) == Teams(ordered) - {b}
  {
    LeaveExactly(ordered, b, b);
    var rest, others := Leave(ordered, b, b), Teams(ordered) - {b};
    forall t ensures t in Teams(rest) <==> t in others {
      assert t in rest <==> t in ordered && t != b;
    }
  }

  lemma NobodyCanSitOut(c: Config, home: Counts, away: Counts, ordered: seq<int>, byeCandidates: seq<int>)
    requires |ordered| % 2 == 1 && Teams(byeCandidates) == Teams(ordered)
    requires forall j :: 0 <= j < |byeCandidates| ==> !Drawable(c, home, away, Teams(ordered) - {byeCandidates[j]})
    ensures !Possible(c, home, away, ordered)
  {
    forall b | b in ordered ensures !Drawable(c, home, away, Teams(ordered) - {b}) {
      assert b in Teams(byeCandidates);
      var j :| 0 <= j < |byeCandidates| && byeCandidates[j] == b;
    }
  }

  /** The search, over the bye candidates if somebody has to sit out. */
  method Search(c: Config, ordered: seq<int>, byeCandidates: seq<int>, home: Counts, away: Counts,
                budget: PairingBudget)
    returns (r: Outcome, bye: Option<int>, ghost tried: nat)
    requires NoRepeats(ordered) && Teams(byeCandidates) == Teams(ordered)
    modifies budget
    ensures r.Found? ==> IsFullDraw(c, home, away, ordered, r.pairs, bye)
    ensures r.Found? ==> Best(c, home, away, Playing(ordered, bye), r.pairs)
    ensures r.NoPairing? ==> !Possible(c, home, away, ordered)
    ensures r.LimitReached? ==> budget.evaluations >= budget.searchLimit
    ensures old(budget.evaluations) <= budget.evaluations
    ensures budget.evaluations <= old(budget.evaluations) || budget.evaluations <= budget.searchLimit
    ensures r.Found? && bye.Some? ==> FirstBye(c, home, away, ordered, byeCandidates, bye.value, tried)
  {
    bye, tried := None, 0;
    if |ordered| % 2 == 1 {
      for i := 0 to |byeCandidates|
        invariant forall j :: 0 <= j < i ==> !Drawable(c, home, away, Teams(ordered) - {byeCandidates[j]})
        invariant old(budget.evaluations) <= budget.evaluations
        invariant budget.evaluations <= old(budget.evaluations) || budget.evaluations <= budget.searchLimit
      {
        var b := byeCandidates[i];
        assert b in Teams(byeCandidates);
        LeaveOne(ordered, b);
        var tally := new Tally(home, away);
        r := PairRemaining(c, Leave(ordered, b, b), tally, budget);
        if r.LimitReached? {
          return;
        }
        if r.Found? {
          bye, tried := Some(b), i;
          return;
        }
      }
      NobodyCanSitOut(c, home, away, ordered, byeCandidates);
      r := NoPairing;
    } else {
      var tally := new Tally(home, away);
      r := PairRemaining(c, ordered, tally, budget);
    }
  }

  method Fallback(c: Config, ordered: seq<int>, byeCandidates: seq<int>, home: Counts, away: Counts,
                  budget: PairingBudget)
    returns (found: Option<seq<Pair>>, bye: Option<int>)
    requires NoRepeats(ordered) && Teams(byeCandidates) == Teams(ordered)
    modifies budget
    ensures found.Some? ==> IsFullDraw(c, home, away, ordered, found.value, bye)
    ensures found.Some? ==> Steady(c, home, away, Playing(ordered, bye), found.value)
    ensures old(budget.evaluations) <= budget.evaluations
    ensures budget.evaluations <= old(budget.evaluations) || budget.evaluations <= budget.totalLimit
  {
    found, bye := None, None;
    if |ordered| % 2 == 1 {
      for i := 0 to |byeCandidates|
        invariant found.None?
        invariant old(budget.evaluations) <= budget.evaluations
        invariant budget.evaluations <= old(budget.evaluations) || budget.evaluations <= budget.totalLimit
      {
        var b := byeCandidates[i];
        assert b in Teams(byeCandidates);
        LeaveOne(ordered, b);
        found := Greedy(c, Leave(ordered, b, b), home, away, budget);
        if found.Some? {
          bye := Some(b);
          return;
        }
        if budget.evaluations >= budget.totalLimit {
          break;
        }
      }
    } else {
      found := Greedy(c, ordered, home, away, budget);
    }
  }

  lemma {:induction false} DifferentExactly(s: seq<int>)
    ensures NoRepeats(s) <==> forall x :: multiset(s)[x] <= 1
  {
    if |s| > 0 {
      var n := |s| - 1;
      DifferentExactly(s[..n]);
      assert s == s[..n] + [s[n]];
      assert multiset(s) == multiset(s[..n]) + multiset{s[n]};
      assert forall x :: multiset(s)[x] >= multiset(s[..n])[x];
      if NoRepeats(s) {
        assert s[n] !in s[..n] && s[n] !in multiset(s[..n]);
      } else if NoRepeats(s[..n]) {
        var i :| 0 <= i < n && s[i] == s[n];
        assert s[i] in multiset(s[..n]);
        assert multiset(s)[s[n]] >= 2;
      }
    }
  }

  lemma SameTeams(a: seq<int>, b: seq<int>)
    requires multiset(a) == multiset(b) && NoRepeats(a)
    ensures NoRepeats(b) && Teams(a) == Teams(b)
  {
    DifferentExactly(a);
    DifferentExactly(b);
    forall t ensures t in a <==> t in b {
      assert t in a <==> t in multiset(a);
      assert t in b <==> t in multiset(b);
    }
  }

  /** `ordered` and `byeCandidates` are the teams sorted by the standings and by the right to a bye. */
  method BuildSwissPairings(c: Config, teams: seq<int>, ordered: seq<int>, byeCandidates: seq<int>,
                            home: Counts, away: Counts, seed: int, roundNumber: int, budget: PairingBudget)
    returns (r: Draw)
    requires multiset(ordered) == multiset(teams) == multiset(byeCandidates)
    modifies budget
    ensures r.Refused? <==> |teams| < 2 || !NoRepeats(teams) || seed < 0 || roundNumber < 1
    ensures r.Drawn? ==> IsFullDraw(c, home, away, ordered, r.pairs, r.bye)
    ensures r.Drawn? ==> Possible(c, home, away, ordered)
    ensures r.Drawn? && budget.evaluations < budget.searchLimit ==>
      Best(c, home, away, Playing(ordered, r.bye), r.pairs)
    ensures r.Drawn? ==> (Best(c, home, away, Playing(ordered, r.bye), r.pairs)
                          || Steady(c, home, away, Playing(ordered, r.bye), r.pairs))
    ensures r.NoValidPairing? ==> !Possible(c, home, away, ordered)
    ensures r.BudgetExhausted? ==> budget.evaluations >= budget.searchLimit
    ensures r.Drawn? && r.bye.Some? && budget.evaluations < budget.searchLimit ==>
      exists k :: FirstBye(c, home, away, ordered, byeCandidates, r.bye.value, k)
    ensures old(budget.evaluations) <= budget.evaluations
    ensures budget.evaluations <= old(budget.evaluations) || budget.evaluations <= budget.searchLimit
      || budget.evaluations <= budget.totalLimit
  {
    if |teams| < 2 || Repeats(teams) || seed < 0 || roundNumber < 1 {
      return Refused;
    }
    SameTeams(teams, ordered);
    SameTeams(teams, byeCandidates);
    var s, bye, tried := Search(c, ordered, byeCandidates, home, away, budget);
    if !s.LimitReached? {
      if s.NoPairing? {
        return NoValidPairing;
      }
      return Drawn(s.pairs, bye);
    }
    var found, fallbackBye := Fallback(c, ordered, byeCandidates, home, away, budget);
    if found.None? {
      return BudgetExhausted;
    }
    return Drawn(found.value, fallbackBye);
  }
}
