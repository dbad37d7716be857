/** Runs, from the start of the relay, in which an entry is lost silently, or sent twice. */
module RelayWitnesses {
  import opened Wrappers
  import opened Envelope
  import opened Relay
  import opened RelayReads
  import opened RelayStream
  import opened RelayRuns
  import opened RelayGaps

  /** Three entries in order, of which the first two are well-formed. */
  ghost predicate IsSample(log: seq<Entry>) {
    |log| == 3 && Sorted(log) && WellFormed(log[0]) && WellFormed(log[1])
  }

  /** The stream after the first `n` of them, of which some are gone. */
  function Part(log: seq<Entry>, n: nat, gone: set<nat>): World
    requires n <= |log|
  {
    World(log[..n], gone)
  }

  /** A round in which nothing fails and the stream stays as it is. */
  function Quiet(runId: Option<RunId>, w: World): Round {
    Round(runId, w, w, w, w, false, false, false, false, 10)
  }

  function Start(w: World): (s: Sys)
    ensures Valid(w) ==> Initial(s)
  {
    Sys(w, FRESH, 0, 0, 0, [])
  }

  lemma NothingToRead(w: World)
    requires Valid(w)
    ensures Read(w, Tail(w)) == []
  {
    TailNames(w);
    ReadIsKept(w, Tail(w), TailMark(w));
    KeptStarts(w, TailMark(w));
  }

  /** The first cycle takes the end of the stream as its position and reads nothing. */
  lemma QuietStart(w: World, runId: Option<RunId>)
    requires Valid(w)
    ensures Possible(Start(w), Quiet(runId, w))
    ensures Step(Start(w), Quiet(runId, w)) == Sys(w, Memory(Tail(w), runId, true), |w.log|, TailMark(w), 0, [])
  {
    NothingToRead(w);
    TailNames(w);
    MarkOfNamed(Tail(w), TailMark(w), w);
  }

  lemma StartTracks(w: World, runId: Option<RunId>)
    requires Valid(w)
    ensures Tracks(Step(Start(w), Quiet(runId, w)))
  {
    QuietStart(w, runId);
    TracksKept(Start(w), Quiet(runId, w));
  }

  lemma OneRoundBefore(s: Sys, r: Round, rest: seq<Round>)
    requires Possible(s, r) && Feasible(Step(s, r), rest) && SomeCycleLoses(Step(s, r), rest)
    ensures Feasible(s, [r] + rest) && SomeCycleLoses(s, [r] + rest)
  {
    assert ([r] + rest)[1..] == rest;
  }

  /** A cycle that reads behind a lost sample loses it silently. */
  lemma LosesNext(s: Sys, r: Round, later: nat)
    requires Tracks(s) && s.memory.started && Possible(s, r) && Delivering(s, r) && r.emits >= 2
    requires s.mark < later < |r.atRead.log| && s.mark in r.atRead.gone && later !in r.atRead.gone
    requires WellFormed(r.atRead.log[s.mark]) && s.start <= s.mark && s.covered <= s.mark
    ensures LosesSilently(s, r)
  {
    KeptStarts(r.atRead, s.mark);
    BehindTheLostIsEnough(s, r, s.mark);
  }

  lemma RoundOfParts(log: seq<Entry>, s: Sys, r: Round, n: nat, gone: set<nat>, m: nat, missing: set<nat>,
                     lost: set<nat>)
    requires Sorted(log) && n <= m <= |log| && s.world == Part(log, n, gone)
    requires r.atFirst == r.atLast == Part(log, m, missing) && r.atRead == r.atEnd == Part(log, m, lost)
    requires gone <= missing <= lost && forall i :: i in lost ==> i < m
    ensures Possible(s, r)
  {
  }

  lemma StartOfPart(log: seq<Entry>, n: nat, runId: Option<RunId>) returns (started: Sys)
    requires Sorted(log) && n <= |log|
    ensures var w := Part(log, n, {});
      && Initial(Start(w)) && Possible(Start(w), Quiet(runId, w))
      && started == Step(Start(w), Quiet(runId, w)) && Tracks(started)
      && started == Sys(w, Memory(Tail(w), runId, true), n, n, 0, []) && (n > 0 <==> Tail(w).Some?)
  {
    var w := Part(log, n, {});
    QuietStart(w, runId);
    StartTracks(w, runId);
    started := Step(Start(w), Quiet(runId, w));
  }

  /** A relay that starts on an empty stream has no position; two entries arrive, the older one is trimmed, and
      the next cycle, undisturbed, passes it over and says nothing. */
  lemma EmptyStartLosesSilently(log: seq<Entry>) returns (s: Sys, first: Round, second: Round)
    requires IsSample(log)
    ensures Initial(s) && Feasible(s, [first] + [second]) && SomeCycleLoses(s, [first] + [second])
    ensures first.atFirst == first.atLast == first.atRead == first.atEnd == s.world
    ensures second.atFirst == second.atLast == second.atRead == second.atEnd && OnlyTrimmed(second.atRead)
  {
    var started := StartOfPart(log, 0, None);
    s, first, second := Start(Part(log, 0, {})), Quiet(None, Part(log, 0, {})), Quiet(None, Part(log, 2, {0}));
    RoundOfParts(log, started, second, 0, {}, 2, {0}, {0});
    LosesNext(started, second, 1);
    OneRoundBefore(s, first, [second]);
  }

  /** With a position, a trim between the check and the read of one cycle loses an entry silently. */
  lemma TrimInTheWindowLosesSilently(log: seq<Entry>) returns (s: Sys, first: Round, second: Round)
    requires IsSample(log)
    ensures Initial(s) && Feasible(s, [first] + [second]) && SomeCycleLoses(s, [first] + [second])
    ensures OnlyTrimmed(first.atRead) && OnlyTrimmed(second.atRead) && Step(s, first).memory.position.Some?
  {
    var started := StartOfPart(log, 1, None);
    s, first := Start(Part(log, 1, {})), Quiet(None, Part(log, 1, {}));
    second := Quiet(None, Part(log, 3, {})).(atRead := Part(log, 3, {0, 1}), atEnd := Part(log, 3, {0, 1}));
    RoundOfParts(log, started, second, 1, {}, 3, {}, {0, 1});
    assert 0 !in second.atFirst.gone && 0 !in second.atLast.gone;
    ChecksExactly(started, second);
    LosesNext(started, second, 2);
    OneRoundBefore(s, first, [second]);
  }

  /** A cycle that notes a new run id and then fails. */
  lemma ResetForgotten(started: Sys, r: Round)
    requires Tracks(started) && Possible(started, r) && NewRun(started.memory, r.runId) && r.tailFails
    ensures var s' := Step(started, r);
      && Tracks(s') && s'.world == r.atEnd && s'.memory == started.memory.(runId := r.runId)
      && s'.start == started.start && s'.mark == started.mark && s'.covered == started.covered
  {
    IdleStep(started, r);
    TracksKept(started, r);
  }

  /** Redis restarts without its last entry, which the relay had not read; the lookup that follows fails, and
      once a new entry has arrived no check notices the loss. */
  lemma ForgottenTailLossIsSilent(log: seq<Entry>) returns (s: Sys, first: Round, second: Round, third: Round)
    requires IsSample(log)
    ensures var rounds := [first] + ([second] + [third]);
      Initial(s) && Feasible(s, rounds) && SomeCycleLoses(s, rounds)
    ensures NewRun(Step(s, first).memory, second.runId) && second.tailFails
    ensures third == Quiet(second.runId, third.atRead)
  {
    var started := StartOfPart(log, 1, Some("a"));
    s, first := Start(Part(log, 1, {})), Quiet(Some("a"), Part(log, 1, {}));
    second := Quiet(Some("b"), Part(log, 2, {1})).(tailFails := true);
    third := Quiet(Some("b"), Part(log, 3, {1}));
    RoundOfParts(log, started, second, 1, {}, 2, {1}, {1});
    ResetForgotten(started, second);
    var reset := Step(started, second);
    RoundOfParts(log, reset, third, 2, {1}, 3, {1}, {1});
    assert 0 !in third.atFirst.gone && 0 !in third.atLast.gone;
    ChecksExactly(reset, third);
    LosesNext(reset, third, 2);
    OneRoundBefore(started, second, [third]);
    OneRoundBefore(s, first, [second] + [third]);
  }

  /** An entry whose event goes to two rooms. */
  ghost predicate ForTwoRooms(e: Entry, event: ParsedEvent) {
    ParseEnvelope(e.fields) == Some(event) && |Deliveries(event)| == 2
  }

  /** A cycle that reads the second entry of the sample, with some socket emits to spare. */
  lemma ReadsTheSecond(log: seq<Entry>, s: Sys, r: Round, event: ParsedEvent)
    requires IsSample(log) && ForTwoRooms(log[1], event) && s.world.log <= log[..2] && s.world.gone == {}
    requires Tracks(s) && s.mark == 1 && s.memory.started && s.memory.position.Some? && s.memory.runId.None?
    requires r == Quiet(None, Part(log, 2, {})).(emits := r.emits)
    ensures Possible(s, r) && Out(s, r).attempts != []
    ensures Out(s, r).attempts[0] == Try(log[1].id, event, r.emits)
  {
    assert Possible(s, r);
    assert 0 !in r.atFirst.gone;
    ChecksExactly(s, r);
    KeptStarts(r.atRead, 1);
    FirstAttempt(s, r, event);
  }

  /** When the second emit fails, the cycle leaves the position where it was. */
  lemma HalfSent(log: seq<Entry>, s: Sys, r: Round, event: ParsedEvent)
    requires IsSample(log) && ForTwoRooms(log[1], event) && s.world.log <= log[..2] && s.world.gone == {}
    requires Tracks(s) && s.mark == 1 && s.memory.started && s.memory.position.Some? && s.memory.runId.None?
    requires s.attempts == [] && s.start <= 1
    requires r == Quiet(None, Part(log, 2, {})).(emits := 1)
    ensures Possible(s, r)
    ensures var s' := Step(s, r);
      && Tracks(s') && s'.mark == 1 && s'.memory.started && s'.memory.position.Some? && s'.memory.runId.None?
      && s'.world == Part(log, 2, {}) && s'.start <= 1
      && s'.attempts != [] && s'.attempts[0] == Try(log[1].id, event, 1)
  {
    ReadsTheSecond(log, s, r, event);
    AttemptingDelivers(s, r);
    DeliveringStep(s, r);
    KeptStarts(r.atRead, 1);
    assert Through(Retained(s, r), 1) == 0;
    TracksKept(s, r);
    assert 0 !in r.atRead.gone;
  }

  /** An event for two rooms whose second emit fails: the next cycle finds the entry and sends to the organization
      again, and then to the tournament. */
  lemma OrganizationGetsItTwice(log: seq<Entry>, event: ParsedEvent)
    returns (s: Sys, first: Round, second: Round, third: Round)
    requires IsSample(log) && ForTwoRooms(log[1], event)
    ensures Initial(s) && Feasible(s, [first, second, third])
    ensures var half, again := Step(Step(s, first), second).attempts, Out(Step(Step(s, first), second), third).attempts;
      && half != [] && half[0].id == log[1].id && half[0].sent == Deliveries(event)[..1]
      && again != [] && again[0].id == log[1].id && again[0].sent == Deliveries(event)
  {
    var started := StartOfPart(log, 1, None);
    s, first := Start(Part(log, 1, {})), Quiet(None, Part(log, 1, {}));
    second := Quiet(None, Part(log, 2, {})).(emits := 1);
    third := Quiet(None, Part(log, 2, {}));
    HalfSent(log, started, second, event);
    ReadsTheSecond(log, Step(started, second), third, event);
    ThreeRounds(s, first, second, third);
  }

  /** The same event when the stream is trimmed past the entry before the next cycle: that cycle announces a RESYNC
      that covers it, and sends nothing. */
  lemma OrganizationGetsItOnce(log: seq<Entry>, event: ParsedEvent)
    returns (s: Sys, first: Round, second: Round, third: Round)
    requires IsSample(log) && ForTwoRooms(log[1], event)
    ensures Initial(s) && Feasible(s, [first, second, third])
    ensures var half, out := Step(Step(s, first), second).attempts, Out(Step(Step(s, first), second), third);
      && half != [] && half[0].id == log[1].id && half[0].sent == Deliveries(event)[..1]
      && out.resync.Some? && out.attempts == [] && Step(Step(Step(s, first), second), third).covered > 1
  {
    var started := StartOfPart(log, 1, None);
    s, first := Start(Part(log, 1, {})), Quiet(None, Part(log, 1, {}));
    second := Quiet(None, Part(log, 2, {})).(emits := 1);
    third := Quiet(None, Part(log, 3, {0, 1}));
    HalfSent(log, started, second, event);
    var half := Step(started, second);
    RoundOfParts(log, half, third, 2, {}, 3, {0, 1}, {0, 1});
    assert AllGone(third.atFirst, 0, half.mark);
    NothingRaises(half, third);
    AnnouncedExactly(half, third);
    ThreeRounds(s, first, second, third);
  }

  /** A cycle whose checks announce something raises nothing. */
  lemma NothingRaises(s: Sys, r: Round)
    requires Tracks(s) && Possible(s, r) && Checks(s, r) && OutOfReach(s.mark, r.atFirst, r.atLast)
    ensures !Out(s, r).raised
  {
    ChecksExactly(s, r);
  }

  lemma ThreeRounds(s: Sys, first: Round, second: Round, third: Round)
    requires Possible(s, first) && Possible(Step(s, first), second) && Possible(Step(Step(s, first), second), third)
    ensures Feasible(s, [first, second, third])
  {
    assert [first, second, third][1..] == [second, third] && [second, third][1..] == [third];
    assert Feasible(Step(Step(Step(s, first), second), third), [third][1..]);
  }

  lemma SamplesExist() returns (log: seq<Entry>, event: ParsedEvent)
    ensures IsSample(log) && ForTwoRooms(log[1], event)
  {
    var row := Event("e", "o", "MATCH_UPDATED", JObj(map["tournament_id" := JStr("t")]));
    EnvelopeRoundTrip(row);
    event := ParsedEvent(Some("e"), "o", "MATCH_UPDATED", map["tournament_id" := JStr("t")]);
    var fields := StreamFields(row);
    log := [Entry(StreamId(1, 0), fields), Entry(StreamId(2, 0), fields), Entry(StreamId(3, 0), fields)];
  }
}
