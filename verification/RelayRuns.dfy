/** Runs of the relay against a stream that others change between its awaits: where its position stands in
    the log of everything ever appended, and where its attempts do. */
module RelayRuns {
  import opened Wrappers
  import opened Envelope
  import opened Relay
  import opened RelayReads
  import opened RelayStream

  /** What happens around one cycle: the stream as each await finds it, and which awaits fail. */
  datatype Round = Round(
    runId: Option<RunId>,
    atFirst: World, atLast: World, atRead: World, atEnd: World,
    tailFails: bool, firstFails: bool, lastFails: bool, readFails: bool, emits: nat)

  /** The relay and its history: `start` is the length of the log when the relay started, `mark` how
      much of the log its position stands for, `covered` how long the log was at the last RESYNC. */
  datatype Sys = Sys(world: World, memory: Memory, start: nat, mark: nat, covered: nat, attempts: seq<Attempt>)

  ghost predicate Possible(s: Sys, r: Round) {
    Evolves(s.world, r.atFirst) && Evolves(r.atFirst, r.atLast) &&
    Evolves(r.atLast, r.atRead) && Evolves(r.atRead, r.atEnd)
  }

  function Reads<T>(fails: bool, value: T): Reply<T> {
    if fails then Fault else Got(value)
  }

  function ReadPosition(s: Sys, r: Round): Option<StreamId> {
    if s.memory.started then s.memory.position else Tail(r.atFirst)
  }

  function IO(s: Sys, r: Round): Replies {
    Replies(Reads(r.tailFails, Tail(r.atFirst)), Reads(r.firstFails, First(r.atFirst)),
            Reads(r.lastFails, Tail(r.atLast)), Reads(r.readFails, Read(r.atRead, ReadPosition(s, r))), r.emits)
  }

  function Out(s: Sys, r: Round): Outcome {
    Cycle(s.memory, r.runId, IO(s, r))
  }

  /** How much of the log a position stands for. */
  ghost function MarkOf(log: seq<Entry>, position: Option<StreamId>, otherwise: nat): nat {
    if i :| 0 <= i < |log| && position == Some(log[i].id) then i + 1 else otherwise
  }

  /** The part of the log that the position stands for when this cycle reads. */
  function Base(s: Sys, r: Round): nat {
    if s.memory.started then s.mark else TailMark(r.atFirst)
  }

  ghost function Step(s: Sys, r: Round): Sys {
    After(s, r, Out(s, r))
  }

  /** The stream as a RESYNC finds its end. */
  function Found(s: Sys, r: Round): World {
    if NewRun(s.memory, r.runId) then r.atFirst else r.atLast
  }

  ghost function After(s: Sys, r: Round, out: Outcome): Sys {
    if !out.memory.started then Sys(r.atEnd, out.memory, 0, 0, 0, [])
    else
      var start := if s.memory.started then s.start else |r.atFirst.log|;
      if out.resync.Some? then
        Sys(r.atEnd, out.memory, start, TailMark(Found(s, r)), |Found(s, r).log|, s.attempts)
      else
        Sys(r.atEnd, out.memory, start, MarkOf(r.atRead.log, out.memory.position, Base(s, r)),
            s.covered, s.attempts + out.attempts)
  }

  // ---------------------------------------------------------------- what every cycle keeps

  /** The part of the log that was read or announced. */
  function Seen(mark: nat, covered: nat): nat {
    if mark < covered then covered else mark
  }

  /** Successful attempts are in the seen part; a failed one may be at the edge: the first entry after the
      position that is still retained. */
  ghost predicate Reaches(a: Attempt, log: seq<Entry>, seen: nat, edge: nat) {
    if a.ok then 0 < seen <= |log| && !a.id.Gt(log[seen - 1].id)
    else (0 < edge <= |log| && !a.id.Gt(log[edge - 1].id)) || (edge < |log| && a.id == log[edge].id)
  }

  ghost predicate AllReach(attempts: seq<Attempt>, w: World, seen: nat, mark: nat) {
    mark <= |w.log| && forall a :: a in attempts ==> Reaches(a, w.log, seen, Edge(w, mark))
  }

  /** Attempts go forward; the same entry comes again only after its own emission failed. */
  ghost predicate Forward(attempts: seq<Attempt>) {
    forall i, j :: 0 <= i < j < |attempts| ==>
      attempts[j].id.Gt(attempts[i].id) || (attempts[j].id == attempts[i].id && !attempts[i].ok)
  }

  ghost predicate Placed(s: Sys) {
    && Valid(s.world) && s.mark <= |s.world.log| && s.covered <= |s.world.log| && s.start <= |s.world.log|
    && AllGone(s.world, s.mark, s.covered)
    && if s.memory.started then Names(s.memory.position, s.mark, s.world)
       else s.memory.position.None? && s.mark == 0 && s.covered == 0 && s.attempts == []
  }

  ghost predicate Tracks(s: Sys) {
    Placed(s) && Forward(s.attempts) && AllReach(s.attempts, s.world, Seen(s.mark, s.covered), s.mark)
  }

  /** The cycle gets as far as reading the stream. */
  predicate Delivering(s: Sys, r: Round) {
    Out(s, r).memory.started && Out(s, r).resync.None? && !r.readFails &&
    (if s.memory.started then !NewRun(s.memory, r.runId) && !r.firstFails && !r.lastFails else !r.tailFails)
  }

  lemma LogGrows(s: Sys, r: Round)
    requires Possible(s, r)
    ensures s.world.log <= r.atFirst.log <= r.atLast.log <= r.atRead.log <= r.atEnd.log
    ensures s.world.gone <= r.atFirst.gone <= r.atLast.gone <= r.atRead.gone <= r.atEnd.gone
  {
  }

  lemma BaseOfRead(s: Sys, r: Round)
    requires Placed(s) && Possible(s, r)
    ensures Names(ReadPosition(s, r), Base(s, r), r.atRead) && Evolves(s.world, r.atRead)
  {
    LogGrows(s, r);
    if s.memory.started {
      NamesLater(s.memory.position, s.mark, s.world, r.atRead);
    } else {
      TailNames(r.atFirst);
      NamesLater(Tail(r.atFirst), TailMark(r.atFirst), r.atFirst, r.atRead);
    }
  }

  /** What this round finds to read. */
  function Retained(s: Sys, r: Round): seq<Entry> {
    Kept(r.atRead, Base(s, r))
  }

  /** How many entries a read of `all` gets through. */
  function Through(all: seq<Entry>, emits: nat): (n: nat)
    ensures n <= ReadSize(all)
  {
    Upto(all, 0, ReadSize(all), emits)
  }

  function BatchOf(position: Option<StreamId>, all: seq<Entry>, emits: nat): Batch {
    Deliver(position, all[0..ReadSize(all)], emits)
  }

  lemma MarkIsIndex(log: seq<Entry>, k: nat, otherwise: nat)
    requires Sorted(log) && 0 < k <= |log|
    ensures MarkOf(log, Some(log[k - 1].id), otherwise) == k
  {
    var position := Some(log[k - 1].id);
    assert position == Some(log[k - 1].id);
  }

  lemma MarkOfNamed(position: Option<StreamId>, mark: nat, w: World)
    requires Valid(w) && Names(position, mark, w)
    ensures MarkOf(w.log, position, mark) == mark
  {
    if position.Some? {
      MarkIsIndex(w.log, mark, mark);
    }
  }

  lemma PositionOfMoves(b: Batch, w: World, base: nat, n: nat, position: Option<StreamId>)
    requires base <= |w.log| && n <= ReadSize(Kept(w, base))
    requires Moves(b, Kept(w, base), 0, ReadSize(Kept(w, base)), n, position)
    ensures var mark := Past(w, base, n);
      b.position == (if mark > base then Some(w.log[mark - 1].id) else position)
  {
    PastIsLast(w, base, n);
  }

  lemma PositionAfterRead(w: World, position: Option<StreamId>, base: nat, emits: nat)
    requires Valid(w) && Names(position, base, w)
    ensures var all := Kept(w, base);
      var mark := Past(w, base, Through(all, emits));
      BatchOf(position, all, emits).position == (if mark > base then Some(w.log[mark - 1].id) else position)
  {
    ReadIsKept(w, position, base);
    DeliverMoves(Kept(w, base), 0, ReadSize(Kept(w, base)), position, emits);
    PositionOfMoves(BatchOf(position, Kept(w, base), emits), w, base, Through(Kept(w, base), emits), position);
  }

  /** A read moves the mark past the entries it got through. */
  lemma ReadMoves(w: World, position: Option<StreamId>, base: nat, emits: nat)
    requires Valid(w) && Names(position, base, w)
    ensures var all := Kept(w, base);
      var moved, mark := BatchOf(position, all, emits).position, Past(w, base, Through(all, emits));
      MarkOf(w.log, moved, base) == mark && Names(moved, mark, w)
  {
    PositionAfterRead(w, position, base, emits);
    var mark := Past(w, base, Through(Kept(w, base), emits));
    if mark > base {
      MarkIsIndex(w.log, mark, base);
    } else {
      MarkOfNamed(position, base, w);
    }
  }

  lemma OutOfDelivering(s: Sys, r: Round)
    requires Delivering(s, r)
    ensures var b := Deliver(ReadPosition(s, r), Read(r.atRead, ReadPosition(s, r)), r.emits);
      Out(s, r).memory.position == b.position && Out(s, r).attempts == b.attempts && Out(s, r).raised == b.raised
  {
  }

  /** What a cycle that reads does to the position, the mark and the attempts. */
  lemma DeliveringStep(s: Sys, r: Round)
    requires Placed(s) && Possible(s, r) && Delivering(s, r)
    ensures Base(s, r) <= |r.atRead.log|
    ensures var all := Retained(s, r);
      && Step(s, r).mark == Past(r.atRead, Base(s, r), Through(all, r.emits)) >= Base(s, r)
      && Names(Step(s, r).memory.position, Step(s, r).mark, r.atRead)
      && Step(s, r).attempts == s.attempts + BatchOf(ReadPosition(s, r), all, r.emits).attempts
      && Step(s, r).covered == s.covered
  {
    BaseOfRead(s, r);
    ReadIsKept(r.atRead, ReadPosition(s, r), Base(s, r));
    assert Retained(s, r)[..ReadSize(Retained(s, r))] == Retained(s, r)[0..ReadSize(Retained(s, r))];
    OutOfDelivering(s, r);
    ReadMoves(r.atRead, ReadPosition(s, r), Base(s, r), r.emits);
  }

  /** A cycle that neither reads nor announces anything keeps its position, or takes its first one. */
  lemma IdleCycle(memory: Memory, runId: Option<RunId>, io: Replies)
    requires Cycle(memory, runId, io).resync.None?
    requires io.read.Fault? || (if memory.started then NewRun(memory, runId) || io.first.Fault? || io.last.Fault?
                                else io.tail.Fault?)
    ensures var out := Cycle(memory, runId, io);
      && out.attempts == []
      && (memory.started ==> out.memory.started && out.memory.position == memory.position)
      && (!memory.started && out.memory.started ==> io.tail.Got? && out.memory.position == io.tail.value)
      && (!out.memory.started ==> out.memory.position == memory.position)
  {
  }

  lemma ResyncCycle(memory: Memory, runId: Option<RunId>, io: Replies)
    requires Cycle(memory, runId, io).resync.Some?
    ensures var out := Cycle(memory, runId, io);
      && memory.started && out.memory.started && out.attempts == []
      && (if NewRun(memory, runId) then io.tail.Got? && out.memory.position == io.tail.value
          else io.last.Got? && out.memory.position == io.last.value)
  {
  }

  /** What the other cycles do: nothing but a first position, or a RESYNC. */
  lemma IdleStep(s: Sys, r: Round)
    requires Placed(s) && Possible(s, r) && !Delivering(s, r) && Out(s, r).resync.None?
    ensures Step(s, r).attempts == s.attempts && Step(s, r).covered == s.covered
    ensures if Step(s, r).memory.started
            then Step(s, r).mark == Base(s, r) && Names(Step(s, r).memory.position, Base(s, r), r.atRead)
            else Step(s, r).memory.position.None? && Step(s, r).mark == Step(s, r).start == 0
  {
    IdleCycle(s.memory, r.runId, IO(s, r));
    IdleAfter(s, r, Out(s, r));
  }

  lemma IdleAfter(s: Sys, r: Round, out: Outcome)
    requires Placed(s) && Possible(s, r) && out.resync.None? && out.attempts == []
    requires s.memory.started ==> out.memory.started && out.memory.position == s.memory.position
    requires !s.memory.started && out.memory.started ==> out.memory.position == Tail(r.atFirst)
    ensures After(s, r, out).attempts == s.attempts && After(s, r, out).covered == s.covered
    ensures After(s, r, out).memory.started ==>
              After(s, r, out).mark == Base(s, r) && Names(After(s, r, out).memory.position, Base(s, r), r.atRead)
  {
    BaseOfRead(s, r);
    MarkOfNamed(ReadPosition(s, r), Base(s, r), r.atRead);
    assert s.attempts + [] == s.attempts;
  }

  // ---------------------------------------------------------------- where the attempts are

  lemma ReachesLater(a: Attempt, log: seq<Entry>, seen: nat, edge: nat, log': seq<Entry>, seen': nat, edge': nat)
    requires Sorted(log') && log <= log' && seen <= seen' <= |log'| && edge <= edge' <= |log'|
    requires Reaches(a, log, seen, edge)
    ensures Reaches(a, log', seen', edge')
  {
    if 0 < seen <= |log| { assert log[seen - 1] == log'[seen - 1]; }
    if 0 < edge <= |log| { assert log[edge - 1] == log'[edge - 1]; }
    if edge < |log| { assert log[edge] == log'[edge]; }
  }

  lemma AllReachLater(attempts: seq<Attempt>, w: World, seen: nat, mark: nat, w': World, seen': nat, mark': nat)
    requires Evolves(w, w') && mark' <= |w'.log| && seen <= seen' <= |w'.log|
    requires AllReach(attempts, w, seen, mark) && Edge(w, mark) <= Edge(w', mark')
    ensures AllReach(attempts, w', seen', mark')
  {
    forall a | a in attempts ensures Reaches(a, w'.log, seen', Edge(w', mark')) {
      ReachesLater(a, w.log, seen, Edge(w, mark), w'.log, seen', Edge(w', mark'));
    }
  }

  /** Where the seen part ends, nothing is retained before the edge. */
  lemma SeenBeforeEdge(w: World, mark: nat, covered: nat)
    requires mark <= |w.log| && covered <= |w.log| && AllGone(w, mark, covered)
    ensures Seen(mark, covered) <= Edge(w, mark)
  {
  }

  lemma ForwardExtends(before: seq<Attempt>, later: seq<Attempt>, w: World, seen: nat, mark: nat, all: seq<Entry>,
                       n: nat)
    requires Valid(w) && mark <= |w.log| && seen <= Edge(w, mark) && n <= ReadSize(all)
    requires Forward(before) && AllReach(before, w, seen, mark)
    requires Climbing(later) && AllLie(later, all, 0, ReadSize(all), n)
    requires |all| > 0 ==> Edge(w, mark) < |w.log| && all[0] == w.log[Edge(w, mark)]
    ensures Forward(before + later)
  {
    var both := before + later;
    forall i, j | 0 <= i < j < |both|
      ensures both[j].id.Gt(both[i].id) || (both[j].id == both[i].id && !both[i].ok)
    {
      if i < |before| <= j {
        assert both[i] in before && both[j] == later[j - |before|];
        assert Reaches(both[i], w.log, seen, Edge(w, mark));
        assert Lies(later[j - |before|], all, 0, ReadSize(all), n);
      }
    }
  }

  lemma ReachesOfRead(a: Attempt, w: World, base: nat, all: seq<Entry>, n: nat, seen: nat)
    requires Valid(w) && base <= |w.log| && all == Kept(w, base) && n <= ReadSize(all)
    requires Past(w, base, n) <= seen <= |w.log| && Lies(a, all, 0, ReadSize(all), n)
    ensures Reaches(a, w.log, seen, Edge(w, Past(w, base, n)))
  {
    PastIsLast(w, base, n);
    KeptStarts(w, Past(w, base, n));
    if !a.ok {
      assert Kept(w, Past(w, base, n))[0] == all[n];
    }
  }

  /** The attempts of a read come after all the earlier ones. */
  lemma HistoryOfRead(before: seq<Attempt>, w: World, seen: nat, base: nat, position: Option<StreamId>, emits: nat)
    requires Valid(w) && Names(position, base, w) && seen <= Edge(w, base)
    requires Forward(before) && AllReach(before, w, seen, base)
    ensures var all := Kept(w, base);
      var both, mark := before + BatchOf(position, all, emits).attempts, Past(w, base, Through(all, emits));
      Forward(both) && AllReach(both, w, Seen(mark, seen), mark)
  {
    var all := Kept(w, base);
    var later, n := BatchOf(position, all, emits).attempts, Through(all, emits);
    var mark := Past(w, base, n);
    ReadIsKept(w, position, base);
    DeliverAdvances(all, 0, ReadSize(all), position, emits);
    KeptStarts(w, base);
    ForwardExtends(before, later, w, seen, base, all, n);
    EdgeGrows(w, base, w, mark);
    AllReachLater(before, w, seen, base, w, Seen(mark, seen), mark);
    forall a | a in later ensures Reaches(a, w.log, Seen(mark, seen), Edge(w, mark)) {
      LiesAt(later, a, all, 0, ReadSize(all), n);
      ReachesOfRead(a, w, base, all, n, Seen(mark, seen));
    }
  }

  // ---------------------------------------------------------------- every cycle

  lemma TracksResync(s: Sys, r: Round)
    requires Tracks(s) && Possible(s, r) && Out(s, r).resync.Some?
    ensures Tracks(Step(s, r))
    ensures s.memory.started && Step(s, r).mark <= Step(s, r).covered == |Found(s, r).log|
  {
    ResyncCycle(s.memory, r.runId, IO(s, r));
    LogGrows(s, r);
    var w, s' := Found(s, r), Step(s, r);
    TailNames(w);
    NamesLater(Tail(w), TailMark(w), w, r.atEnd);
    SeenBeforeEdge(s.world, s.mark, s.covered);
    EdgeGrows(w, s'.mark, r.atEnd, s'.mark);
    AllReachLater(s.attempts, s.world, Seen(s.mark, s.covered), s.mark, r.atEnd, Seen(s'.mark, s'.covered), s'.mark);
  }

  /** What the history amounts to when the cycle reads. */
  lemma HistoryAtRead(s: Sys, r: Round)
    requires Tracks(s) && Possible(s, r)
    ensures Base(s, r) <= |r.atRead.log| && Seen(s.mark, s.covered) <= Edge(r.atRead, Base(s, r))
    ensures AllReach(s.attempts, r.atRead, Seen(s.mark, s.covered), Base(s, r))
  {
    BaseOfRead(s, r);
    if s.memory.started {
      SeenBeforeEdge(r.atRead, s.mark, s.covered);
      EdgeGrows(s.world, s.mark, r.atRead, s.mark);
      AllReachLater(s.attempts, s.world, Seen(s.mark, s.covered), s.mark, r.atRead, Seen(s.mark, s.covered), s.mark);
    }
  }

  lemma TracksToTheEnd(s': Sys, w: World)
    requires Evolves(w, s'.world) && Valid(w) && Forward(s'.attempts) && s'.memory.started && s'.mark <= |w.log|
    requires Names(s'.memory.position, s'.mark, w) && s'.covered <= |w.log| && AllGone(w, s'.mark, s'.covered)
    requires s'.start <= |w.log| && AllReach(s'.attempts, w, Seen(s'.mark, s'.covered), s'.mark)
    ensures Tracks(s')
  {
    NamesLater(s'.memory.position, s'.mark, w, s'.world);
    EdgeGrows(w, s'.mark, s'.world, s'.mark);
    AllReachLater(s'.attempts, w, Seen(s'.mark, s'.covered), s'.mark, s'.world, Seen(s'.mark, s'.covered), s'.mark);
  }

  lemma TracksIdle(s: Sys, r: Round)
    requires Tracks(s) && Possible(s, r) && Out(s, r).resync.None? && !Delivering(s, r)
    ensures Tracks(Step(s, r))
  {
    IdleStep(s, r);
    LogGrows(s, r);
    if Step(s, r).memory.started {
      HistoryAtRead(s, r);
      TracksToTheEnd(Step(s, r), r.atRead);
    }
  }

  lemma TracksDelivering(s: Sys, r: Round)
    requires Tracks(s) && Possible(s, r) && Delivering(s, r)
    ensures Tracks(Step(s, r))
  {
    DeliveringStep(s, r);
    LogGrows(s, r);
    HistoryAtRead(s, r);
    BaseOfRead(s, r);
    HistoryOfRead(s.attempts, r.atRead, Seen(s.mark, s.covered), Base(s, r), ReadPosition(s, r), r.emits);
    TracksToTheEnd(Step(s, r), r.atRead);
  }

  /** Every cycle keeps the bookkeeping: the position names the last entry it stands for, and the attempts go
      forward except for repetitions of a failed one. */
  lemma TracksKept(s: Sys, r: Round)
    requires Tracks(s) && Possible(s, r)
    ensures Tracks(Step(s, r))
    ensures Step(s, r).world == r.atEnd
  {
    if Out(s, r).resync.Some? {
      TracksResync(s, r);
    } else if Delivering(s, r) {
      TracksDelivering(s, r);
    } else {
      TracksIdle(s, r);
    }
  }

  // ---------------------------------------------------------------- whole runs

  ghost predicate Initial(s: Sys) {
    Valid(s.world) && s.memory == FRESH && s.start == s.mark == s.covered == 0 && s.attempts == []
  }

  ghost predicate Feasible(s: Sys, rounds: seq<Round>)
    decreases |rounds|
  {
    |rounds| == 0 || (Possible(s, rounds[0]) && Feasible(Step(s, rounds[0]), rounds[1..]))
  }

  ghost function RunFrom(s: Sys, rounds: seq<Round>): Sys
    decreases |rounds|
  {
    if |rounds| == 0 then s else RunFrom(Step(s, rounds[0]), rounds[1..])
  }

  lemma {:induction false} RunTracks(s: Sys, rounds: seq<Round>)
    requires Tracks(s) && Feasible(s, rounds)
    ensures Tracks(RunFrom(s, rounds))
    decreases |rounds|
  {
    if |rounds| > 0 {
      TracksKept(s, rounds[0]);
      RunTracks(Step(s, rounds[0]), rounds[1..]);
    }
  }

  /** In every run, even with failures anywhere, the attempted identifiers go forward; an identifier is
      attempted again only when its earlier attempt failed. */
  lemma AttemptsGoForward(s: Sys, rounds: seq<Round>)
    requires Initial(s) && Feasible(s, rounds)
    ensures Forward(RunFrom(s, rounds).attempts)
  {
    RunTracks(s, rounds);
  }

  /** A read can only attempt again what had failed at the edge, and that is the first entry it finds. */
  lemma RepeatAtRead(before: seq<Attempt>, a: Attempt, b: Attempt, w: World, seen: nat, base: nat,
                     position: Option<StreamId>, emits: nat)
    requires Valid(w) && Names(position, base, w) && seen <= Edge(w, base) && AllReach(before, w, seen, base)
    requires a in before && b in BatchOf(position, Kept(w, base), emits).attempts && a.id == b.id
    ensures !a.ok && |Kept(w, base)| > 0 && a.id == Kept(w, base)[0].id
  {
    var all := Kept(w, base);
    ReadIsKept(w, position, base);
    DeliverAdvances(all, 0, ReadSize(all), position, emits);
    LiesAt(BatchOf(position, all, emits).attempts, b, all, 0, ReadSize(all), Through(all, emits));
    KeptStarts(w, base);
    assert Reaches(a, w.log, seen, Edge(w, base));
  }

  lemma AttemptingDelivers(s: Sys, r: Round)
    requires Placed(s) && Possible(s, r) && Out(s, r).attempts != []
    ensures Delivering(s, r) && Out(s, r).attempts == BatchOf(ReadPosition(s, r), Retained(s, r), r.emits).attempts
  {
    if Out(s, r).resync.Some? {
      ResyncCycle(s.memory, r.runId, IO(s, r));
    } else if !Delivering(s, r) {
      IdleCycle(s.memory, r.runId, IO(s, r));
    }
    BaseOfRead(s, r);
    ReadIsKept(r.atRead, ReadPosition(s, r), Base(s, r));
    assert Retained(s, r)[..ReadSize(Retained(s, r))] == Retained(s, r)[0..ReadSize(Retained(s, r))];
    OutOfDelivering(s, r);
  }

  /** The first attempt of a cycle that reads is at the first entry it finds. */
  lemma FirstAttempt(s: Sys, r: Round, event: ParsedEvent)
    requires Placed(s) && Possible(s, r) && Delivering(s, r)
    requires |Retained(s, r)| > 0 && ParseEnvelope(Retained(s, r)[0].fields) == Some(event)
    ensures Out(s, r).attempts != [] && Out(s, r).attempts[0] == Try(Retained(s, r)[0].id, event, r.emits)
  {
    var all := Retained(s, r);
    BaseOfRead(s, r);
    ReadIsKept(r.atRead, ReadPosition(s, r), Base(s, r));
    assert all[..ReadSize(all)] == all[0..ReadSize(all)];
    OutOfDelivering(s, r);
    if r.emits < Cost(all[0]) {
      HeadStops(all, 0, ReadSize(all), ReadPosition(s, r), r.emits);
    } else {
      HeadGoesOn(all, 0, ReadSize(all), ReadPosition(s, r), r.emits);
    }
  }

  /** What the next cycle attempts again is the entry right after the position, whose attempt had failed. */
  lemma OnlyTheNextRepeats(s: Sys, rounds: seq<Round>, next: Round, a: Attempt, b: Attempt)
    requires Initial(s) && Feasible(s, rounds) && Possible(RunFrom(s, rounds), next)
    requires a in RunFrom(s, rounds).attempts && b in Out(RunFrom(s, rounds), next).attempts && a.id == b.id
    ensures var end := RunFrom(s, rounds);
      !a.ok && Delivering(end, next) && |Retained(end, next)| > 0 && a.id == Retained(end, next)[0].id
  {
    var end := RunFrom(s, rounds);
    RunTracks(s, rounds);
    AttemptingDelivers(end, next);
    BaseOfRead(end, next);
    HistoryAtRead(end, next);
    RepeatAtRead(end.attempts, a, b, next.atRead, Seen(end.mark, end.covered), Base(end, next),
      ReadPosition(end, next), next.emits);
  }
}
