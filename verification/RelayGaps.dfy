/** Which entries the relay lets pass without emitting or announcing them, cycle by cycle and over whole runs. */
module RelayGaps {
  import opened Wrappers
  import opened Envelope
  import opened Relay
  import opened RelayReads
  import opened RelayStream
  import opened RelayRuns

  ghost predicate WellFormed(e: Entry) {
    ParseEnvelope(e.fields).Some?
  }

  /** The entry was emitted, or cannot be emitted, or is covered by a RESYNC. */
  ghost predicate Handled(s: Sys, i: nat)
    requires i < |s.world.log|
  {
    Emitted(s.attempts, s.world.log[i].id) || ParseEnvelope(s.world.log[i].fields).None? || i < s.covered
  }

  /** Everything since the start that the position stands for is handled. */
  ghost predicate NoGap(s: Sys) {
    s.mark <= |s.world.log| && forall i :: s.start <= i < s.mark ==> Handled(s, i)
  }

  /** The cycle moves its position past a well-formed entry that was gone when it read, and that no RESYNC
      covers. */
  ghost predicate LosesSilently(s: Sys, r: Round) {
    Delivering(s, r) && LosesBefore(s, r, Step(s, r).mark)
  }

  ghost predicate LosesBefore(s: Sys, r: Round, end: nat) {
    exists i :: Base(s, r) <= i < end && Loses(s, r, i)
  }

  ghost predicate Loses(s: Sys, r: Round, i: nat) {
    && i in r.atRead.gone && i < |r.atRead.log| && WellFormed(r.atRead.log[i])
    && Step(s, r).start <= i && s.covered <= i
  }

  // ---------------------------------------------------------------- one cycle

  lemma HandledStays(s: Sys, s': Sys, i: nat)
    requires i < |s.world.log| && s.world.log <= s'.world.log && Handled(s, i)
    requires s.covered <= s'.covered && s.attempts <= s'.attempts
    ensures Handled(s', i)
  {
    assert s.world.log[i] == s'.world.log[i];
    if Emitted(s.attempts, s.world.log[i].id) {
      assert forall a :: a in s.attempts ==> a in s'.attempts;
    }
  }

  /** Nothing that is gone is among the attempts of a read. */
  lemma GoneIsNotAttempted(w: World, base: nat, position: Option<StreamId>, emits: nat, i: nat, a: Attempt)
    requires Valid(w) && base <= |w.log| && i in w.gone
    requires a in BatchOf(position, Kept(w, base), emits).attempts
    ensures a.id != w.log[i].id
  {
    var all := Kept(w, base);
    DeliverFromLog(position, all[0..ReadSize(all)], emits);
    assert FromLog(a, all[0..ReadSize(all)]);
    var j :| 0 <= j < ReadSize(all) && all[0..ReadSize(all)][j].id == a.id;
    assert all[j] in all;
    var k := KeptIsThere(w, base, all[j]);
    assert k != i;
  }

  lemma LostIsUnhandled(s: Sys, r: Round, i: nat)
    requires Tracks(s) && Possible(s, r) && Delivering(s, r)
    requires Base(s, r) <= i && Loses(s, r, i)
    ensures !Handled(Step(s, r), i)
  {
    var s', w := Step(s, r), r.atRead;
    LogGrows(s, r);
    DeliveringStep(s, r);
    assert w.log[i] == r.atEnd.log[i];
    forall a | a in s'.attempts && a.ok ensures a.id != w.log[i].id {
      if a in s.attempts {
        HistoryAtRead(s, r);
        assert Reaches(a, w.log, Seen(s.mark, s.covered), Edge(w, Base(s, r)));
      } else {
        GoneIsNotAttempted(w, Base(s, r), ReadPosition(s, r), r.emits, i, a);
      }
    }
  }

  lemma ReadIsHandled(s: Sys, r: Round, i: nat)
    requires Tracks(s) && Possible(s, r) && Delivering(s, r)
    requires Base(s, r) <= i < Step(s, r).mark && i !in r.atRead.gone && i < |r.atEnd.log|
    ensures Handled(Step(s, r), i)
  {
    var w, all := r.atRead, Retained(s, r);
    LogGrows(s, r);
    BaseOfRead(s, r);
    DeliveringStep(s, r);
    ReadIsKept(w, ReadPosition(s, r), Base(s, r));
    var j := KeptBefore(w, Base(s, r), Through(all, r.emits), i);
    DeliverSettles(all, 0, ReadSize(all), ReadPosition(s, r), r.emits, j);
    assert w.log[i] == r.atEnd.log[i];
  }

  /** What was handled before the cycle, or before the relay started, needs nothing. */
  lemma EarlierIsHandled(s: Sys, r: Round, i: nat)
    requires Tracks(s) && NoGap(s) && Possible(s, r) && Step(s, r).memory.started
    requires Step(s, r).start <= i < Base(s, r) && s.covered <= Step(s, r).covered && s.attempts <= Step(s, r).attempts
    ensures i < |r.atEnd.log| && Handled(Step(s, r), i)
  {
    LogGrows(s, r);
    if s.memory.started {
      HandledStays(s, Step(s, r), i);
    }
  }

  lemma NoGapDelivering(s: Sys, r: Round)
    requires Tracks(s) && NoGap(s) && Possible(s, r) && Delivering(s, r)
    ensures NoGap(Step(s, r)) <==> !LosesSilently(s, r)
  {
    var s' := Step(s, r);
    TracksKept(s, r);
    DeliveringStep(s, r);
    LogGrows(s, r);
    if LosesSilently(s, r) {
      var i :| Base(s, r) <= i < s'.mark && Loses(s, r, i);
      LostIsUnhandled(s, r, i);
    } else {
      forall i | s'.start <= i < s'.mark ensures Handled(s', i) {
        if i < Base(s, r) {
          EarlierIsHandled(s, r, i);
        } else if i !in r.atRead.gone {
          ReadIsHandled(s, r, i);
        } else {
          assert !Loses(s, r, i) && r.atRead.log[i] == r.atEnd.log[i];
        }
      }
    }
  }

  lemma NoGapOtherwise(s: Sys, r: Round)
    requires Tracks(s) && NoGap(s) && Possible(s, r) && !Delivering(s, r)
    ensures NoGap(Step(s, r))
  {
    var s' := Step(s, r);
    TracksKept(s, r);
    if Out(s, r).resync.Some? {
      TracksResync(s, r);
    } else {
      IdleStep(s, r);
      if s'.memory.started {
        forall i | s'.start <= i < s'.mark ensures Handled(s', i) {
          EarlierIsHandled(s, r, i);
        }
      }
    }
  }

  /** One cycle leaves everything up to its position handled, unless and only unless it loses silently. */
  lemma NoGapExactly(s: Sys, r: Round)
    requires Tracks(s) && NoGap(s) && Possible(s, r)
    ensures NoGap(Step(s, r)) <==> !LosesSilently(s, r)
  {
    if Delivering(s, r) {
      NoGapDelivering(s, r);
    } else {
      NoGapOtherwise(s, r);
    }
  }

  // ---------------------------------------------------------------- what the checks see

  /** The position is not between what the checks find: everything up to it is gone, or everything from it on. */
  ghost predicate OutOfReach(mark: nat, first: World, last: World) {
    AllGone(first, 0, mark) || AllGone(last, mark - 1, |last.log|)
  }

  lemma GapExactly(position: StreamId, mark: nat, first: World, last: World)
    requires Valid(first) && Names(Some(position), mark, first) && Evolves(first, last)
    ensures Gap(position, First(first), Tail(last)).Some? <==> OutOfReach(mark, first, last)
  {
    assert last.log[mark - 1].id == position;
    var edge, tail := Edge(first, 0), LastKept(last, |last.log|);
    assert AllGone(first, 0, mark) <==> edge >= mark;
    assert AllGone(last, mark - 1, |last.log|) <==> tail <= mark - 1;
  }

  /** A running relay announces something exactly when Redis has a new run id or its position is out of reach;
      the RESYNC then covers all that was ever appended. */
  lemma AnnouncedExactly(s: Sys, r: Round)
    requires Tracks(s) && Possible(s, r) && s.memory.started && !Out(s, r).raised
    ensures Out(s, r).resync.Some? <==>
      NewRun(s.memory, r.runId) || (s.memory.position.Some? && OutOfReach(s.mark, r.atFirst, r.atLast))
    ensures Out(s, r).resync.Some? ==> Out(s, r).attempts == [] && |r.atFirst.log| <= Step(s, r).covered
  {
    LogGrows(s, r);
    if s.memory.position.Some? {
      NamesLater(s.memory.position, s.mark, s.world, r.atFirst);
      GapExactly(s.memory.position.value, s.mark, r.atFirst, r.atLast);
    }
    if Out(s, r).resync.Some? {
      TracksResync(s, r);
      ResyncCycle(s.memory, r.runId, IO(s, r));
    }
  }

  /** With a position, what a trim or a wipe took unread is announced by the next cycle that completes,
      whatever run id it sees; the RESYNC covers it. */
  lemma LossDetected(s: Sys, r: Round, i: nat)
    requires Tracks(s) && Possible(s, r) && s.memory.position.Some? && !Out(s, r).raised
    requires s.mark <= i && i in r.atFirst.gone && OnlyTrimmed(r.atFirst)
    ensures Out(s, r).resync.Some? && Out(s, r).attempts == [] && i < Step(s, r).covered
  {
    assert AllGone(r.atFirst, 0, s.mark);
    AnnouncedExactly(s, r);
  }

  /** A failure right after a new run id was noted forgets that RESYNC. A real loss is still announced by the
      next completed cycle exactly when it put the position out of reach. */
  lemma ForgottenResetExactly(s: Sys, r: Round, next: Round)
    requires Tracks(s) && Possible(s, r) && NewRun(s.memory, r.runId) && r.tailFails
    requires Possible(Step(s, r), next) && next.runId == r.runId && !Out(Step(s, r), next).raised
    ensures Out(s, r).raised && Out(s, r).resync.None?
    ensures Out(Step(s, r), next).resync.Some? <==>
      s.memory.position.Some? && OutOfReach(s.mark, next.atFirst, next.atLast)
  {
    TracksKept(s, r);
    IdleStep(s, r);
    AnnouncedExactly(Step(s, r), next);
  }

  // ---------------------------------------------------------------- how a cycle loses silently

  /** The entry after the position is gone at the read, although the check found the position in reach, or
      there was no check. */
  ghost predicate Overtaken(s: Sys, r: Round) {
    Base(s, r) in r.atRead.gone && !(s.memory.started && AllGone(r.atFirst, 0, s.mark))
  }

  /** A silent loss needs a relay without a position, or entries gone from behind a position in reach. When only
      trims and wipes take entries, those must have overtaken the position between the check and the read. */
  lemma SilentLossOnlyIf(s: Sys, r: Round)
    requires Tracks(s) && Possible(s, r) && LosesSilently(s, r)
    ensures s.memory.started ==> s.memory.position.None? || !OutOfReach(s.mark, r.atFirst, r.atLast)
    ensures OnlyTrimmed(r.atRead) ==> (s.memory.started && s.memory.position.None?) || Overtaken(s, r)
  {
    LogGrows(s, r);
    if s.memory.started && s.memory.position.Some? {
      NamesLater(s.memory.position, s.mark, s.world, r.atFirst);
      GapExactly(s.memory.position.value, s.mark, r.atFirst, r.atLast);
    }
    var i :| Base(s, r) <= i < Step(s, r).mark && Loses(s, r, i);
    assert OnlyTrimmed(r.atRead) ==> Base(s, r) == i || Base(s, r) in r.atRead.gone;
  }

  /** Conversely, a read that finds something behind an entry that is gone loses that entry, if it was to be
      emitted at all. */
  lemma BehindTheLostIsEnough(s: Sys, r: Round, i: nat)
    requires Tracks(s) && Possible(s, r) && Delivering(s, r) && r.emits >= 2
    requires i == Base(s, r) && Loses(s, r, i) && |Retained(s, r)| > 0
    ensures LosesSilently(s, r)
  {
    var all := Retained(s, r);
    assert Through(all, r.emits) >= 1;
    DeliveringStep(s, r);
    PastIsLast(r.atRead, i, Through(all, r.emits));
  }

  /** Of a trimmed stream, what is gone before the last of the first entries is gone before the first of them. */
  lemma GoneInFront(w: World, base: nat, n: nat, i: nat)
    requires OnlyTrimmed(w) && base <= |w.log| && n <= |Kept(w, base)| && i in w.gone && i < |w.log|
    ensures base <= i < Past(w, base, n) <==> n > 0 && base <= i < Edge(w, base)
  {
    PastIsLast(w, base, n);
  }

  lemma LosesInFront(s: Sys, r: Round, n: nat)
    requires OnlyTrimmed(r.atRead) && Base(s, r) <= |r.atRead.log| && n <= |Kept(r.atRead, Base(s, r))|
    ensures LosesBefore(s, r, Past(r.atRead, Base(s, r), n)) <==>
      n > 0 && LosesBefore(s, r, Edge(r.atRead, Base(s, r)))
  {
    forall i: nat | i in r.atRead.gone && i < |r.atRead.log|
      ensures Base(s, r) <= i < Past(r.atRead, Base(s, r), n) <==> n > 0 && Base(s, r) <= i < Edge(r.atRead, Base(s, r))
    {
      GoneInFront(r.atRead, Base(s, r), n, i);
    }
  }

  /** While only trims and wipes take entries, a cycle that reads loses silently exactly when it gets past some
      entry, and one that was to be emitted is gone between its position and the first that is retained. */
  lemma TrimLossExactly(s: Sys, r: Round)
    requires Tracks(s) && Possible(s, r) && Delivering(s, r) && OnlyTrimmed(r.atRead)
    ensures Base(s, r) <= |r.atRead.log|
    ensures LosesSilently(s, r) <==>
      Through(Retained(s, r), r.emits) > 0 && LosesBefore(s, r, Edge(r.atRead, Base(s, r)))
  {
    DeliveringStep(s, r);
    LosesInFront(s, r, Through(Retained(s, r), r.emits));
  }

  /** The checks of a cycle that nothing fails and no new run id interrupts. */
  predicate Checks(s: Sys, r: Round) {
    s.memory.started && s.memory.position.Some? && !NewRun(s.memory, r.runId)
    && !r.firstFails && !r.lastFails && !r.readFails
  }

  lemma ChecksExactly(s: Sys, r: Round)
    requires Tracks(s) && Possible(s, r) && Checks(s, r)
    ensures Delivering(s, r) <==> !OutOfReach(s.mark, r.atFirst, r.atLast)
  {
    LogGrows(s, r);
    NamesLater(s.memory.position, s.mark, s.world, r.atFirst);
    GapExactly(s.memory.position.value, s.mark, r.atFirst, r.atLast);
  }

  /** When a fault of Redis loses the next entry to be read and keeps a later one, the checks notice exactly when
      nothing up to the position is left. */
  lemma LossBehindThePositionExactly(s: Sys, r: Round)
    requires Tracks(s) && Possible(s, r) && Checks(s, r) && r.atFirst == r.atLast == r.atRead && r.emits >= 2
    requires Loses(s, r, s.mark) && |Retained(s, r)| > 0
    ensures LosesSilently(s, r) <==> !AllGone(r.atFirst, 0, s.mark)
  {
    ChecksExactly(s, r);
    KeptStarts(r.atRead, s.mark);
    assert !AllGone(r.atLast, s.mark - 1, |r.atLast.log|) by {
      assert Edge(r.atRead, s.mark) !in r.atRead.gone;
    }
    if Delivering(s, r) {
      BehindTheLostIsEnough(s, r, s.mark);
    }
  }

  /** A cycle that only trims and wipes precede and nobody disturbs loses nothing, unless it runs without a
      position. */
  lemma UndisturbedCycleLosesNothing(s: Sys, r: Round)
    requires Tracks(s) && Possible(s, r) && r.atFirst == r.atLast == r.atRead && OnlyTrimmed(r.atRead)
    requires s.memory.started ==> s.memory.position.Some?
    ensures !LosesSilently(s, r)
  {
    if LosesSilently(s, r) {
      SilentLossOnlyIf(s, r);
    }
  }

  // ---------------------------------------------------------------- whole runs

  ghost predicate SomeCycleLoses(s: Sys, rounds: seq<Round>)
    decreases |rounds|
  {
    |rounds| > 0 && (LosesSilently(s, rounds[0]) || SomeCycleLoses(Step(s, rounds[0]), rounds[1..]))
  }

  /** No cycle of the run reads without a position or is overtaken, and only trims and wipes take entries. */
  ghost predicate Guarded(s: Sys, rounds: seq<Round>)
    decreases |rounds|
  {
    |rounds| > 0 ==>
      && OnlyTrimmed(rounds[0].atRead) && !(s.memory.started && s.memory.position.None?) && !Overtaken(s, rounds[0])
      && Guarded(Step(s, rounds[0]), rounds[1..])
  }

  lemma {:induction false} GuardedLosesNothing(s: Sys, rounds: seq<Round>)
    requires Tracks(s) && Feasible(s, rounds) && Guarded(s, rounds)
    ensures !SomeCycleLoses(s, rounds)
    decreases |rounds|
  {
    if |rounds| > 0 {
      TracksKept(s, rounds[0]);
      GuardedLosesNothing(Step(s, rounds[0]), rounds[1..]);
      if LosesSilently(s, rounds[0]) {
        SilentLossOnlyIf(s, rounds[0]);
      }
    }
  }

  lemma {:induction false} RunKeeps(s: Sys, rounds: seq<Round>)
    requires Tracks(s) && Feasible(s, rounds)
    ensures Tracks(RunFrom(s, rounds))
    ensures NoGap(s) && !SomeCycleLoses(s, rounds) ==> NoGap(RunFrom(s, rounds))
    decreases |rounds|
  {
    if |rounds| > 0 {
      TracksKept(s, rounds[0]);
      RunKeeps(Step(s, rounds[0]), rounds[1..]);
      if NoGap(s) {
        NoGapExactly(s, rounds[0]);
      }
    }
  }

  /** After a run in which no cycle loses silently, and once the relay runs, every entry since its start is
      handled or still retained, and one that is gone unread is announced by the next completed cycle exactly
      when that cycle sees a new run id or finds the position out of reach. */
  lemma RunAccountsExactly(s: Sys, rounds: seq<Round>, next: Round, i: nat)
    requires Initial(s) && Feasible(s, rounds) && !SomeCycleLoses(s, rounds)
    requires var end := RunFrom(s, rounds);
      end.memory.started && Possible(end, next) && !Out(end, next).raised && end.start <= i < |end.world.log|
    ensures var end, out := RunFrom(s, rounds), Out(RunFrom(s, rounds), next);
      && (i < end.mark ==> Handled(end, i))
      && (end.mark <= i && i in next.atFirst.gone && i >= end.covered ==>
            (out.resync.Some? && i < Step(end, next).covered <==>
             NewRun(end.memory, next.runId)
             || (end.memory.position.Some? && OutOfReach(end.mark, next.atFirst, next.atLast))))
  {
    var end := RunFrom(s, rounds);
    RunKeeps(s, rounds);
    LogGrows(end, next);
    AnnouncedExactly(end, next);
  }

  /** After a run in which no cycle loses silently, when only trims and wipes take entries and the relay has a
      position, every entry since its start is emitted, malformed, covered by a RESYNC, still retained, or
      covered by the RESYNC that the next completed cycle sends. */
  lemma NoSilentGap(s: Sys, rounds: seq<Round>, next: Round, i: nat)
    requires Initial(s) && Feasible(s, rounds) && !SomeCycleLoses(s, rounds)
    requires var end := RunFrom(s, rounds);
      end.memory.position.Some? && Possible(end, next) && !Out(end, next).raised && OnlyTrimmed(next.atFirst)
      && end.start <= i < |end.world.log|
    ensures var end := RunFrom(s, rounds);
      Handled(end, i) || i !in next.atFirst.gone || (Out(end, next).resync.Some? && i < Step(end, next).covered)
  {
    var end := RunFrom(s, rounds);
    RunKeeps(s, rounds);
    if end.mark <= i && i in next.atFirst.gone {
      LossDetected(end, next, i);
    }
  }

  /** The same, with a guard on each cycle: it has a position, and no trim overtakes it. */
  lemma GuardedRunHasNoSilentGap(s: Sys, rounds: seq<Round>, next: Round, i: nat)
    requires Initial(s) && Feasible(s, rounds) && Guarded(s, rounds)
    requires var end := RunFrom(s, rounds);
      end.memory.position.Some? && Possible(end, next) && !Out(end, next).raised && OnlyTrimmed(next.atFirst)
      && end.start <= i < |end.world.log|
    ensures var end := RunFrom(s, rounds);
      Handled(end, i) || i !in next.atFirst.gone || (Out(end, next).resync.Some? && i < Step(end, next).covered)
  {
    GuardedLosesNothing(s, rounds);
    NoSilentGap(s, rounds, next, i);
  }
}
