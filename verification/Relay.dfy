/** One cycle of the relay that tails the outbox stream.
    Every await of the cycle is a parameter, so any interleaving with the rest of the system, and a
    failure at any await, is some value of `Replies`. */
module Relay {
  import opened Wrappers
  import opened Envelope

  datatype StreamId = StreamId(ms: nat, seqNo: nat) {
    /** Numeric order by `(ms, seq)`, not the order of the texts. */
    predicate Gt(other: StreamId) {
      ms > other.ms || (ms == other.ms && seqNo > other.seqNo)
    }
  }

  const ZERO := StreamId(0, 0)
  const READ_COUNT := 100

  datatype Entry = Entry(id: StreamId, fields: Fields)

  type RunId = string

  datatype Reason = RedisReset | StreamTrimmed

  /** The replies to the awaits of one cycle. `tail` answers the lookup made at start or after a new
      run id; `emits` is how many socket emits succeed before one raises. */
  datatype Replies = Replies(
    tail: Reply<Option<StreamId>>,
    first: Reply<Option<StreamId>>,
    last: Reply<Option<StreamId>>,
    read: Reply<seq<Entry>>,
    emits: nat)

  datatype Memory = Memory(position: Option<StreamId>, runId: Option<RunId>, started: bool)

  const FRESH := Memory(None, None, false)

  /** One call of `emit`: the entry, its event, the socket emits that went out and whether all did. */
  datatype Attempt = Attempt(id: StreamId, event: ParsedEvent, sent: seq<Delivery>, ok: bool)

  datatype Outcome = Outcome(memory: Memory, attempts: seq<Attempt>, resync: Option<Reason>, raised: bool)

  datatype Batch = Batch(position: Option<StreamId>, attempts: seq<Attempt>, raised: bool)

  /** The emission of one event when `emits` more socket emits succeed. */
  function Try(id: StreamId, event: ParsedEvent, emits: nat): Attempt {
    var all := Deliveries(event);
    if emits < |all| then Attempt(id, event, all[..emits], false) else Attempt(id, event, all, true)
  }

  predicate AtOrBefore(id: StreamId, position: Option<StreamId>) {
    position.Some? && !id.Gt(position.value)
  }

  /** What the entries of one read do to the position, entry by entry. */
  function Deliver(position: Option<StreamId>, entries: seq<Entry>, emits: nat): Batch
    decreases |entries|
  {
    if |entries| == 0 then Batch(position, [], false)
    else
      var e := entries[0];
      if AtOrBefore(e.id, position) then Deliver(position, entries[1..], emits)
      else match ParseEnvelope(e.fields)
        case None => Deliver(Some(e.id), entries[1..], emits)
        case Some(event) =>
          var attempt := Try(e.id, event, emits);
          if !attempt.ok then Batch(position, [attempt], true)
          else
            var rest := Deliver(Some(e.id), entries[1..], emits - |attempt.sent|);
            Batch(rest.position, [attempt] + rest.attempts, rest.raised)
  }

  function Gap(position: StreamId, first: Option<StreamId>, last: Option<StreamId>): Option<Reason> {
    if first.None? then Some(RedisReset)
    else if first.value.Gt(position) then Some(StreamTrimmed)
    else if last.None? || position.Gt(last.value) then Some(RedisReset)
    else None
  }

  function ReadAndDeliver(memory: Memory, io: Replies): Outcome {
    if io.read.Fault? then Outcome(memory, [], None, true)
    else
      var batch := Deliver(memory.position, io.read.value, io.emits);
      Outcome(memory.(position := batch.position), batch.attempts, None, batch.raised)
  }

  predicate NewRun(memory: Memory, runId: Option<RunId>) {
    memory.started && runId.Some? && memory.runId.Some? && runId != memory.runId
  }

  function Remember(memory: Memory, runId: Option<RunId>): Memory {
    if runId.Some? then memory.(runId := runId) else memory
  }

  /** The whole cycle as a function of its replies. */
  function Cycle(memory: Memory, runId: Option<RunId>, io: Replies): Outcome {
    if !memory.started then
      var seen := memory.(runId := runId);
      if io.tail.Fault? then Outcome(seen, [], None, true)
      else ReadAndDeliver(seen.(position := io.tail.value, started := true), io)
    else
      var seen := Remember(memory, runId);
      if NewRun(memory, runId) then
        if io.tail.Fault? then Outcome(seen, [], None, true)
        else Outcome(seen.(position := io.tail.value), [], Some(RedisReset), false)
      else if io.first.Fault? || io.last.Fault? then Outcome(seen, [], None, true)
      else if seen.position.Some? && Gap(seen.position.value, io.first.value, io.last.value).Some? then
        Outcome(seen.(position := io.last.value), [], Gap(seen.position.value, io.first.value, io.last.value), false)
      else ReadAndDeliver(seen, io)
  }

  /** The relay's state, updated await by await as the cycle runs. */
  class RelayState {
    var position: Option<StreamId>
    var runId: Option<RunId>
    var started: bool

    constructor ()
      ensures Contents() == FRESH
    {
      position, runId, started := None, None, false;
    }

    function Contents(): Memory
      reads this
    {
      Memory(position, runId, started)
    }

    method EmitEntries(entries: seq<Entry>, emits: nat) returns (attempts: seq<Attempt>, raised: bool)
      modifies this`position
      ensures Batch(position, attempts, raised) == Deliver(old(position), entries, emits)
    {
      attempts := [];
      var left := emits;
      for i := 0 to |entries|
        invariant 0 <= left
        invariant var rest := Deliver(position, entries[i..], left);
                  Deliver(old(position), entries, emits) ==
                  Batch(rest.position, attempts + rest.attempts, rest.raised)
      {
        var e := entries[i];
        assert entries[i..][1..] == entries[i + 1..];
        if AtOrBefore(e.id, position) {
          continue;
        }
        var event := ParseEnvelope(e.fields);
        if event.Some? {
          var attempt := Try(e.id, event.value, left);
          ghost var rest := Deliver(position, entries[i..], left);
          assert attempt.ok ==>
              attempts + rest.attempts ==
              attempts + [attempt] + Deliver(Some(e.id), entries[i + 1..], left - |attempt.sent|).attempts;
          attempts := attempts + [attempt];
          if !attempt.ok {
            return attempts, true;
          }
          left := left - |attempt.sent|;
        }
        position := Some(e.id);
      }
      raised := false;
    }

    method RunCycle(currentRunId: Option<RunId>, io: Replies)
      returns (attempts: seq<Attempt>, resync: Option<Reason>, raised: bool)
      modifies this
      ensures Outcome(Contents(), attempts, resync, raised) == Cycle(old(Contents()), currentRunId, io)
    {
      attempts, resync, raised := [], None, false;
      if !started {
        runId := currentRunId;
        if io.tail.Fault? { return [], None, true; }
        position := io.tail.value;
        started := true;
      } else {
        if currentRunId.None? {
        } else if runId.None? {
          runId := currentRunId;
        } else if currentRunId != runId {
          runId := currentRunId;
          if io.tail.Fault? { return [], None, true; }
          position := io.tail.value;
          return [], Some(RedisReset), false;
        }
        if io.first.Fault? || io.last.Fault? { return [], None, true; }
        var first, last := io.first.value, io.last.value;
        if position.Some? {
          var reason: Option<Reason> := None;
          if first.None? {
            reason := Some(RedisReset);
          } else if first.value.Gt(position.value) {
            reason := Some(StreamTrimmed);
          } else if last.None? || position.value.Gt(last.value) {
            reason := Some(RedisReset);
          }
          if reason.Some? {
            position := last;
            return [], reason, false;
          }
        }
      }
      if io.read.Fault? { return [], None, true; }
      attempts, raised := EmitEntries(io.read.value, io.emits);
    }
  }

  /** The position is between the first and the last retained identifier. */
  predicate InReach(position: StreamId, first: Option<StreamId>, last: Option<StreamId>) {
    first.Some? && last.Some? && !first.value.Gt(position) && !position.Gt(last.value)
  }

  /** A cycle that raised nothing announces a gap exactly when the relay was already running and either Redis has
      a new run id, or the remembered position is not in reach. The reason is a trim exactly when the run is the
      same and something is retained, all of it after the position; and the position jumps to the end. */
  lemma ResyncExactly(memory: Memory, runId: Option<RunId>, io: Replies)
    requires !Cycle(memory, runId, io).raised
    ensures var out := Cycle(memory, runId, io);
      && (out.resync.Some? <==>
            memory.started &&
            (NewRun(memory, runId) ||
             (memory.position.Some? && !InReach(memory.position.value, io.first.value, io.last.value))))
      && (out.resync == Some(StreamTrimmed) <==>
            memory.started && !NewRun(memory, runId) && memory.position.Some? &&
            io.first.value.Some? && io.first.value.value.Gt(memory.position.value))
      && (out.resync.Some? ==>
            && out.attempts == []
            && out.memory.position == (if NewRun(memory, runId) then io.tail.value else io.last.value)
            && (runId.Some? ==> out.memory.runId == runId))
  {
  }

  // ---------------------------------------------------------------- order, whatever the replies

  datatype Turn = Turn(runId: Option<RunId>, io: Replies)

  function Outcomes(memory: Memory, turns: seq<Turn>): seq<Outcome>
    decreases |turns|
  {
    if turns == [] then []
    else
      var out := Cycle(memory, turns[0].runId, turns[0].io);
      [out] + Outcomes(out.memory, turns[1..])
  }

  predicate NoResync(memory: Memory, turns: seq<Turn>) {
    forall out :: out in Outcomes(memory, turns) ==> out.resync.None?
  }

  function AllAttempts(memory: Memory, turns: seq<Turn>): seq<Attempt>
    decreases |turns|
  {
    if turns == [] then []
    else
      var out := Cycle(memory, turns[0].runId, turns[0].io);
      out.attempts + AllAttempts(out.memory, turns[1..])
  }

  function Final(memory: Memory, turns: seq<Turn>): Memory
    decreases |turns|
  {
    if turns == [] then memory else Final(Cycle(memory, turns[0].runId, turns[0].io).memory, turns[1..])
  }

  ghost predicate NotBefore(position: Option<StreamId>, later: Option<StreamId>) {
    position.Some? ==> later.Some? && !position.value.Gt(later.value)
  }

  /** Every attempt comes after every earlier success. */
  ghost predicate AfterSuccesses(attempts: seq<Attempt>) {
    forall i, j :: 0 <= i < j < |attempts| && attempts[i].ok ==> attempts[j].id.Gt(attempts[i].id)
  }

  ghost predicate Between(a: Attempt, position: Option<StreamId>, later: Option<StreamId>) {
    !AtOrBefore(a.id, position) && (a.ok ==> AtOrBefore(a.id, later))
  }

  lemma {:induction false} DeliverOrder(position: Option<StreamId>, entries: seq<Entry>, emits: nat)
    ensures var b := Deliver(position, entries, emits);
      NotBefore(position, b.position) && AfterSuccesses(b.attempts) &&
      forall a :: a in b.attempts ==> Between(a, position, b.position)
    decreases |entries|
  {
    if entries != [] {
      var e, b := entries[0], Deliver(position, entries, emits);
      if AtOrBefore(e.id, position) {
        DeliverOrder(position, entries[1..], emits);
      } else {
        match ParseEnvelope(e.fields)
        case None =>
          DeliverOrder(Some(e.id), entries[1..], emits);
          assert forall a :: a in b.attempts ==> Between(a, Some(e.id), b.position);
        case Some(event) =>
          var attempt := Try(e.id, event, emits);
          if attempt.ok {
            DeliverOrder(Some(e.id), entries[1..], emits - |attempt.sent|);
            var rest := Deliver(Some(e.id), entries[1..], emits - |attempt.sent|);
            assert b.attempts == [attempt] + rest.attempts;
            forall i | 0 < i < |b.attempts|
              ensures b.attempts[i].id.Gt(attempt.id) && Between(b.attempts[i], position, b.position)
            {
              assert rest.attempts[i - 1] in rest.attempts;
              assert Between(rest.attempts[i - 1], Some(e.id), rest.position);
            }
            forall i, j | 0 <= i < j < |b.attempts| && b.attempts[i].ok
              ensures b.attempts[j].id.Gt(b.attempts[i].id)
            {
              assert i > 0 ==> rest.attempts[j - 1].id.Gt(rest.attempts[i - 1].id);
            }
          }
      }
    }
  }

  predicate Sound(memory: Memory) {
    !memory.started ==> memory.position.None?
  }

  lemma CycleOrder(memory: Memory, runId: Option<RunId>, io: Replies)
    requires Sound(memory) && Cycle(memory, runId, io).resync.None?
    ensures var out := Cycle(memory, runId, io);
      Sound(out.memory) && NotBefore(memory.position, out.memory.position) && AfterSuccesses(out.attempts) &&
      forall a :: a in out.attempts ==> Between(a, memory.position, out.memory.position)
  {
    if io.read.Got? {
      DeliverOrder(if memory.started then memory.position else if io.tail.Got? then io.tail.value else None,
                   io.read.value, io.emits);
    }
  }

  /** Between two RESYNCs, whatever Redis answers: the position never moves back, and every attempt comes
      after every earlier success, so the identifiers of the successful ones strictly increase. */
  lemma {:induction false} OrderBetweenResyncs(memory: Memory, turns: seq<Turn>)
    requires Sound(memory) && NoResync(memory, turns)
    ensures NotBefore(memory.position, Final(memory, turns).position)
    ensures AfterSuccesses(AllAttempts(memory, turns))
    ensures forall a :: a in AllAttempts(memory, turns) ==> Between(a, memory.position, Final(memory, turns).position)
    decreases |turns|
  {
    if turns != [] {
      var out := Cycle(memory, turns[0].runId, turns[0].io);
      assert Outcomes(memory, turns)[0] == out;
      CycleOrder(memory, turns[0].runId, turns[0].io);
      forall o | o in Outcomes(out.memory, turns[1..]) ensures o.resync.None? {
        assert o in Outcomes(memory, turns);
      }
      OrderBetweenResyncs(out.memory, turns[1..]);
      var rest := AllAttempts(out.memory, turns[1..]);
      var all := AllAttempts(memory, turns);
      assert all == out.attempts + rest;
      forall a | a in all ensures Between(a, memory.position, Final(memory, turns).position) {
        if a in rest { assert Between(a, out.memory.position, Final(memory, turns).position); }
        else { assert Between(a, memory.position, out.memory.position); }
      }
      forall i, j | 0 <= i < j < |all| && all[i].ok ensures all[j].id.Gt(all[i].id) {
        if i < |out.attempts| <= j {
          assert Between(all[i], memory.position, out.memory.position);
          assert all[j] == rest[j - |out.attempts|] && Between(all[j], out.memory.position, Final(memory, turns).position);
        } else if |out.attempts| <= i {
          assert rest[j - |out.attempts|].id.Gt(rest[i - |out.attempts|].id);
        }
      }
    }
  }

  // ---------------------------------------------------------------- restarts

  /** The last run id that `INFO` gave in these turns. */
  function LastRunId(turns: seq<Turn>): Option<RunId> {
    if |turns| == 0 then None
    else if turns[|turns| - 1].runId.Some? then turns[|turns| - 1].runId
    else LastRunId(turns[..|turns| - 1])
  }

  lemma {:induction false} LastRunIdOfRest(turns: seq<Turn>)
    requires |turns| > 0
    ensures LastRunId(turns) == if LastRunId(turns[1..]).Some? then LastRunId(turns[1..]) else turns[0].runId
  {
    if |turns| > 1 {
      var n := |turns| - 1;
      assert turns[..n][1..] == turns[1..][..n - 1];
      LastRunIdOfRest(turns[..n]);
    } else {
      assert LastRunId(turns[..0]) == None;
    }
  }

  /** A running relay knows the last run id it was given, through any number of turns without one. */
  lemma {:induction false} RunIdIsKept(memory: Memory, turns: seq<Turn>)
    requires memory.started
    ensures Final(memory, turns).started
    ensures Final(memory, turns).runId == if LastRunId(turns).Some? then LastRunId(turns) else memory.runId
    decreases |turns|
  {
    if |turns| > 0 {
      RunIdIsKept(Cycle(memory, turns[0].runId, turns[0].io).memory, turns[1..]);
      LastRunIdOfRest(turns);
    }
  }

  /** A turn with another run id than the last one known announces it, and jumps to the end, or raises. */
  lemma RestartIsAnnounced(memory: Memory, turns: seq<Turn>, next: Turn)
    requires memory.started && next.runId.Some?
    requires var known := if LastRunId(turns).Some? then LastRunId(turns) else memory.runId;
      known.Some? && known != next.runId
    ensures var out := Cycle(Final(memory, turns), next.runId, next.io);
      && out.attempts == [] && out.memory.runId == next.runId
      && if next.io.tail.Fault? then out.raised && out.resync.None?
         else !out.raised && out.resync == Some(RedisReset) && out.memory.position == next.io.tail.value
  {
    RunIdIsKept(memory, turns);
  }

  /** Counted from the turn in which the relay started; what earlier turns saw is forgotten. */
  lemma RestartIsAnnouncedSinceStart(before: seq<Turn>, first: Turn, turns: seq<Turn>, next: Turn)
    requires !Final(FRESH, before).started && first.io.tail.Got? && next.runId.Some?
    requires LastRunId([first] + turns).Some? && LastRunId([first] + turns) != next.runId
    ensures var memory := Final(Cycle(Final(FRESH, before), first.runId, first.io).memory, turns);
      var out := Cycle(memory, next.runId, next.io);
      memory.started && (out.raised || out.resync == Some(RedisReset))
  {
    var started := Cycle(Final(FRESH, before), first.runId, first.io).memory;
    LastRunIdOfRest([first] + turns);
    assert ([first] + turns)[1..] == turns;
    RunIdIsKept(started, turns);
    RestartIsAnnounced(started, turns, next);
  }

  /** A start whose lookup of the tail fails sees a run id and forgets it when the next one is missing. */
  lemma FailedStartForgets(a: RunId, b: RunId, io: Replies)
    requires io.tail == Got(None) && io.first == Got(None) && io.last == Got(None) && io.read == Got([])
    ensures var memory := Final(FRESH, [Turn(Some(a), io.(tail := Fault)), Turn(None, io)]);
      memory.started && Cycle(memory, Some(b), io) == Outcome(memory.(runId := Some(b)), [], None, false)
  {
    var turns := [Turn(Some(a), io.(tail := Fault)), Turn(None, io)];
    var failed := Cycle(FRESH, Some(a), io.(tail := Fault)).memory;
    var started := Cycle(failed, None, io).memory;
    assert turns[1..] == [Turn(None, io)];
    assert Final(failed, [Turn(None, io)]) == Final(started, [Turn(None, io)][1..]) == started;
    assert Final(FRESH, turns) == started && started == Memory(None, None, true);
  }

  // ---------------------------------------------------------------- failures

  /** A cycle raises exactly when an await that it reaches fails: the lookup of the tail at the start or after a new
      run id; else one of the two checks; else, unless they announce something, the read or a socket emit. */
  lemma RaisesExactly(memory: Memory, runId: Option<RunId>, io: Replies)
    ensures var out := Cycle(memory, runId, io);
      var position := if memory.started then memory.position else if io.tail.Got? then io.tail.value else None;
      var unread := io.read.Fault? || Deliver(position, io.read.value, io.emits).raised;
      out.raised <==>
        if !memory.started then io.tail.Fault? || unread
        else if runId.Some? && memory.runId.Some? && runId != memory.runId then io.tail.Fault?
        else
          || io.first.Fault? || io.last.Fault?
          || ((position.Some? ==> InReach(position.value, io.first.value, io.last.value)) && unread)
  {
  }
}
