/** The outbox worker: it claims rows, appends them to the stream and completes or fails each row.
    Every await may take effect or not and may answer, raise or never return, and several workers
    may run at once. */
module Outbox {
  import opened Wrappers
  import opened Envelope

  datatype Status = Pending | Processing | Processed | Failed

  datatype Row = Row(event: Event, status: Status, attempts: nat, availableAt: int, lockedAt: Option<int>)

  const CLAIM_LIMIT := 20
  const MAX_ATTEMPTS := 5
  const STALE_LOCK_SECONDS := 300
  const RETRY_SECONDS := 5

  type Rows = map<string, Row>

  // ---------------------------------------------------------------- the SQL functions

  predicate Claimable(row: Row, now: int) {
    (row.status == Pending && row.availableAt <= now) ||
    (row.status == Processing && row.lockedAt.Some? && row.lockedAt.value < now - STALE_LOCK_SECONDS)
  }

  /** The rows a claim may take: it skips the ones other transactions hold. */
  predicate MayClaim(rows: Rows, now: int, ids: seq<string>) {
    |ids| <= CLAIM_LIMIT &&
    (forall i, j :: 0 <= i < j < |ids| ==> ids[i] != ids[j]) &&
    forall id :: id in ids ==> id in rows && Claimable(rows[id], now)
  }

  function ClaimRow(row: Row, now: int): Row {
    row.(status := Processing, lockedAt := Some(now), attempts := row.attempts + 1)
  }

  function Claim(rows: Rows, now: int, ids: seq<string>): Rows {
    map id | id in rows :: if id in ids then ClaimRow(rows[id], now) else rows[id]
  }

  function CompleteRow(row: Row): Row {
    if row.status == Processing then row.(status := Processed, lockedAt := None) else row
  }

  function FailRow(row: Row, now: int): Row {
    if row.status != Processing then row
    else if row.attempts >= MAX_ATTEMPTS then row.(status := Failed, lockedAt := None)
    else row.(status := Pending, availableAt := now + RETRY_SECONDS, lockedAt := None)
  }

  function Update(rows: Rows, id: string, row: Row): Rows {
    rows[id := row]
  }

  // ---------------------------------------------------------------- one batch

  datatype Answer = Ok | Raises | Dies

  /** An await that changes something: whether the change happened, and what came back. */
  datatype Await = Await(effect: bool, answer: Answer)

  predicate Honest(a: Await) {
    a.answer == Ok ==> a.effect
  }

  datatype EventIO = EventIO(publish: Await, complete: Await, fail: Await, now: int)

  predicate HonestIO(io: EventIO) {
    Honest(io.publish) && Honest(io.complete) && Honest(io.fail)
  }

  /** The table and everything ever appended to the stream. */
  datatype Store = Store(rows: Rows, log: seq<Json>)

  function Publish(s: Store, event: Event, a: Await): Store {
    if a.effect then s.(log := s.log + [BuildStreamMessage(event)]) else s
  }

  function Complete(s: Store, id: string, a: Await): Store {
    if a.effect && id in s.rows then s.(rows := Update(s.rows, id, CompleteRow(s.rows[id]))) else s
  }

  function Fail(s: Store, id: string, a: Await, now: int): Store {
    if a.effect && id in s.rows then s.(rows := Update(s.rows, id, FailRow(s.rows[id], now))) else s
  }

  /** What one event of the batch does to the store, and whether the batch goes on. */
  function ProcessEvent(s: Store, event: Event, io: EventIO): (Store, bool) {
    var s1 := Publish(s, event, io.publish);
    match io.publish.answer
    case Dies => (s1, false)
    case Raises => (Fail(s1, event.id, io.fail, io.now), io.fail.answer == Ok)
    case Ok =>
      var s2 := Complete(s1, event.id, io.complete);
      match io.complete.answer
      case Ok => (s2, true)
      case Dies => (s2, false)
      case Raises => (Fail(s2, event.id, io.fail, io.now), io.fail.answer == Ok)
  }

  function ProcessAll(s: Store, events: seq<Event>, ios: seq<EventIO>): (Store, bool)
    requires |events| == |ios|
    decreases |events|
  {
    if events == [] then (s, true)
    else
      var (s1, goesOn) := ProcessEvent(s, events[0], ios[0]);
      if goesOn then ProcessAll(s1, events[1..], ios[1..]) else (s1, false)
  }

  function EventsOf(rows: Rows, ids: seq<string>): (events: seq<Event>)
    requires forall id :: id in ids ==> id in rows
    ensures |events| == |ids|
    ensures forall i :: 0 <= i < |ids| ==> events[i] == rows[ids[i]].event
  {
    seq(|ids|, i requires 0 <= i < |ids| => rows[ids[i]].event)
  }

  class Backend {
    var rows: Rows
    var log: seq<Json>

    constructor (rows: Rows)
      ensures Contents() == Store(rows, [])
    {
      this.rows := rows;
      log := [];
    }

    function Contents(): Store
      reads this
    {
      Store(rows, log)
    }

    method ClaimOutboxEvents(now: int, ids: seq<string>) returns (events: seq<Event>)
      requires MayClaim(rows, now, ids)
      modifies this`rows
      ensures rows == Claim(old(rows), now, ids)
      ensures rows.Keys == old(rows).Keys && forall id :: id in rows && id !in ids ==> rows[id] == old(rows)[id]
      ensures forall id :: id in ids ==>
        var before, row := old(rows)[id], rows[id];
        && row.event == before.event && row.attempts == before.attempts + 1 && row.status == Processing
        && row.lockedAt == Some(now) && row.availableAt == before.availableAt
      ensures events == EventsOf(old(rows), ids) && |events| <= 20
    {
      events := EventsOf(rows, ids);
      rows := Claim(rows, now, ids);
    }

    /** One turn of the loop: publish, and complete or fail. The result says whether the batch goes on. */
    method ProcessOne(event: Event, io: EventIO) returns (goesOn: bool)
      modifies this
      ensures (Contents(), goesOn) == ProcessEvent(old(Contents()), event, io)
    {
      if io.publish.effect {
        log := log + [BuildStreamMessage(event)];
      }
      if io.publish.answer == Dies {
        return false;
      }
      if io.publish.answer == Ok {
        if io.complete.effect && event.id in rows {
          rows := Update(rows, event.id, CompleteRow(rows[event.id]));
        }
        if io.complete.answer != Raises {
          return io.complete.answer == Ok;
        }
      }
      if io.fail.effect && event.id in rows {
        rows := Update(rows, event.id, FailRow(rows[event.id], io.now));
      }
      goesOn := io.fail.answer == Ok;
    }

    /** One batch: claim, then each row in turn. The result is the size of the batch, or nothing when an exception
        left the batch. */
    method ProcessOnce(now: int, ids: seq<string>, ios: seq<EventIO>) returns (processed: Option<nat>)
      requires MayClaim(rows, now, ids) && |ios| == |ids|
      modifies this
      ensures var before := old(Contents());
        var (after, finished) :=
          ProcessAll(before.(rows := Claim(before.rows, now, ids)), EventsOf(before.rows, ids), ios);
        Contents() == after && processed == (if finished then Some(|ids|) else None)
    {
      var events := ClaimOutboxEvents(now, ids);
      ghost var claimed := Contents();
      for i := 0 to |events|
        invariant ProcessAll(Contents(), events[i..], ios[i..]) == ProcessAll(claimed, events, ios)
      {
        assert events[i..][1..] == events[i + 1..] && ios[i..][1..] == ios[i + 1..];
        var goesOn := ProcessOne(events[i], ios[i]);
        if !goesOn {
          return None;
        }
      }
      processed := Some(|events|);
    }
  }

  // ---------------------------------------------------------------- many workers, any interleaving

  datatype Phase = Publishing | Completing | Failing

  datatype Work = Idle | Busy(events: seq<Event>, phase: Phase)

  datatype Sys = Sys(store: Store, workers: map<nat, Work>)

  datatype Action =
    | Insert(event: Event, now: int)
    | Take(worker: nat, now: int, ids: seq<string>)
    | Send(worker: nat, a: Await)
    | Finish(worker: nat, a: Await)
    | GiveUp(worker: nat, a: Await, now: int)

  predicate AtPhase(s: Sys, worker: nat, phase: Phase) {
    worker in s.workers && s.workers[worker].Busy? && s.workers[worker].events != [] &&
    s.workers[worker].phase == phase
  }

  predicate Enabled(s: Sys, action: Action) {
    match action
    case Insert(event, _) => event.id !in s.store.rows
    case Take(worker, now, ids) =>
      worker in s.workers && s.workers[worker].Idle? && ids != [] && MayClaim(s.store.rows, now, ids)
    case Send(worker, a) => AtPhase(s, worker, Publishing) && Honest(a)
    case Finish(worker, a) => AtPhase(s, worker, Completing) && Honest(a)
    case GiveUp(worker, a, _) => AtPhase(s, worker, Failing) && Honest(a)
  }

  function NextEvent(work: Work): Work
    requires work.Busy? && work.events != []
  {
    if |work.events| == 1 then Idle else Busy(work.events[1..], Publishing)
  }

  function Do(s: Sys, action: Action): Sys
    requires Enabled(s, action)
  {
    match action
    case Insert(event, now) =>
      s.(store := s.store.(rows := s.store.rows[event.id := Row(event, Pending, 0, now, None)]))
    case Take(worker, now, ids) =>
      Sys(s.store.(rows := Claim(s.store.rows, now, ids)),
          s.workers[worker := Busy(EventsOf(s.store.rows, ids), Publishing)])
    case Send(worker, a) =>
      var work := s.workers[worker];
      Sys(Publish(s.store, work.events[0], a),
          s.workers[worker := match a.answer
                              case Ok => work.(phase := Completing)
                              case Raises => work.(phase := Failing)
                              case Dies => Idle])
    case Finish(worker, a) =>
      var work := s.workers[worker];
      Sys(Complete(s.store, work.events[0].id, a),
          s.workers[worker := match a.answer
                              case Ok => NextEvent(work)
                              case Raises => work.(phase := Failing)
                              case Dies => Idle])
    case GiveUp(worker, a, now) =>
      var work := s.workers[worker];
      Sys(Fail(s.store, work.events[0].id, a, now),
          s.workers[worker := if a.answer == Ok then NextEvent(work) else Idle])
  }

  ghost predicate Runs(s: Sys, actions: seq<Action>)
    decreases |actions|
  {
    actions == [] || (Enabled(s, actions[0]) && Runs(Do(s, actions[0]), actions[1..]))
  }

  ghost function After(s: Sys, actions: seq<Action>): Sys
    requires Runs(s, actions)
    decreases |actions|
  {
    if actions == [] then s else After(Do(s, actions[0]), actions[1..])
  }

  /** The row exists and was claimed at least once. */
  predicate ClaimedRow(rows: Rows, event: Event) {
    event.id in rows && rows[event.id].event == event && rows[event.id].attempts >= 1
  }

  ghost predicate Keyed(rows: Rows) {
    forall id :: id in rows ==>
      rows[id].event.id == id &&
      (rows[id].status != Pending ==> rows[id].attempts >= 1) &&
      (rows[id].status == Failed ==> rows[id].attempts >= MAX_ATTEMPTS)
  }

  ghost predicate AtLeastOnce(s: Store) {
    forall id :: id in s.rows && s.rows[id].status == Processed ==> BuildStreamMessage(s.rows[id].event) in s.log
  }

  ghost predicate NoInvention(s: Store) {
    forall m :: m in s.log ==> exists event :: ClaimedRow(s.rows, event) && m == BuildStreamMessage(event)
  }

  ghost predicate WorkIsClaimed(s: Store, work: Work) {
    work.Busy? ==>
      (forall event :: event in work.events ==> ClaimedRow(s.rows, event)) &&
      (work.phase == Completing ==> work.events != [] && BuildStreamMessage(work.events[0]) in s.log)
  }

  ghost predicate Inv(s: Sys) {
    Keyed(s.store.rows) && AtLeastOnce(s.store) && NoInvention(s.store) &&
    forall worker :: worker in s.workers ==> WorkIsClaimed(s.store, s.workers[worker])
  }

  /** Nothing published is lost, no row changes its event, and claims are never forgotten. */
  ghost predicate Grows(s: Store, s': Store) {
    s.log <= s'.log &&
    forall event :: ClaimedRow(s.rows, event) ==> ClaimedRow(s'.rows, event)
  }

  lemma GrowthKeepsWork(s: Store, s': Store, work: Work)
    requires Grows(s, s') && WorkIsClaimed(s, work)
    ensures WorkIsClaimed(s', work)
  {
  }

  lemma NoInventionKept(s: Store, s': Store)
    requires NoInvention(s) && Grows(s, s') && s'.log == s.log
    ensures NoInvention(s')
  {
    forall m | m in s'.log ensures exists event :: ClaimedRow(s'.rows, event) && m == BuildStreamMessage(event) {
      var event :| ClaimedRow(s.rows, event) && m == BuildStreamMessage(event);
      assert ClaimedRow(s'.rows, event);
    }
  }

  lemma PublishKeeps(s: Store, event: Event, a: Await)
    requires NoInvention(s) && AtLeastOnce(s) && ClaimedRow(s.rows, event)
    ensures var s' := Publish(s, event, a);
      Grows(s, s') && NoInvention(s') && AtLeastOnce(s') && (a.effect ==> BuildStreamMessage(event) in s'.log)
  {
    var s' := Publish(s, event, a);
    forall m | m in s'.log ensures exists e :: ClaimedRow(s'.rows, e) && m == BuildStreamMessage(e) {
      if m in s.log {
        var e :| ClaimedRow(s.rows, e) && m == BuildStreamMessage(e);
        assert ClaimedRow(s'.rows, e);
      } else {
        assert ClaimedRow(s'.rows, event);
      }
    }
  }

  ghost predicate Good(s: Store) {
    Keyed(s.rows) && AtLeastOnce(s) && NoInvention(s)
  }

  lemma InsertKeeps(s: Store, row: Row)
    requires Good(s) && row.event.id !in s.rows && row.status == Pending
    ensures var s' := s.(rows := s.rows[row.event.id := row]); Good(s') && Grows(s, s')
  {
    NoInventionKept(s, s.(rows := s.rows[row.event.id := row]));
  }

  lemma ClaimKeeps(s: Store, now: int, ids: seq<string>)
    requires Good(s) && MayClaim(s.rows, now, ids)
    ensures var s' := s.(rows := Claim(s.rows, now, ids));
      Good(s') && Grows(s, s') && forall event :: event in EventsOf(s.rows, ids) ==> ClaimedRow(s'.rows, event)
  {
    NoInventionKept(s, s.(rows := Claim(s.rows, now, ids)));
  }

  lemma CompleteKeeps(s: Store, event: Event, a: Await)
    requires Good(s) && ClaimedRow(s.rows, event) && BuildStreamMessage(event) in s.log
    ensures var s' := Complete(s, event.id, a); Good(s') && Grows(s, s')
  {
    NoInventionKept(s, Complete(s, event.id, a));
  }

  lemma FailKeeps(s: Store, event: Event, a: Await, now: int)
    requires Good(s) && ClaimedRow(s.rows, event)
    ensures var s' := Fail(s, event.id, a, now); Good(s') && Grows(s, s')
  {
    NoInventionKept(s, Fail(s, event.id, a, now));
  }

  lemma StoreKept(s: Sys, action: Action)
    requires Inv(s) && Enabled(s, action)
    ensures Good(Do(s, action).store) && Grows(s.store, Do(s, action).store)
  {
    match action
    case Insert(event, now) => InsertKeeps(s.store, Row(event, Pending, 0, now, None));
    case Take(_, now, ids) => ClaimKeeps(s.store, now, ids);
    case Send(worker, a) => PublishKeeps(s.store, s.workers[worker].events[0], a);
    case Finish(worker, a) => CompleteKeeps(s.store, s.workers[worker].events[0], a);
    case GiveUp(worker, a, now) => FailKeeps(s.store, s.workers[worker].events[0], a, now);
  }

  lemma ActiveWorkKept(s: Sys, action: Action)
    requires Inv(s) && Enabled(s, action) && !action.Insert?
    ensures WorkIsClaimed(Do(s, action).store, Do(s, action).workers[action.worker])
  {
    StoreKept(s, action);
    match action
    case Take(_, now, ids) => ClaimKeeps(s.store, now, ids);
    case Send(worker, a) => PublishKeeps(s.store, s.workers[worker].events[0], a);
    case _ =>
  }

  lemma ActionKeeps(s: Sys, action: Action)
    requires Inv(s) && Enabled(s, action)
    ensures Inv(Do(s, action)) && Grows(s.store, Do(s, action).store)
  {
    var s' := Do(s, action);
    StoreKept(s, action);
    forall worker | worker in s'.workers ensures WorkIsClaimed(s'.store, s'.workers[worker]) {
      if !action.Insert? && worker == action.worker {
        ActiveWorkKept(s, action);
      } else {
        GrowthKeepsWork(s.store, s'.store, s.workers[worker]);
      }
    }
  }

  /** Whatever the interleaving of the workers and wherever they fail: a processed row is in the
      stream, and every stream entry is the envelope of a row that some worker had claimed. */
  lemma {:induction false} WorkersAreAtLeastOnce(s: Sys, actions: seq<Action>)
    requires Inv(s) && Runs(s, actions)
    ensures Inv(After(s, actions)) && Grows(s.store, After(s, actions).store)
    decreases |actions|
  {
    if actions != [] {
      ActionKeeps(s, actions[0]);
      WorkersAreAtLeastOnce(Do(s, actions[0]), actions[1..]);
    }
  }

  /** A table where nothing was processed and an empty stream satisfy the invariant. */
  lemma InitiallyGood(s: Sys)
    requires Keyed(s.store.rows) && s.store.log == []
    requires forall id :: id in s.store.rows ==> s.store.rows[id].status != Processed
    requires forall worker :: worker in s.workers ==> s.workers[worker].Idle?
    ensures Inv(s)
  {
  }

  // ---------------------------------------------------------------- nothing is forgotten

  /** Nothing more will happen to the row: it was published, or given up after five attempts. */
  predicate Settled(row: Row) {
    row.status == Processed || (row.status == Failed && row.attempts >= 5)
  }

  ghost predicate ClaimableFrom(row: Row, instant: int) {
    forall now: int {:trigger Claimable(row, now)} :: now >= instant ==> Claimable(row, now)
  }

  /** Every row is settled, or there is an instant from which on a worker may claim it. */
  ghost predicate Owed(rows: Rows) {
    forall id :: id in rows ==> Settled(rows[id]) || exists instant :: ClaimableFrom(rows[id], instant)
  }

  /** A claimed row is nobody else's for five minutes, and anybody's after that. */
  lemma ClaimLocks(row: Row, now: int, later: int)
    requires Claimable(row, now)
    ensures var claimed := ClaimRow(row, now);
      && (Claimable(claimed, later) <==> later > now + 300)
      && ClaimableFrom(claimed, now + 301)
      && claimed.attempts == row.attempts + 1 && claimed.event == row.event && !Settled(claimed)
  {
  }

  /** Giving up a claimed row makes it available five seconds later, and after five attempts not at all. */
  lemma FailRetries(row: Row, now: int, later: int)
    requires row.status == Processing
    ensures var failed := FailRow(row, now);
      && failed.attempts == row.attempts && failed.event == row.event
      && if row.attempts >= 5 then failed.status == Failed && Settled(failed)
         else (Claimable(failed, later) <==> later >= now + 5) && ClaimableFrom(failed, now + 5) && !Settled(failed)
  {
  }

  lemma RowStaysOwed(row: Row, now: int)
    requires Settled(row) || exists instant :: ClaimableFrom(row, instant)
    ensures Settled(CompleteRow(row)) || exists instant :: ClaimableFrom(CompleteRow(row), instant)
    ensures Settled(FailRow(row, now)) || exists instant :: ClaimableFrom(FailRow(row, now), instant)
  {
    if row.status == Processing {
      FailRetries(row, now, now);
      assert Settled(CompleteRow(row));
    }
  }

  lemma ActionKeepsOwed(s: Sys, action: Action)
    requires Owed(s.store.rows) && Enabled(s, action)
    ensures Owed(Do(s, action).store.rows)
  {
    var rows, rows' := s.store.rows, Do(s, action).store.rows;
    forall id | id in rows' ensures Settled(rows'[id]) || exists instant :: ClaimableFrom(rows'[id], instant) {
      match action
      case Insert(event, now) =>
        if id == event.id {
          assert ClaimableFrom(rows'[id], now);
        }
      case Take(_, now, ids) =>
        if id in ids {
          ClaimLocks(rows[id], now, now);
        }
      case Send(_, _) =>
      case Finish(_, _) => RowStaysOwed(rows[id], 0);
      case GiveUp(_, _, now) => RowStaysOwed(rows[id], now);
    }
  }

  /** In every run, wherever workers fail or die: no row is forgotten. */
  lemma {:induction false} NothingIsForgotten(s: Sys, actions: seq<Action>)
    requires Owed(s.store.rows) && Runs(s, actions)
    ensures Owed(After(s, actions).store.rows)
    decreases |actions|
  {
    if actions != [] {
      ActionKeepsOwed(s, actions[0]);
      NothingIsForgotten(Do(s, actions[0]), actions[1..]);
    }
  }

  /** A row is locked exactly while it is processed. */
  predicate LocksFit(rows: Rows) {
    forall id :: id in rows ==> (rows[id].status == Processing <==> rows[id].lockedAt.Some?)
  }

  lemma {:induction false} LockedExactly(s: Sys, actions: seq<Action>)
    requires LocksFit(s.store.rows) && Runs(s, actions)
    ensures LocksFit(After(s, actions).store.rows)
    decreases |actions|
  {
    if actions != [] {
      assert LocksFit(Do(s, actions[0]).store.rows);
      LockedExactly(Do(s, actions[0]), actions[1..]);
    }
  }

  /** And a settled row never changes again. */
  lemma {:induction false} SettledIsFinal(s: Sys, actions: seq<Action>, id: string)
    requires Runs(s, actions) && id in s.store.rows && Settled(s.store.rows[id])
    ensures id in After(s, actions).store.rows && After(s, actions).store.rows[id] == s.store.rows[id]
    decreases |actions|
  {
    if actions != [] {
      SettledIsFinal(Do(s, actions[0]), actions[1..], id);
    }
  }

  /** The append raised, or the row could not be completed after it, and this was recorded. */
  predicate Recorded(io: EventIO) {
    io.fail.effect &&
    (io.publish.answer == Raises || (io.publish.answer == Ok && io.complete.answer == Raises && !io.complete.effect))
  }

  /** What one event of a batch does to its row. A completion that takes effect settles it; a recorded failure makes it
      available in five seconds, or settles it after five attempts; without either it stays locked. No other row
      changes, and the stream gets the envelope exactly if the append took effect. */
  lemma EventOutcome(s: Store, event: Event, io: EventIO, later: int)
    requires event.id in s.rows && s.rows[event.id].status == Processing
    ensures var row := s.rows[event.id];
      var s' := ProcessEvent(s, event, io).0;
      && s'.rows.Keys == s.rows.Keys && (forall id :: id in s.rows && id != event.id ==> s'.rows[id] == s.rows[id])
      && s'.log == s.log + (if io.publish.effect then [BuildStreamMessage(event)] else [])
      && var row' := s'.rows[event.id];
      && (io.publish.answer == Ok && io.complete.effect ==> row'.status == Processed)
      && (Recorded(io) && row.attempts < 5 ==> (Claimable(row', later) <==> later >= io.now + 5))
      && (Recorded(io) && row.attempts >= 5 ==> row'.status == Failed)
      && (!Recorded(io) && !(io.publish.answer == Ok && io.complete.effect) ==> row' == row)
  {
    if Recorded(io) {
      FailRetries(s.rows[event.id], io.now, later);
    }
  }

  /** The last await about an event came back: its completion, or the record of a failure. */
  predicate ComesBack(io: EventIO) {
    || (io.publish.answer == Ok && io.complete.answer == Ok)
    || (io.fail.answer == Ok
        && (io.publish.answer == Raises || (io.publish.answer == Ok && io.complete.answer == Raises)))
  }

  /** A batch reports its size exactly when that holds for each of its events. */
  lemma {:induction false} FinishesExactly(s: Store, events: seq<Event>, ios: seq<EventIO>)
    requires |events| == |ios|
    ensures ProcessAll(s, events, ios).1 <==> forall i :: 0 <= i < |ios| ==> ComesBack(ios[i])
    decreases |events|
  {
    if events != [] && ComesBack(ios[0]) {
      FinishesExactly(ProcessEvent(s, events[0], ios[0]).0, events[1..], ios[1..]);
    }
  }

  // ---------------------------------------------------------------- one batch is one such run

  function EventActions(worker: nat, io: EventIO): (r: seq<Action>)
    ensures r != []
  {
    var giveUp := [GiveUp(worker, io.fail, io.now)];
    [Send(worker, io.publish)] +
    match io.publish.answer
    case Dies => []
    case Raises => giveUp
    case Ok => [Finish(worker, io.complete)] + if io.complete.answer == Raises then giveUp else []
  }

  function BatchActions(s: Store, worker: nat, events: seq<Event>, ios: seq<EventIO>): seq<Action>
    requires |events| == |ios|
    decreases |events|
  {
    if events == [] then []
    else
      var (s1, goesOn) := ProcessEvent(s, events[0], ios[0]);
      EventActions(worker, ios[0]) + if goesOn then BatchActions(s1, worker, events[1..], ios[1..]) else []
  }

  lemma {:induction false} RunsCompose(s: Sys, a: seq<Action>, b: seq<Action>)
    requires Runs(s, a) && Runs(After(s, a), b)
    ensures Runs(s, a + b) && After(s, a + b) == After(After(s, a), b)
    decreases |a|
  {
    if a == [] {
      assert a + b == b;
    } else {
      RunsCompose(Do(s, a[0]), a[1..], b);
      assert (a + b)[1..] == a[1..] + b;
    }
  }

  lemma OneAction(s: Sys, action: Action)
    requires Enabled(s, action)
    ensures Runs(s, [action]) && After(s, [action]) == Do(s, action)
  {
    assert Runs(Do(s, action), [action][1..]);
  }

  lemma EventIsARun(s: Sys, worker: nat, io: EventIO)
    requires AtPhase(s, worker, Publishing) && HonestIO(io)
    ensures Runs(s, EventActions(worker, io))
    ensures var (store, goesOn) := ProcessEvent(s.store, s.workers[worker].events[0], io);
      After(s, EventActions(worker, io)) ==
      Sys(store, s.workers[worker := if goesOn then NextEvent(s.workers[worker]) else Idle])
  {
    var send, finish, giveUp := Send(worker, io.publish), Finish(worker, io.complete), GiveUp(worker, io.fail, io.now);
    var s1 := Do(s, send);
    OneAction(s, send);
    match io.publish.answer
    case Dies =>
      assert EventActions(worker, io) == [send];
    case Raises =>
      OneAction(s1, giveUp);
      RunsCompose(s, [send], [giveUp]);
    case Ok =>
      var s2 := Do(s1, finish);
      OneAction(s1, finish);
      RunsCompose(s, [send], [finish]);
      if io.complete.answer == Raises {
        OneAction(s2, giveUp);
        RunsCompose(s, [send] + [finish], [giveUp]);
        assert EventActions(worker, io) == [send] + [finish] + [giveUp];
      } else {
        assert EventActions(worker, io) == [send] + [finish];
      }
  }

  /** Once its rows are claimed, a batch is a run of its worker's actions: what holds of every
      interleaving of actions holds of every call of `ProcessOnce`. */
  lemma {:induction false} BatchIsARun(s: Sys, worker: nat, events: seq<Event>, ios: seq<EventIO>)
    requires |events| == |ios| && events != [] && forall io :: io in ios ==> HonestIO(io)
    requires worker in s.workers && s.workers[worker] == Busy(events, Publishing)
    ensures Runs(s, BatchActions(s.store, worker, events, ios))
    ensures After(s, BatchActions(s.store, worker, events, ios)) ==
            Sys(ProcessAll(s.store, events, ios).0, s.workers[worker := Idle])
    decreases |events|
  {
    var (store, goesOn) := ProcessEvent(s.store, events[0], ios[0]);
    EventIsARun(s, worker, ios[0]);
    var s1 := After(s, EventActions(worker, ios[0]));
    if goesOn && |events| > 1 {
      BatchIsARun(s1, worker, events[1..], ios[1..]);
      RunsCompose(s, EventActions(worker, ios[0]), BatchActions(store, worker, events[1..], ios[1..]));
      assert s1.workers[worker := Idle] == s.workers[worker := Idle];
    } else {
      assert BatchActions(s.store, worker, events, ios) == EventActions(worker, ios[0]);
    }
  }
}
