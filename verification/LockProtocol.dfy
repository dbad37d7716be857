/** Many transactions taking row locks one at a time, each holding what it took until it ends. */
module LockProtocol {
  import opened Locking
  import opened Ordering

  /** What a transaction will lock, in order, and how far it got. */
  datatype Txn = Txn(plan: seq<Lock>, taken: nat)

  type Live = map<nat, Txn>

  predicate Holds(t: Txn, lock: Lock) {
    t.taken <= |t.plan| && lock in t.plan[..t.taken]
  }

  /** Every request is for a row the transaction already holds, or comes after all it holds. */
  predicate InOrder(plan: seq<Lock>) {
    forall i :: 0 <= i < |plan| ==>
      plan[i] in plan[..i] || forall j :: 0 <= j < i ==> plan[j].Before(plan[i])
  }

  predicate Waits(live: Live, t: nat, u: nat) {
    t in live && u in live && t != u &&
    live[t].taken < |live[t].plan| && Holds(live[u], live[t].plan[live[t].taken])
  }

  predicate Blocked(live: Live, t: nat) {
    exists u :: u in live && Waits(live, t, u)
  }

  datatype Step = Begin(txn: nat, plan: seq<Lock>) | Take(txn: nat) | End(txn: nat)

  /** A transaction may end at any time: it commits after its last lock, or it raised. */
  predicate Enabled(live: Live, step: Step) {
    match step
    case Begin(t, plan) => t !in live && InOrder(plan)
    case Take(t) => t in live && live[t].taken < |live[t].plan| && !Blocked(live, t)
    case End(t) => t in live
  }

  function Do(live: Live, step: Step): Live
    requires Enabled(live, step)
  {
    match step
    case Begin(t, plan) => live[t := Txn(plan, 0)]
    case Take(t) => live[t := live[t].(taken := live[t].taken + 1)]
    case End(t) => live - {t}
  }

  ghost predicate Inv(live: Live) {
    (forall t :: t in live ==> live[t].taken <= |live[t].plan| && InOrder(live[t].plan)) &&
    forall t, u, lock :: t in live && u in live && t != u && Holds(live[t], lock) ==> !Holds(live[u], lock)
  }

  /** No row is ever locked by two transactions. */
  lemma StepKeeps(live: Live, step: Step)
    requires Inv(live) && Enabled(live, step)
    ensures Inv(Do(live, step))
  {
    if step.Take? {
      var t := step.txn;
      var live', n := Do(live, step), live[t].taken;
      forall u | u in live && u != t ensures !Holds(live[u], live[t].plan[n]) {
        assert !Waits(live, t, u);
      }
      forall a, b, lock | a in live' && b in live' && a != b && Holds(live'[a], lock) ensures !Holds(live'[b], lock) {
        TakenOne(live[t], lock);
      }
    }
  }

  lemma TakenOne(t: Txn, lock: Lock)
    requires t.taken < |t.plan|
    ensures Holds(t.(taken := t.taken + 1), lock) <==> Holds(t, lock) || lock == t.plan[t.taken]
  {
    assert t.plan[..t.taken + 1] == t.plan[..t.taken] + [t.plan[t.taken]];
  }

  // ---------------------------------------------------------------- no deadlock

  ghost predicate WaitsWithin(live: Live, stuck: set<nat>, t: nat) {
    exists u :: u in stuck && Waits(live, t, u)
  }

  /** A set of transactions each waiting for a row that another of them holds. */
  ghost predicate Deadlock(live: Live, stuck: set<nat>) {
    stuck != {} && forall t {:trigger WaitsWithin(live, stuck, t)} :: t in stuck ==> WaitsWithin(live, stuck, t)
  }

  function Wanted(live: Live, t: nat): Lock
    requires t in live && live[t].taken < |live[t].plan|
  {
    live[t].plan[live[t].taken]
  }

  ghost predicate Waiting(live: Live, ts: set<nat>) {
    forall t :: t in ts ==> t in live && live[t].taken < |live[t].plan|
  }

  /** Among waiting transactions, one wants a row that comes at least as late as any other's. */
  lemma {:induction false} LastWanted(live: Live, ts: set<nat>) returns (t: nat)
    requires ts != {} && Waiting(live, ts)
    ensures t in ts && forall u :: u in ts ==> !Wanted(live, t).Before(Wanted(live, u))
    decreases |ts|
  {
    t :| t in ts;
    if ts != {t} {
      var u := LastWanted(live, ts - {t});
      assert forall v :: v in ts ==> v == t || v in ts - {t};
      if Wanted(live, t).Before(Wanted(live, u)) {
        t := u;
      }
    }
  }

  /** A transaction that waits while holding a row wants a later one. */
  lemma WantsLater(live: Live, t: nat, u: nat, lock: Lock)
    requires Inv(live) && Waits(live, t, u) && Holds(live[t], lock)
    ensures lock.Before(Wanted(live, t))
  {
    var plan, n := live[t].plan, live[t].taken;
    assert plan[n] !in plan[..n] by {
      assert Holds(live[u], plan[n]);
      assert !Holds(live[t], plan[n]);
    }
  }

  lemma WaitingClimbs(live: Live, t: nat, u: nat, v: nat)
    requires Inv(live) && Waits(live, t, u) && Waits(live, u, v)
    ensures Wanted(live, t).Before(Wanted(live, u))
  {
    WantsLater(live, u, v, Wanted(live, t));
  }

  /** Locks taken in the protocol's order never deadlock. */
  lemma NoDeadlock(live: Live, stuck: set<nat>)
    requires Inv(live)
    ensures !Deadlock(live, stuck)
  {
    if Deadlock(live, stuck) {
      forall t | t in stuck ensures t in live && live[t].taken < |live[t].plan| {
        assert WaitsWithin(live, stuck, t);
      }
      var t := LastWanted(live, stuck);
      assert WaitsWithin(live, stuck, t);
      var u :| u in stuck && Waits(live, t, u);
      assert WaitsWithin(live, stuck, u);
      var v :| v in stuck && Waits(live, u, v);
      WaitingClimbs(live, t, u, v);
    }
  }

  predicate CanMove(live: Live, t: nat)
    requires t in live
  {
    live[t].taken == |live[t].plan| || Enabled(live, Take(t))
  }

  /** While any transaction is alive, one of them can take its next lock or commit. */
  lemma Progress(live: Live)
    requires Inv(live) && live != map[]
    ensures exists t {:trigger CanMove(live, t)} :: t in live && CanMove(live, t)
  {
    if !exists t {:trigger CanMove(live, t)} :: t in live && CanMove(live, t) {
      AllStuck(live);
      NoDeadlock(live, live.Keys);
    }
  }

  lemma AllStuck(live: Live)
    requires Inv(live) && live != map[] && forall t {:trigger CanMove(live, t)} :: t in live ==> !CanMove(live, t)
    ensures Deadlock(live, live.Keys)
  {
    forall t | t in live.Keys ensures WaitsWithin(live, live.Keys, t) {
      assert !CanMove(live, t);
      StuckWaits(live, t);
    }
  }

  lemma StuckWaits(live: Live, t: nat)
    requires Inv(live) && t in live && !CanMove(live, t)
    ensures WaitsWithin(live, live.Keys, t)
  {
    assert live[t].taken < |live[t].plan|;
    assert Blocked(live, t);
    var u :| u in live && Waits(live, t, u);
    assert u in live.Keys && Waits(live, t, u);
  }

  // ---------------------------------------------------------------- everyone finishes

  function Left(t: Txn): nat {
    if t.taken <= |t.plan| then |t.plan| - t.taken + 1 else 1
  }

  ghost function Work(live: Live): nat
    decreases |live|
  {
    if live == map[] then 0
    else
      var t :| t in live;
      Left(live[t]) + Work(live - {t})
  }

  lemma {:induction false} WorkWithout(live: Live, t: nat)
    requires t in live
    ensures Work(live) == Left(live[t]) + Work(live - {t})
    decreases |live|
  {
    var u :| u in live && Work(live) == Left(live[u]) + Work(live - {u});
    if u != t {
      WorkWithout(live - {u}, t);
      WorkWithout(live - {t}, u);
      assert live - {u} - {t} == live - {t} - {u};
    }
  }

  /** Every step other than a new arrival uses up work. */
  lemma WorkDecreases(live: Live, step: Step)
    requires Inv(live) && Enabled(live, step) && !step.Begin?
    ensures Work(Do(live, step)) < Work(live)
  {
    WorkWithout(live, step.txn);
    if step.Take? {
      var live' := Do(live, step);
      WorkWithout(live', step.txn);
      assert live' - {step.txn} == live - {step.txn};
    }
  }

  ghost predicate Runs(live: Live, steps: seq<Step>)
    decreases |steps|
  {
    steps == [] || (Enabled(live, steps[0]) && Runs(Do(live, steps[0]), steps[1..]))
  }

  ghost function After(live: Live, steps: seq<Step>): Live
    requires Runs(live, steps)
    decreases |steps|
  {
    if steps == [] then live else After(Do(live, steps[0]), steps[1..])
  }

  /** Every run keeps the invariant; without new arrivals it is no longer than the work left, and
      where it cannot be extended every transaction has finished. */
  lemma {:induction false} EveryRunFinishes(live: Live, steps: seq<Step>)
    requires Inv(live) && Runs(live, steps)
    ensures Inv(After(live, steps))
    ensures (forall s :: s in steps ==> !s.Begin?) ==> |steps| + Work(After(live, steps)) <= Work(live)
    ensures (forall t {:trigger CanMove(After(live, steps), t)} ::
               t in After(live, steps) ==> !CanMove(After(live, steps), t)) ==> After(live, steps) == map[]
    decreases |steps|
  {
    if steps == [] {
      if live != map[] {
        Progress(live);
      }
    } else {
      StepKeeps(live, steps[0]);
      EveryRunFinishes(Do(live, steps[0]), steps[1..]);
      assert steps[0] in steps;
      if forall s :: s in steps ==> !s.Begin? {
        WorkDecreases(live, steps[0]);
        assert forall s :: s in steps[1..] ==> s in steps;
      }
    }
  }

  function Takes(t: nat, n: nat): seq<Step> {
    if n == 0 then [] else [Take(t)] + Takes(t, n - 1)
  }

  /** Nobody else holds a row of the plan. */
  ghost predicate Free(live: Live, t: nat, plan: seq<Lock>) {
    forall u, lock :: u in live && u != t && lock in plan ==> !Holds(live[u], lock)
  }

  lemma {:induction false} TakesTheRest(live: Live, t: nat, n: nat)
    requires t in live && live[t].taken + n == |live[t].plan| && Free(live, t, live[t].plan)
    ensures Runs(live, Takes(t, n)) && After(live, Takes(t, n)) == live[t := Txn(live[t].plan, |live[t].plan|)]
    decreases n
  {
    if n > 0 {
      assert live[t].plan[live[t].taken] in live[t].plan;
      TakesTheRest(Do(live, Take(t)), t, n - 1);
      assert Takes(t, n)[0] == Take(t) && Takes(t, n)[1..] == Takes(t, n - 1);
    } else {
      assert live == live[t := Txn(live[t].plan, |live[t].plan|)];
    }
  }

  /** A transaction whose rows nobody holds can begin and take them all, one after the other. */
  lemma StartsAlone(live: Live, t: nat, plan: seq<Lock>)
    requires t !in live && InOrder(plan) && Free(live, t, plan)
    ensures var steps := [Begin(t, plan)] + Takes(t, |plan|);
      Runs(live, steps) && After(live, steps) == live[t := Txn(plan, |plan|)]
  {
    var steps := [Begin(t, plan)] + Takes(t, |plan|);
    TakesTheRest(Do(live, Begin(t, plan)), t, |plan|);
    assert steps[0] == Begin(t, plan) && steps[1..] == Takes(t, |plan|);
  }

  // ---------------------------------------------------------------- the helpers keep the order

  /** What a transaction locks, each call finding the rows as they are then. A call that raises ends it. */
  function PlanOf(ts: seq<Tables>, calls: seq<Call>): seq<Lock>
    requires |ts| == |calls|
    decreases |calls|
  {
    if |calls| == 0 then []
    else
      LocksOf(ts[0], calls[0]) + if Succeeds(ts[0], calls[0]) then PlanOf(ts[1..], calls[1..]) else []
  }

  /** The columns that decide what is locked next; they are constant in a match. */
  predicate SameRow(t: Tables, t': Tables, lock: Lock) {
    match lock
    case StageLock(id) => id in t.stages && id in t'.stages && t.stages[id] == t'.stages[id]
    case VersionLock(id) =>
      && id in t.versions && id in t'.versions
      && t.versions[id].organization == t'.versions[id].organization
      && t.versions[id].tournament == t'.versions[id].tournament
    case MatchLock(id) => id in t.matches && id in t'.matches && t.matches[id] == t'.matches[id]
  }

  /** Others cannot change a row while the transaction holds its lock. */
  predicate HeldRowsStay(ts: seq<Tables>, calls: seq<Call>)
    requires |ts| == |calls|
  {
    forall i, j :: 0 <= i < j < |calls| ==> RowsStay(ts[i], ts[j], calls[i])
  }

  predicate RowsStay(t: Tables, t': Tables, call: Call) {
    forall lock :: lock in LocksOf(t, call) ==> SameRow(t, t', lock)
  }

  /** The shapes the protocol allows: a stage with its version, then one batch of matches; one of these alone; or
      one version alone. After that, calls already made may be made again, any number of times. */
  predicate Protocol(calls: seq<Call>) {
    Opening(calls, 0) || Opening(calls, 1) || Opening(calls, 2)
  }

  predicate Opening(calls: seq<Call>, k: nat)
    requires k <= 2
  {
    && k <= |calls|
    && (k == 2 ==> calls[0].StageAndVersion? && calls[1].Matches?)
    && forall j :: k <= j < |calls| ==> calls[j] in calls[..k]
  }

  /** Every call can stand alone, a stage with its version can be followed by a batch of matches, and then either can
      be made again. */
  lemma ShapesOfTheProtocol(first: Call, second: Call, again: Call)
    ensures Protocol([first]) && Protocol([first, first])
    ensures first.StageAndVersion? && second.Matches? ==>
      Protocol([first, second]) && (again in {first, second} ==> Protocol([first, second, again]))
  {
    assert Opening([first], 1);
    assert Opening([first, first], 1) by {
      assert [first, first][..1] == [first];
    }
    if first.StageAndVersion? && second.Matches? {
      assert Opening([first, second], 2);
      if again in {first, second} {
        assert [first, second, again][..2] == [first, second] && again in [first, second];
        assert Opening([first, second, again], 2);
      }
    }
  }

  ghost predicate Climbs(plan: seq<Lock>) {
    forall i, j :: 0 <= i < j < |plan| ==> plan[i].Before(plan[j])
  }

  lemma OneCallClimbs(t: Tables, call: Call)
    ensures Climbs(LocksOf(t, call))
    ensures call.Matches? ==> forall lock :: lock in LocksOf(t, call) ==> lock.MatchLock?
    ensures call.StageAndVersion? ==> forall lock :: lock in LocksOf(t, call) ==> !lock.MatchLock?
  {
    if call.Matches? {
      var ids := OrderById(Found(t, call.organization, call.ids));
      assert LocksOf(t, call) == MatchLocks(ids);
      assert Ascending(ids);
    }
  }

  lemma ClimbingIsInOrder(plan: seq<Lock>)
    requires Climbs(plan)
    ensures InOrder(plan)
  {
  }

  /** Asking again for rows that are held keeps the order. */
  lemma HeldAgain(plan: seq<Lock>, more: seq<Lock>)
    requires InOrder(plan) && forall lock :: lock in more ==> lock in plan
    ensures InOrder(plan + more)
  {
    var all := plan + more;
    forall i | 0 <= i < |all|
      ensures all[i] in all[..i] || forall j :: 0 <= j < i ==> all[j].Before(all[i])
    {
      if i < |plan| {
        assert all[i] == plan[i] && all[..i] == plan[..i];
      } else {
        assert all[i] in more && all[i] in plan;
        var k :| 0 <= k < |plan| && plan[k] == all[i];
        assert all[..i][k] == all[i];
      }
    }
  }

  /** A call that is made again finds the same rows. */
  lemma SameLocksAgain(t: Tables, t': Tables, call: Call)
    requires Succeeds(t, call) && RowsStay(t, t', call)
    ensures LocksOf(t', call) == LocksOf(t, call)
  {
    match call
    case StageAndVersion(organization, tournament, stage) =>
      assert StageLock(stage) in LocksOf(t, call);
      assert VersionLock(t.stages[stage].version) in LocksOf(t, call);
    case VersionOnly(organization, within, version) =>
      assert VersionLock(version) in LocksOf(t, call);
    case Matches(organization, ids) =>
      SameMatchesAgain(t, t', organization, ids);
  }

  lemma SameMatchesAgain(t: Tables, t': Tables, organization: nat, ids: seq<nat>)
    requires AllFound(t, organization, ids)
    requires RowsStay(t, t', Matches(organization, ids))
    ensures Found(t', organization, ids) == Found(t, organization, ids)
  {
    var found := OrderById(Found(t, organization, ids));
    forall id | id in ids ensures id in t'.matches && t'.matches[id] == organization {
      assert id in Found(t, organization, ids) && id in found;
      var k :| 0 <= k < |found| && found[k] == id;
      assert MatchLocks(found)[k] == MatchLock(id);
      assert SameRow(t, t', MatchLock(id));
    }
  }

  ghost predicate LocksIn(t: Tables, call: Call, held: seq<Lock>) {
    forall lock :: lock in LocksOf(t, call) ==> lock in held
  }

  lemma {:induction false} PlanIn(ts: seq<Tables>, calls: seq<Call>, n: nat, held: seq<Lock>)
    requires |ts| == |calls| && n <= |calls|
    requires forall j :: n <= j < |calls| ==> LocksIn(ts[j], calls[j], held)
    ensures forall lock :: lock in PlanOf(ts[n..], calls[n..]) ==> lock in held
    decreases |calls| - n
  {
    if n < |calls| {
      PlanIn(ts, calls, n + 1, held);
      assert ts[n..][1..] == ts[n + 1..] && calls[n..][1..] == calls[n + 1..];
      assert LocksIn(ts[n], calls[n], held);
    }
  }

  /** The later calls lock nothing that the first ones have not locked. */
  lemma RepeatIsHeld(ts: seq<Tables>, calls: seq<Call>, k: nat, n: nat, held: seq<Lock>)
    requires |ts| == |calls| && k <= n < |calls| && HeldRowsStay(ts, calls) && calls[n] in calls[..k]
    requires forall i :: 0 <= i < k ==> Succeeds(ts[i], calls[i]) && LocksIn(ts[i], calls[i], held)
    ensures LocksIn(ts[n], calls[n], held)
  {
    var i :| 0 <= i < k && calls[..k][i] == calls[n];
    SameLocksAgain(ts[i], ts[n], calls[i]);
    assert LocksIn(ts[i], calls[i], held);
  }

  lemma RepeatsLockNothing(ts: seq<Tables>, calls: seq<Call>, k: nat, held: seq<Lock>)
    requires |ts| == |calls| && k <= |calls| && HeldRowsStay(ts, calls)
    requires forall j :: k <= j < |calls| ==> calls[j] in calls[..k]
    requires forall i :: 0 <= i < k ==> Succeeds(ts[i], calls[i]) && LocksIn(ts[i], calls[i], held)
    ensures forall lock :: lock in PlanOf(ts[k..], calls[k..]) ==> lock in held
  {
    forall j | k <= j < |calls| ensures LocksIn(ts[j], calls[j], held) {
      RepeatIsHeld(ts, calls, k, j, held);
    }
    PlanIn(ts, calls, k, held);
  }

  lemma ClimbsTogether(first: seq<Lock>, matches: seq<Lock>)
    requires Climbs(first) && Climbs(matches)
    requires (forall lock :: lock in first ==> !lock.MatchLock?) && forall lock :: lock in matches ==> lock.MatchLock?
    ensures Climbs(first + matches)
  {
    var both := first + matches;
    forall i, j | 0 <= i < j < |both| ensures both[i].Before(both[j]) {
      if i < |first| <= j {
        assert both[i] in first && both[j] == matches[j - |first|] && both[j] in matches;
      }
    }
  }

  /** Operations built from the helpers in the documented order request their locks in order, also
      when calls are made again for rows that are already held. */
  lemma ProtocolIsInOrder(ts: seq<Tables>, calls: seq<Call>)
    requires |ts| == |calls| && Protocol(calls) && HeldRowsStay(ts, calls)
    ensures InOrder(PlanOf(ts, calls))
  {
    if |calls| > 0 {
      if Opening(calls, 1) {
        OpensWithOne(ts, calls);
      } else {
        OpensWithTwo(ts, calls);
      }
    }
  }

  lemma OpensWithOne(ts: seq<Tables>, calls: seq<Call>)
    requires |ts| == |calls| > 0 && Opening(calls, 1) && HeldRowsStay(ts, calls)
    ensures InOrder(PlanOf(ts, calls))
  {
    var a := LocksOf(ts[0], calls[0]);
    OneCallClimbs(ts[0], calls[0]);
    ClimbingIsInOrder(a);
    if Succeeds(ts[0], calls[0]) {
      RepeatsLockNothing(ts, calls, 1, a);
      HeldAgain(a, PlanOf(ts[1..], calls[1..]));
    } else {
      assert PlanOf(ts, calls) == a;
    }
  }

  lemma OpensWithTwo(ts: seq<Tables>, calls: seq<Call>)
    requires |ts| == |calls| >= 2 && Opening(calls, 2) && HeldRowsStay(ts, calls)
    ensures InOrder(PlanOf(ts, calls))
  {
    var a, b := LocksOf(ts[0], calls[0]), LocksOf(ts[1], calls[1]);
    OneCallClimbs(ts[0], calls[0]);
    OneCallClimbs(ts[1], calls[1]);
    ClimbsTogether(a, b);
    ClimbingIsInOrder(a);
    ClimbingIsInOrder(a + b);
    PlanOfTwo(ts, calls);
    if Succeeds(ts[0], calls[0]) && Succeeds(ts[1], calls[1]) {
      RepeatsLockNothing(ts, calls, 2, a + b);
      HeldAgain(a + b, PlanOf(ts[2..], calls[2..]));
    }
  }

  /** What the first two calls lock, and what comes after them. */
  lemma PlanOfTwo(ts: seq<Tables>, calls: seq<Call>)
    requires |ts| == |calls| >= 2
    ensures var a, b := LocksOf(ts[0], calls[0]), LocksOf(ts[1], calls[1]);
      PlanOf(ts, calls) ==
        if !Succeeds(ts[0], calls[0]) then a
        else if !Succeeds(ts[1], calls[1]) then a + b
        else a + b + PlanOf(ts[2..], calls[2..])
  {
    assert ts[1..][1..] == ts[2..] && calls[1..][1..] == calls[2..];
  }

  lemma CrossedPlansDeadlock(a: Lock, b: Lock)
    requires a != b
    ensures Deadlock(map[1 := Txn([a, b], 1), 2 := Txn([b, a], 1)], {1, 2})
    ensures !(InOrder([a, b]) && InOrder([b, a]))
  {
    var live := map[1 := Txn([a, b], 1), 2 := Txn([b, a], 1)];
    assert live[1].plan[..1] == [a] && live[2].plan[..1] == [b];
    assert Waits(live, 1, 2) && Waits(live, 2, 1);
    assert WaitsWithin(live, {1, 2}, 1) && WaitsWithin(live, {1, 2}, 2);
    assert [a, b][1] == b && [b, a][1] == a && [a, b][0] == a && [b, a][0] == b;
  }

  lemma OneMatch(t: Tables, organization: nat, id: nat)
    requires Found(t, organization, [id]) == {id}
    ensures LocksOf(t, Matches(organization, [id])) == [MatchLock(id)]
  {
    var ids := OrderById(Found(t, organization, [id]));
    assert id in ids;
    SizeOfDistinct(ids);
    assert Elements(ids) == {id};
  }

  lemma TwoBatches(t: Tables, organization: nat, a: nat, b: nat)
    requires Found(t, organization, [a]) == {a} && Found(t, organization, [b]) == {b}
    ensures PlanOf([t, t], [Matches(organization, [a]), Matches(organization, [b])]) == [MatchLock(a), MatchLock(b)]
  {
    OneMatch(t, organization, a);
    OneMatch(t, organization, b);
    assert a in Found(t, organization, [a]) && b in Found(t, organization, [b]);
    var calls := [Matches(organization, [a]), Matches(organization, [b])];
    PlanOfTwo([t, t], calls);
    assert PlanOf([t, t][2..], calls[2..]) == [];
  }

  /** The order is needed: two batches of matches per transaction can deadlock, although each batch
      is ascending. */
  lemma TwoBatchesDeadlock(t: Tables, organization: nat, a: nat, b: nat)
    requires a != b && Found(t, organization, [a]) == {a} && Found(t, organization, [b]) == {b}
    ensures var first, second := Matches(organization, [a]), Matches(organization, [b]);
      Deadlock(map[1 := Txn(PlanOf([t, t], [first, second]), 1), 2 := Txn(PlanOf([t, t], [second, first]), 1)], {1, 2})
    ensures !(InOrder([MatchLock(a), MatchLock(b)]) && InOrder([MatchLock(b), MatchLock(a)]))
  {
    TwoBatches(t, organization, a, b);
    TwoBatches(t, organization, b, a);
    CrossedPlansDeadlock(MatchLock(a), MatchLock(b));
  }
}
