/** The gate in front of the realtime channel: what it lets through, holds and aborts, and whom it wakes. */
module ChannelGate {
  import opened Wrappers

  datatype Mode = Pass | Hold | Abort

  datatype Record = Record(at: int, channel: bool)

  datatype Waiter = Waiter(id: nat, after: int)

  /** How a wait ended: with the instant of some activity, with its timeout, or with the gate. */
  datatype Exit = At(instant: int) | TimedOut | Disposed

  datatype Event =
    | SetMode(mode: Mode)
    | Request(at: int, channel: bool)
    | Http(route: nat)
    | Handshake(socket: nat, at: int, connects: bool)
    | Wait(after: int)
    | Timer(waiter: nat)
    | ReleaseHeld
    | Unblock
    | DiscardHandshakes
    | CloseTransport
    | DropWaiters

  /** The fields of the gate, and below them what has happened so far. */
  datatype State = State(
    mode: Mode, established: nat, blocked: nat, rejected: nat, lastUsable: Option<nat>, lastActivity: Option<int>,
    requests: seq<Record>, held: seq<nat>, handshakes: seq<nat>, waiters: seq<Waiter>,
    past: Past)

  datatype Past = Past(
    released: seq<nat>, aborted: seq<nat>, activity: seq<int>, waits: seq<int>, exits: map<nat, Exit>)

  const INITIAL := State(Pass, 0, 0, 0, None, None, [], [], [], [], Past([], [], [], [], map[]))

  // ---------------------------------------------------------------- one event

  function Later(last: Option<int>, at: int): Option<int> {
    if last.None? || at > last.value then Some(at) else last
  }

  /** The waiters that activity at `at` does not wake. */
  function Asleep(waiters: seq<Waiter>, at: int): seq<Waiter> {
    if waiters == [] then []
    else
      var rest, w := Asleep(waiters[..|waiters| - 1], at), waiters[|waiters| - 1];
      if w.after <= at then rest else rest + [w]
  }

  function Woken(waiters: seq<Waiter>, at: int, exits: map<nat, Exit>): map<nat, Exit> {
    if waiters == [] then exits
    else
      var rest, w := Woken(waiters[..|waiters| - 1], at, exits), waiters[|waiters| - 1];
      if w.after <= at then rest[w.id := At(at)] else rest
  }

  function Activity(s: State, at: int): State {
    s.(lastActivity := Later(s.lastActivity, at),
       waiters := Asleep(s.waiters, at),
       past := s.past.(activity := s.past.activity + [at], exits := Woken(s.waiters, at, s.past.exits)))
  }

  function OnRequest(s: State, at: int, channel: bool): State {
    var t := s.(requests := s.requests + [Record(at, channel)]);
    if channel then Activity(t, at) else t
  }

  function OnHttp(s: State, route: nat): State {
    if s.mode == Pass then s
    else if s.mode == Hold then s.(blocked := s.blocked + 1, held := s.held + [route])
    else s.(blocked := s.blocked + 1, past := s.past.(aborted := s.past.aborted + [route]))
  }

  function OnHandshake(s: State, socket: nat, at: int, connects: bool): State {
    var t := Activity(s, at);
    if s.mode == Pass then
      t.(established := s.established + 1, lastUsable := if connects then Some(socket) else None)
    else t.(rejected := s.rejected + 1, handshakes := s.handshakes + [socket])
  }

  function FirstAfter(requests: seq<Record>, after: int): Option<int> {
    if requests == [] then None
    else if requests[0].channel && requests[0].at >= after then Some(requests[0].at)
    else FirstAfter(requests[1..], after)
  }

  function OnWait(s: State, after: int): State {
    var id, found := |s.past.waits|, FirstAfter(s.requests, after);
    var t := s.(past := s.past.(waits := s.past.waits + [after]));
    if found.Some? then t.(past := t.past.(exits := t.past.exits[id := At(found.value)]))
    else t.(waiters := s.waiters + [Waiter(id, after)])
  }

  function Others(waiters: seq<Waiter>, id: nat): seq<Waiter> {
    if waiters == [] then []
    else
      var rest, w := Others(waiters[..|waiters| - 1], id), waiters[|waiters| - 1];
      if w.id == id then rest else rest + [w]
  }

  predicate Waiting(waiters: seq<Waiter>, id: nat) {
    exists w :: w in waiters && w.id == id
  }

  /** The timer of a waiter that has left is cleared. */
  function OnTimer(s: State, id: nat): State {
    if !Waiting(s.waiters, id) then s
    else s.(waiters := Others(s.waiters, id), past := s.past.(exits := s.past.exits[id := TimedOut]))
  }

  function Release(s: State): State {
    s.(held := [], past := s.past.(released := s.past.released + s.held))
  }

  function AllDisposed(waiters: seq<Waiter>, exits: map<nat, Exit>): map<nat, Exit> {
    if waiters == [] then exits
    else AllDisposed(waiters[..|waiters| - 1], exits)[waiters[|waiters| - 1].id := Disposed]
  }

  function OnDropWaiters(s: State): State {
    s.(waiters := [], past := s.past.(exits := AllDisposed(s.waiters, s.past.exits)))
  }

  function Apply(s: State, e: Event): State {
    match e
    case SetMode(m) => s.(mode := m)
    case Request(at, channel) => OnRequest(s, at, channel)
    case Http(route) => OnHttp(s, route)
    case Handshake(socket, at, connects) => OnHandshake(s, socket, at, connects)
    case Wait(after) => OnWait(s, after)
    case Timer(id) => OnTimer(s, id)
    case ReleaseHeld => Release(s)
    case Unblock => Release(s.(mode := Pass))
    case DiscardHandshakes => s.(handshakes := [])
    case CloseTransport => s.(lastUsable := None)
    case DropWaiters => OnDropWaiters(s)
  }

  function Run(events: seq<Event>): State {
    if events == [] then INITIAL else Apply(Run(events[..|events| - 1]), events[|events| - 1])
  }

  // ---------------------------------------------------------------- what every run keeps

  predicate DistinctIds(waiters: seq<Waiter>) {
    forall i, j :: 0 <= i < j < |waiters| ==> waiters[i].id != waiters[j].id
  }

  /** Every wait that was started is either waiting, once, or over, and over with an instant it waited for. */
  predicate WaitsGood(waiters: seq<Waiter>, waits: seq<int>, exits: map<nat, Exit>) {
    && DistinctIds(waiters)
    && (forall w :: w in waiters ==> w.id < |waits| && waits[w.id] == w.after && w.id !in exits)
    && (forall id :: id in exits ==> id < |waits| && (exits[id].At? ==> exits[id].instant >= waits[id]))
    && (forall id: nat :: id < |waits| ==> id in exits || Waiting(waiters, id))
  }

  /** Nobody waits for something that has been seen. */
  predicate NobodyOversleeps(s: State) {
    forall w, r :: w in s.waiters && r in s.requests && r.channel ==> r.at < w.after
  }

  predicate LastActivityIsLatest(s: State) {
    && (s.lastActivity.None? <==> s.past.activity == [])
    && (s.lastActivity.Some? ==> s.lastActivity.value in s.past.activity)
    && forall a :: a in s.past.activity ==> s.lastActivity.Some? && a <= s.lastActivity.value
  }

  predicate Balanced(s: State) {
    s.blocked == |s.held| + |s.past.released| + |s.past.aborted|
  }

  lemma {:induction false} AsleepExactly(waiters: seq<Waiter>, at: int)
    ensures forall w :: w in Asleep(waiters, at) <==> w in waiters && w.after > at
    ensures DistinctIds(waiters) ==> DistinctIds(Asleep(waiters, at))
  {
    if waiters != [] {
      AsleepExactly(waiters[..|waiters| - 1], at);
      assert waiters == waiters[..|waiters| - 1] + [waiters[|waiters| - 1]];
    }
  }

  lemma {:induction false} WokenExactly(waiters: seq<Waiter>, at: int, exits: map<nat, Exit>)
    ensures forall id :: id in Woken(waiters, at, exits) <==>
      id in exits || exists w :: w in waiters && w.id == id && w.after <= at
    ensures forall id :: id in Woken(waiters, at, exits) ==>
      Woken(waiters, at, exits)[id] == (if exists w :: w in waiters && w.id == id && w.after <= at then At(at)
                                        else exits[id])
  {
    if waiters != [] {
      WokenExactly(waiters[..|waiters| - 1], at, exits);
      assert waiters == waiters[..|waiters| - 1] + [waiters[|waiters| - 1]];
    }
  }

  lemma {:induction false} OthersExactly(waiters: seq<Waiter>, id: nat)
    ensures forall w :: w in Others(waiters, id) <==> w in waiters && w.id != id
    ensures DistinctIds(waiters) ==> DistinctIds(Others(waiters, id))
  {
    if waiters != [] {
      OthersExactly(waiters[..|waiters| - 1], id);
      assert waiters == waiters[..|waiters| - 1] + [waiters[|waiters| - 1]];
    }
  }

  lemma {:induction false} AllDisposedExactly(waiters: seq<Waiter>, exits: map<nat, Exit>)
    ensures forall id :: id in AllDisposed(waiters, exits) <==> id in exits || Waiting(waiters, id)
    ensures forall id :: id in AllDisposed(waiters, exits) ==>
      AllDisposed(waiters, exits)[id] == if Waiting(waiters, id) then Disposed else exits[id]
  {
    if waiters != [] {
      AllDisposedExactly(waiters[..|waiters| - 1], exits);
      assert waiters == waiters[..|waiters| - 1] + [waiters[|waiters| - 1]];
    }
  }

  lemma LatestKept(s: State, e: Event)
    requires LastActivityIsLatest(s)
    ensures LastActivityIsLatest(Apply(s, e))
  {
    var t := Apply(s, e);
    assert t.past.activity == s.past.activity || t.past.activity == s.past.activity + [e.at];
  }

  /** Waiting and leaving exclude each other, and leaving is for good. */
  predicate ExitsStay(before: map<nat, Exit>, after: map<nat, Exit>) {
    forall id :: id in before ==> id in after && after[id] == before[id]
  }

  lemma WakingKeeps(waiters: seq<Waiter>, waits: seq<int>, exits: map<nat, Exit>, at: int)
    requires WaitsGood(waiters, waits, exits)
    ensures WaitsGood(Asleep(waiters, at), waits, Woken(waiters, at, exits))
    ensures ExitsStay(exits, Woken(waiters, at, exits))
  {
    AsleepExactly(waiters, at);
    WokenExactly(waiters, at, exits);
    var woken := Woken(waiters, at, exits);
    forall id: nat | id < |waits| ensures id in woken || Waiting(Asleep(waiters, at), id) {
      if id !in exits {
        var w :| w in waiters && w.id == id;
        assert w.after > at ==> w in Asleep(waiters, at);
      }
    }
    forall w, v | w in Asleep(waiters, at) && v in waiters && v.id == w.id ensures v == w {
    }
  }

  lemma OthersWaiting(waiters: seq<Waiter>, id: nat, other: nat)
    requires other != id && Waiting(waiters, other)
    ensures Waiting(Others(waiters, id), other)
  {
    OthersExactly(waiters, id);
    var w :| w in waiters && w.id == other;
    assert w in Others(waiters, id);
  }

  lemma TimerKeeps(waiters: seq<Waiter>, waits: seq<int>, exits: map<nat, Exit>, id: nat)
    requires WaitsGood(waiters, waits, exits) && Waiting(waiters, id)
    ensures WaitsGood(Others(waiters, id), waits, exits[id := TimedOut])
    ensures ExitsStay(exits, exits[id := TimedOut])
  {
    assert id < |waits| && id !in exits;
    forall x: nat | x < |waits| && x !in exits[id := TimedOut] ensures Waiting(Others(waiters, id), x) {
      OthersWaiting(waiters, id, x);
    }
    OthersExactly(waiters, id);
  }

  lemma DroppingKeeps(waiters: seq<Waiter>, waits: seq<int>, exits: map<nat, Exit>)
    requires WaitsGood(waiters, waits, exits)
    ensures WaitsGood([], waits, AllDisposed(waiters, exits))
    ensures ExitsStay(exits, AllDisposed(waiters, exits))
  {
    AllDisposedExactly(waiters, exits);
  }

  lemma {:induction false} FirstAfterIsLate(requests: seq<Record>, after: int)
    ensures FirstAfter(requests, after).Some? ==> FirstAfter(requests, after).value >= after
    ensures FirstAfter(requests, after).None? ==> forall r :: r in requests && r.channel ==> r.at < after
  {
    if requests != [] {
      FirstAfterIsLate(requests[1..], after);
      assert forall r :: r in requests ==> r == requests[0] || r in requests[1..];
    }
  }

  lemma StartingKeeps(s: State, after: int)
    requires WaitsGood(s.waiters, s.past.waits, s.past.exits)
    ensures var t := OnWait(s, after);
      WaitsGood(t.waiters, t.past.waits, t.past.exits) && ExitsStay(s.past.exits, t.past.exits)
  {
    FirstAfterIsLate(s.requests, after);
    var t, next := OnWait(s, after), |s.past.waits|;
    assert next !in s.past.exits;
    forall id: nat | id < |t.past.waits| ensures id in t.past.exits || Waiting(t.waiters, id) {
      if id < next {
        if id !in s.past.exits {
          var w :| w in s.waiters && w.id == id;
          assert w in t.waiters;
        }
      } else {
        assert t.waiters != s.waiters ==> Waiter(id, after) in t.waiters;
      }
    }
  }

  lemma WaitsKept(s: State, e: Event)
    requires WaitsGood(s.waiters, s.past.waits, s.past.exits)
    ensures var t := Apply(s, e);
      WaitsGood(t.waiters, t.past.waits, t.past.exits) && ExitsStay(s.past.exits, t.past.exits)
  {
    match e
    case Request(at, channel) => WakingKeeps(s.waiters, s.past.waits, s.past.exits, at);
    case Handshake(_, at, _) => WakingKeeps(s.waiters, s.past.waits, s.past.exits, at);
    case Wait(after) => StartingKeeps(s, after);
    case Timer(id) => if Waiting(s.waiters, id) { TimerKeeps(s.waiters, s.past.waits, s.past.exits, id); }
    case DropWaiters => DroppingKeeps(s.waiters, s.past.waits, s.past.exits);
    case _ =>
  }

  lemma NobodyOversleepsKept(s: State, e: Event)
    requires NobodyOversleeps(s)
    ensures NobodyOversleeps(Apply(s, e))
  {
    match e
    case Request(at, channel) => AsleepExactly(s.waiters, at);
    case Handshake(_, at, _) => AsleepExactly(s.waiters, at);
    case Wait(after) => FirstAfterIsLate(s.requests, after);
    case Timer(id) => OthersExactly(s.waiters, id);
    case _ =>
  }

  predicate Good(s: State) {
    && Balanced(s) && WaitsGood(s.waiters, s.past.waits, s.past.exits)
    && NobodyOversleeps(s) && LastActivityIsLatest(s)
  }

  /** Whatever happens and in whatever order: blocked requests are held, released or aborted; a wait leaves at
      most once, with an instant it waited for unless it timed out or was disposed of; and nobody keeps waiting
      for a request that has been seen. */
  lemma {:induction false} EveryRunIsGood(events: seq<Event>)
    ensures Good(Run(events))
  {
    if events != [] {
      var s, e := Run(events[..|events| - 1]), events[|events| - 1];
      EveryRunIsGood(events[..|events| - 1]);
      LatestKept(s, e);
      WaitsKept(s, e);
      NobodyOversleepsKept(s, e);
    }
  }

  /** What a wait left with never changes as the run goes on. */
  lemma {:induction false} ExitsAreFinal(events: seq<Event>, more: seq<Event>)
    ensures ExitsStay(Run(events).past.exits, Run(events + more).past.exits)
    decreases |more|
  {
    if more == [] {
      assert events + more == events;
    } else {
      var rest := events + more[..|more| - 1];
      assert (events + more)[..|events + more| - 1] == rest;
      ExitsAreFinal(events, more[..|more| - 1]);
      EveryRunIsGood(rest);
      WaitsKept(Run(rest), more[|more| - 1]);
    }
  }

  // ---------------------------------------------------------------- connections

  /** The mode an event finds: the last one set, or `Pass` since the last unblocking. */
  function ModeAfter(events: seq<Event>): Mode {
    if events == [] then Pass
    else match events[|events| - 1]
      case SetMode(mode) => mode
      case Unblock => Pass
      case _ => ModeAfter(events[..|events| - 1])
  }

  function HandshakesSeen(events: seq<Event>, pass: bool): nat {
    if events == [] then 0
    else
      var rest := events[..|events| - 1];
      HandshakesSeen(rest, pass) +
      if events[|events| - 1].Handshake? && (ModeAfter(rest) == Pass <==> pass) then 1 else 0
  }

  function BlockedRequests(events: seq<Event>): nat {
    if events == [] then 0
    else
      var rest := events[..|events| - 1];
      BlockedRequests(rest) + if events[|events| - 1].Http? && ModeAfter(rest) != Pass then 1 else 0
  }

  /** The counters count what they say: a handshake establishes a connection exactly when the channel is open,
      and is rejected exactly when it is not. */
  lemma {:induction false} CountersAreTrue(events: seq<Event>)
    ensures Run(events).mode == ModeAfter(events)
    ensures Run(events).established == HandshakesSeen(events, true)
    ensures Run(events).rejected == HandshakesSeen(events, false)
    ensures Run(events).blocked == BlockedRequests(events)
  {
    if events != [] {
      CountersAreTrue(events[..|events| - 1]);
    }
  }

  /** The routes of the requests seen while the gate was in a mode. */
  function RoutesSeen(events: seq<Event>, mode: Mode): seq<nat> {
    if events == [] then []
    else
      var rest, e := events[..|events| - 1], events[|events| - 1];
      RoutesSeen(rest, mode) + if e.Http? && ModeAfter(rest) == mode then [e.route] else []
  }

  /** Those seen in `Hold` since the last release. */
  function HeldSince(events: seq<Event>): seq<nat> {
    if events == [] then []
    else
      var rest, e := events[..|events| - 1], events[|events| - 1];
      if e.ReleaseHeld? || e.Unblock? then []
      else HeldSince(rest) + if e.Http? && ModeAfter(rest) == Hold then [e.route] else []
  }

  /** What happens to a blocked request depends only on the mode it was seen in: in `Hold` it joins the held routes,
      and leaves them with the next release; in `Abort` it joins the aborted ones. */
  lemma {:induction false} RoutesAreTrue(events: seq<Event>)
    ensures Run(events).held == HeldSince(events)
    ensures Run(events).past.released + Run(events).held == RoutesSeen(events, Hold)
    ensures Run(events).past.aborted == RoutesSeen(events, Abort)
  {
    if events != [] {
      var rest := events[..|events| - 1];
      RoutesAreTrue(rest);
      CountersAreTrue(rest);
    }
  }

  function RequestsSeen(events: seq<Event>): seq<Record> {
    if events == [] then []
    else
      var rest, e := events[..|events| - 1], events[|events| - 1];
      RequestsSeen(rest) + if e.Request? then [Record(e.at, e.channel)] else []
  }

  /** The instants at which the channel showed any life: its requests, and handshakes in every mode. */
  function ActivitySeen(events: seq<Event>): seq<int> {
    if events == [] then []
    else
      var rest, e := events[..|events| - 1], events[|events| - 1];
      ActivitySeen(rest) + if (e.Request? && e.channel) || e.Handshake? then [e.at] else []
  }

  /** The sockets rejected since the last time they were discarded. */
  function RejectedSince(events: seq<Event>): seq<nat> {
    if events == [] then []
    else
      var rest, e := events[..|events| - 1], events[|events| - 1];
      if e.DiscardHandshakes? then []
      else RejectedSince(rest) + if e.Handshake? && ModeAfter(rest) != Pass then [e.socket] else []
  }

  /** The socket of the last handshake let through, unless it failed to connect or its transport was closed. */
  function UsableAfter(events: seq<Event>): Option<nat> {
    if events == [] then None
    else
      var rest, e := events[..|events| - 1], events[|events| - 1];
      if e.CloseTransport? then None
      else if e.Handshake? && ModeAfter(rest) == Pass then (if e.connects then Some(e.socket) else None)
      else UsableAfter(rest)
  }

  /** The request records and the instants of activity are those of the run. */
  lemma {:induction false} RecordsAreTrue(events: seq<Event>)
    ensures Run(events).requests == RequestsSeen(events)
    ensures Run(events).past.activity == ActivitySeen(events)
  {
    if events != [] {
      var rest, e := events[..|events| - 1], events[|events| - 1];
      RecordsAreTrue(rest);
      assert Run(events) == Apply(Run(rest), e);
    }
  }

  /** The rejected sockets are kept until they are discarded, and the usable one is the last that connected. */
  lemma {:induction false} SocketsAreTrue(events: seq<Event>)
    ensures Run(events).handshakes == RejectedSince(events)
    ensures Run(events).lastUsable == UsableAfter(events)
  {
    if events != [] {
      var rest, e := events[..|events| - 1], events[|events| - 1];
      SocketsAreTrue(rest);
      CountersAreTrue(rest);
      assert Run(events) == Apply(Run(rest), e);
    }
  }

  // ---------------------------------------------------------------- settling

  function QuietSince(last: Option<int>, since: int): int {
    if last.Some? && last.value > since then last.value else since
  }

  /** What one turn of the loop reads: the clock and the last activity. */
  datatype Reading = Reading(now: int, last: Option<int>)

  datatype Settlement = Settled(instant: int) | Expired | StillWaiting

  predicate Undecided(r: Reading, since: int, windowMs: int, deadline: int) {
    r.now - QuietSince(r.last, since) < windowMs && r.now <= deadline
  }

  /** The loop of `settle`. The readings are taken as the run goes on, one every pause. */
  method Settle(start: int, since: int, windowMs: int, timeoutMs: int, readings: seq<Reading>)
    returns (outcome: Settlement, turn: nat)
    ensures turn <= |readings| && (outcome == StillWaiting <==> turn == |readings|)
    ensures forall j :: 0 <= j < turn ==> Undecided(readings[j], since, windowMs, start + windowMs + timeoutMs)
    ensures turn < |readings| ==>
      var quiet := readings[turn].now - QuietSince(readings[turn].last, since) >= windowMs;
      outcome == (if quiet then Settled(readings[turn].now) else Expired)
      && (quiet || readings[turn].now > start + windowMs + timeoutMs)
  {
    var deadline := start + windowMs + timeoutMs;
    for i := 0 to |readings|
      invariant forall j :: 0 <= j < i ==> Undecided(readings[j], since, windowMs, deadline)
    {
      var now := readings[i].now;
      var quietSince := QuietSince(readings[i].last, since);
      if now - quietSince >= windowMs {
        return Settled(now), i;
      }
      if now > deadline {
        return Expired, i;
      }
    }
    return StillWaiting, |readings|;
  }

  /** A reading lets the wait settle exactly when the channel has been silent for a whole window, and the wait
      itself is a window old. */
  lemma SettledIsSilent(events: seq<Event>, now: int, since: int, windowMs: int)
    ensures now - QuietSince(Run(events).lastActivity, since) >= windowMs <==>
      now - since >= windowMs && forall a :: a in Run(events).past.activity ==> now - a >= windowMs
  {
    EveryRunIsGood(events);
  }

  /** A wait expires only when something happened on the channel late enough to be in its way. */
  lemma ExpiresOnlyOnActivity(events: seq<Event>, r: Reading, start: int, since: int, windowMs: int, timeoutMs: int)
    requires r.last == Run(events).lastActivity && since <= start + timeoutMs
    requires r.now - QuietSince(r.last, since) < windowMs && r.now > start + windowMs + timeoutMs
    ensures exists a :: a in Run(events).past.activity && a > start + timeoutMs
  {
    EveryRunIsGood(events);
    assert r.last.value in Run(events).past.activity;
  }

  // ---------------------------------------------------------------- the gate

  class Gate {
    var currentMode: Mode
    var establishedCount: nat
    var blockedCount: nat
    var rejectedHandshakes: nat
    var lastUsable: Option<nat>
    var lastChannelActivityAt: Option<int>
    var requestRecords: seq<Record>
    var heldRoutes: seq<nat>
    var blockedHandshakes: seq<nat>
    var waiters: seq<Waiter>
    /** How many waits were started: each is told apart by its number. */
    var started: nat
    ghost var past: Past
    ghost var events: seq<Event>

    ghost function Contents(): State
      reads this
    {
      State(currentMode, establishedCount, blockedCount, rejectedHandshakes, lastUsable, lastChannelActivityAt,
        requestRecords, heldRoutes, blockedHandshakes, waiters, past)
    }

    /** The gate is where the events it has seen have brought it. */
    ghost predicate Valid()
      reads this
    {
      Contents() == Run(events) && started == |past.waits|
    }

    constructor ()
      ensures Valid() && events == []
    {
      currentMode, establishedCount, blockedCount, rejectedHandshakes := Pass, 0, 0, 0;
      lastUsable, lastChannelActivityAt := None, None;
      requestRecords, heldRoutes, blockedHandshakes, waiters, started := [], [], [], [], 0;
      past, events := INITIAL.past, [];
    }

    ghost method Log(e: Event, before: State)
      requires before == Run(events) && Contents() == Apply(before, e) && started == |past.waits|
      modifies this`events
      ensures Valid() && events == old(events) + [e]
    {
      ghost var earlier := events;
      events := events + [e];
      assert events[..|events| - 1] == earlier;
    }

    method SetMode(mode: Mode)
      requires Valid()
      modifies this
      ensures Valid() && events == old(events) + [Event.SetMode(mode)]
    {
      ghost var before := Contents();
      currentMode := mode;
      Log(Event.SetMode(mode), before);
    }

    /** Wakes every waiter whose instant has come. */
    method NoteChannelActivity(at: int)
      modifies this`lastChannelActivityAt, this`waiters, this`past
      ensures Contents() == Activity(old(Contents()), at)
    {
      if lastChannelActivityAt.None? || at > lastChannelActivityAt.value {
        lastChannelActivityAt := Some(at);
      }
      var all, remaining := waiters, [];
      ghost var exits := past.exits;
      for i := 0 to |all|
        invariant remaining == Asleep(all[..i], at)
        invariant exits == Woken(all[..i], at, past.exits)
      {
        assert all[..i + 1][..i] == all[..i];
        if all[i].after <= at {
          exits := exits[all[i].id := At(at)];
        } else {
          remaining := remaining + [all[i]];
        }
      }
      assert all[..|all|] == all;
      waiters := remaining;
      past := past.(activity := past.activity + [at], exits := exits);
    }

    method OnRequest(at: int, channel: bool)
      requires Valid()
      modifies this
      ensures Valid() && events == old(events) + [Request(at, channel)]
    {
      ghost var before := Contents();
      requestRecords := requestRecords + [Record(at, channel)];
      if channel {
        NoteChannelActivity(at);
      }
      Log(Request(at, channel), before);
    }

    method OnChannelHttp(route: nat)
      requires Valid()
      modifies this
      ensures Valid() && events == old(events) + [Http(route)]
    {
      ghost var before := Contents();
      if currentMode != Pass {
        blockedCount := blockedCount + 1;
        if currentMode == Hold {
          heldRoutes := heldRoutes + [route];
        } else {
          past := past.(aborted := past.aborted + [route]);
        }
      }
      Log(Http(route), before);
    }

    method OnChannelHandshake(socket: nat, at: int, connects: bool)
      requires Valid()
      modifies this
      ensures Valid() && events == old(events) + [Handshake(socket, at, connects)]
    {
      ghost var before := Contents();
      NoteChannelActivity(at);
      if currentMode == Pass {
        establishedCount := establishedCount + 1;
        lastUsable := Some(socket);
        if !connects {
          lastUsable := None;
        }
      } else {
        rejectedHandshakes := rejectedHandshakes + 1;
        blockedHandshakes := blockedHandshakes + [socket];
      }
      Log(Handshake(socket, at, connects), before);
    }

    /** Starts a wait. It is over at once if a request from `after` on has been seen. */
    method WaitForChannelRequestAfter(after: int) returns (existing: Option<int>)
      requires Valid()
      modifies this
      ensures Valid() && events == old(events) + [Wait(after)]
      ensures existing == FirstAfter(old(requestRecords), after)
    {
      ghost var before := Contents();
      existing := None;
      for i := 0 to |requestRecords|
        invariant existing.None? && Contents() == before
        invariant FirstAfter(requestRecords, after) == FirstAfter(requestRecords[i..], after)
      {
        assert requestRecords[i..][1..] == requestRecords[i + 1..];
        if requestRecords[i].channel && requestRecords[i].at >= after {
          existing := Some(requestRecords[i].at);
          break;
        }
      }
      var id := started;
      started := started + 1;
      past := past.(waits := past.waits + [after]);
      if existing.Some? {
        past := past.(exits := past.exits[id := At(existing.value)]);
      } else {
        waiters := waiters + [Waiter(id, after)];
      }
      Log(Wait(after), before);
    }

    /** The timer of a wait fires. A wait that has left has cleared it. */
    method OnTimer(id: nat) returns (rejected: bool)
      requires Valid()
      modifies this
      ensures Valid() && events == old(events) + [Timer(id)]
      ensures rejected == old(Waiting(waiters, id))
    {
      ghost var before := Contents();
      var remaining := [];
      rejected := false;
      for i := 0 to |waiters|
        invariant Contents() == before && remaining == Others(waiters[..i], id)
        invariant rejected == Waiting(waiters[..i], id)
      {
        assert waiters[..i + 1][..i] == waiters[..i];
        assert waiters[..i + 1] == waiters[..i] + [waiters[i]];
        if waiters[i].id == id {
          rejected := true;
        } else {
          remaining := remaining + [waiters[i]];
        }
      }
      assert waiters[..|waiters|] == waiters;
      if rejected {
        waiters := remaining;
        past := past.(exits := past.exits[id := TimedOut]);
      }
      Log(Timer(id), before);
    }

    /** Every route that was held is released, and none is held any more. */
    method ReleaseHeld() returns (held: seq<nat>)
      requires Valid()
      modifies this
      ensures Valid() && events == old(events) + [Event.ReleaseHeld]
      ensures held == old(heldRoutes) && heldRoutes == []
    {
      ghost var before := Contents();
      held := heldRoutes;
      heldRoutes := [];
      past := past.(released := past.released + held);
      Log(Event.ReleaseHeld, before);
    }

    method Unblock() returns (held: seq<nat>)
      requires Valid()
      modifies this
      ensures Valid() && events == old(events) + [Event.Unblock]
      ensures held == old(heldRoutes) && heldRoutes == [] && currentMode == Pass
    {
      ghost var before := Contents();
      currentMode := Pass;
      held := heldRoutes;
      heldRoutes := [];
      past := past.(released := past.released + held);
      Log(Event.Unblock, before);
    }

    /** What `unblock` does once the released routes have failed. */
    method DiscardHandshakes() returns (closed: seq<nat>)
      requires Valid()
      modifies this
      ensures Valid() && events == old(events) + [Event.DiscardHandshakes]
      ensures closed == old(blockedHandshakes)
    {
      ghost var before := Contents();
      closed := blockedHandshakes;
      blockedHandshakes := [];
      Log(Event.DiscardHandshakes, before);
    }

    method CloseEstablishedTransport() returns (socket: Option<nat>)
      requires Valid()
      modifies this
      ensures Valid() && events == old(events) + [CloseTransport]
      ensures socket == old(lastUsable)
    {
      ghost var before := Contents();
      socket := lastUsable;
      lastUsable := None;
      Log(CloseTransport, before);
    }

    /** The end of `dispose`: everybody still waiting leaves without an instant. */
    method DropWaiters()
      requires Valid()
      modifies this
      ensures Valid() && events == old(events) + [Event.DropWaiters]
      ensures waiters == []
    {
      ghost var before := Contents();
      past := past.(exits := AllDisposed(waiters, past.exits));
      waiters := [];
      Log(Event.DropWaiters, before);
    }
  }
}
