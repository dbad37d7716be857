/** From the outbox table to the sockets: what the relay emits comes from the rows. */
module EndToEnd {
  import opened Wrappers
  import opened Envelope
  import opened Relay
  import opened RelayReads
  import opened RelayRuns
  import opened RelayStream
  import Outbox

  lemma KeptFromLog(attempts: seq<Attempt>, w: World, base: nat, size: nat)
    requires size <= |Kept(w, base)| && AllFromLog(attempts, Kept(w, base)[0..size])
    ensures AllFromLog(attempts, w.log)
  {
    var part := Kept(w, base)[0..size];
    forall a | a in attempts ensures FromLog(a, w.log) {
      assert FromLog(a, part);
      var i :| 0 <= i < |part| && part[i].id == a.id && ParseEnvelope(part[i].fields) == Some(a.event);
      assert part[i] in Kept(w, base);
      var j := KeptIsThere(w, base, part[i]);
    }
  }

  lemma BatchFromLog(s: Sys, r: Round)
    requires Tracks(s) && Possible(s, r) && Delivering(s, r)
    ensures AllFromLog(BatchOf(ReadPosition(s, r), Retained(s, r), r.emits).attempts, r.atEnd.log)
  {
    var all := Retained(s, r);
    var attempts := BatchOf(ReadPosition(s, r), all, r.emits).attempts;
    LogGrows(s, r);
    DeliverFromLog(ReadPosition(s, r), all[0..ReadSize(all)], r.emits);
    KeptFromLog(attempts, r.atRead, Base(s, r), ReadSize(all));
  }

  lemma DeliveringFromLog(s: Sys, r: Round)
    requires Tracks(s) && Possible(s, r) && Delivering(s, r) && AllFromLog(s.attempts, r.atEnd.log)
    ensures AllFromLog(Step(s, r).attempts, r.atEnd.log)
  {
    DeliveringStep(s, r);
    BatchFromLog(s, r);
  }

  lemma StepFromLog(s: Sys, r: Round)
    requires Tracks(s) && Possible(s, r) && AllFromLog(s.attempts, s.world.log)
    ensures AllFromLog(Step(s, r).attempts, r.atEnd.log)
  {
    assert s.world.log <= r.atEnd.log;
    if Out(s, r).resync.None? {
      if Delivering(s, r) {
        DeliveringFromLog(s, r);
      } else {
        IdleStep(s, r);
      }
    }
  }

  lemma {:induction false} RunFromLog(s: Sys, rounds: seq<Round>)
    requires Tracks(s) && Feasible(s, rounds) && AllFromLog(s.attempts, s.world.log)
    ensures AllFromLog(RunFrom(s, rounds).attempts, RunFrom(s, rounds).world.log)
    decreases |rounds|
  {
    if rounds != [] {
      TracksKept(s, rounds[0]);
      StepFromLog(s, rounds[0]);
      RunFromLog(Step(s, rounds[0]), rounds[1..]);
    }
  }

  /** Two attempts at one entry: the event is the same, the earlier one failed, and what it had sent by then was
      a proper part of the event's emits, so only the emit to the organization can be repeated, and only for an
      event that also goes to a tournament. */
  lemma OnlyTheOrganizationAgain(s: Sys, rounds: seq<Round>, i: nat, j: nat)
    requires Initial(s) && Feasible(s, rounds)
    requires i < j < |RunFrom(s, rounds).attempts|
    requires RunFrom(s, rounds).attempts[i].id == RunFrom(s, rounds).attempts[j].id
    ensures var a, b := RunFrom(s, rounds).attempts[i], RunFrom(s, rounds).attempts[j];
      && a.event == b.event && !a.ok && a.sent < Deliveries(a.event)
      && (a.sent == [] || (|Deliveries(a.event)| == 2 && a.sent == Deliveries(a.event)[..1]
                           && a.sent[0].room == OrganizationRoom(a.event.organizationId)))
  {
    var end := RunFrom(s, rounds);
    RunTracks(s, rounds);
    RunFromLog(s, rounds);
    var a, b := end.attempts[i], end.attempts[j];
    assert FromLog(a, end.world.log) && FromLog(b, end.world.log);
  }

  /** The next cycle sends something of an entry that was attempted before. */
  ghost predicate SendsAgain(s: Sys, r: Round, a: Attempt) {
    exists b :: b in Out(s, r).attempts && b.id == a.id && b.sent != []
  }

  /** The entry is the first one that the next cycle finds, and the cycle can send. */
  predicate FoundAgain(s: Sys, r: Round, a: Attempt) {
    Delivering(s, r) && |Retained(s, r)| > 0 && Retained(s, r)[0].id == a.id && r.emits >= 1
  }

  lemma SameEntryAgain(s: Sys, r: Round, a: Attempt)
    requires Tracks(s) && Possible(s, r) && |Retained(s, r)| > 0 && Retained(s, r)[0].id == a.id
    requires FromLog(a, s.world.log)
    ensures ParseEnvelope(Retained(s, r)[0].fields) == Some(a.event)
  {
    var w := r.atRead;
    LogGrows(s, r);
    var i :| 0 <= i < |s.world.log| && s.world.log[i].id == a.id
             && ParseEnvelope(s.world.log[i].fields) == Some(a.event);
    assert w.log[i] == s.world.log[i];
    var j := KeptIsThere(w, Base(s, r), Retained(s, r)[0]);
    assert i == j;
  }

  lemma SendsTheFirst(s: Sys, r: Round, a: Attempt)
    requires Tracks(s) && Possible(s, r) && FoundAgain(s, r, a) && FromLog(a, s.world.log)
    ensures Out(s, r).attempts != [] && Out(s, r).attempts[0] == Try(a.id, a.event, r.emits)
    ensures SendsAgain(s, r, a)
  {
    SameEntryAgain(s, r, a);
    FirstAttempt(s, r, a.event);
    var b := Out(s, r).attempts[0];
    assert b in Out(s, r).attempts && b.sent[0] == Deliveries(a.event)[0];
  }

  /** Without a socket emit to spare nothing is sent. */
  lemma {:induction false} NothingToSpare(position: Option<StreamId>, entries: seq<Entry>)
    ensures forall a :: a in Deliver(position, entries, 0).attempts ==> a.sent == []
    decreases |entries|
  {
    if |entries| > 0 {
      NothingToSpare(position, entries[1..]);
      NothingToSpare(Some(entries[0].id), entries[1..]);
    }
  }

  /** After an attempt that failed, in any run, the next cycle sends something of its entry again exactly when it
      reads, finds the entry as the first one retained after its position, and can send at all; and what it then
      sends starts over with the organization. */
  lemma SentAgainExactly(s: Sys, rounds: seq<Round>, next: Round, a: Attempt)
    requires Initial(s) && Feasible(s, rounds) && Possible(RunFrom(s, rounds), next)
    requires a in RunFrom(s, rounds).attempts && !a.ok
    ensures SendsAgain(RunFrom(s, rounds), next, a) <==> FoundAgain(RunFrom(s, rounds), next, a)
    ensures var all := Out(RunFrom(s, rounds), next).attempts;
      FoundAgain(RunFrom(s, rounds), next, a) ==> all != [] && all[0] == Try(a.id, a.event, next.emits)
  {
    var end := RunFrom(s, rounds);
    RunTracks(s, rounds);
    RunFromLog(s, rounds);
    assert FromLog(a, end.world.log);
    if FoundAgain(end, next, a) {
      SendsTheFirst(end, next, a);
    }
    if SendsAgain(end, next, a) {
      var b :| b in Out(end, next).attempts && b.id == a.id && b.sent != [];
      OnlyTheNextRepeats(s, rounds, next, a, b);
      if next.emits == 0 {
        OutOfDelivering(end, next);
        NothingToSpare(ReadPosition(end, next), Read(next.atRead, ReadPosition(end, next)));
      }
    }
  }

  /** The relay's stream is the one the workers wrote. */
  ghost predicate SameStream(log: seq<Entry>, messages: seq<Json>) {
    |log| == |messages| && forall i :: 0 <= i < |log| ==> log[i].fields == Some(map["event" := Encodes(messages[i])])
  }

  /** The event of an attempt is a claimed row's: identifier, organization, type and payload. */
  ghost predicate IsRow(event: ParsedEvent, row: Event) {
    event.organizationId == row.organizationId && event.eventType == row.eventType &&
    row.payload == JObj(event.payload) && event.eventId == DeliveryIdentifier(JStr(row.id))
  }

  /** For every interleaving of workers and relay and failures at any await, everything the relay
      attempts is the event of some claimed row, sent to that event's rooms in order, under the
      row's identifier; so two emissions of one row differ in nothing but having happened twice. */
  lemma RelayInventsNothing(start: Outbox.Sys, actions: seq<Outbox.Action>, s: Sys, rounds: seq<Round>, a: Attempt)
    returns (row: Event)
    requires Outbox.Inv(start) && Outbox.Runs(start, actions)
    requires Initial(s) && Feasible(s, rounds)
    requires SameStream(RunFrom(s, rounds).world.log, Outbox.After(start, actions).store.log)
    requires a in RunFrom(s, rounds).attempts
    ensures Outbox.ClaimedRow(Outbox.After(start, actions).store.rows, row) && IsRow(a.event, row)
    ensures a.sent <= Deliveries(a.event) && (a.ok <==> a.sent == Deliveries(a.event))
  {
    Outbox.WorkersAreAtLeastOnce(start, actions);
    RunFromLog(s, rounds);
    var end, store := RunFrom(s, rounds), Outbox.After(start, actions).store;
    assert FromLog(a, end.world.log);
    var i :| 0 <= i < |end.world.log| && end.world.log[i].id == a.id &&
             ParseEnvelope(end.world.log[i].fields) == Some(a.event);
    assert store.log[i] in store.log;
    row :| Outbox.ClaimedRow(store.rows, row) && store.log[i] == BuildStreamMessage(row);
    assert end.world.log[i].fields == StreamFields(row);
    EnvelopeRoundTrip(row);
  }
}
