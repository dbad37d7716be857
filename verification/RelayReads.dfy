/** What the entries of one read do, in the order of their identifiers. */
module RelayReads {
  import opened Wrappers
  import opened Envelope
  import opened Relay

  ghost predicate Sorted(log: seq<Entry>) {
    (forall i :: 0 <= i < |log| ==> log[i].id.Gt(ZERO)) &&
    (forall i, j :: 0 <= i < j < |log| ==> log[j].id.Gt(log[i].id))
  }

  ghost predicate Emitted(attempts: seq<Attempt>, id: StreamId) {
    exists a :: a in attempts && a.ok && a.id == id
  }

  /** How many socket emits an entry takes. */
  function Cost(e: Entry): nat {
    match ParseEnvelope(e.fields)
    case None => 0
    case Some(event) => |Deliveries(event)|
  }

  /** How far a read of `log[lo..hi]` gets before an emission fails. */
  function Upto(log: seq<Entry>, lo: nat, hi: nat, emits: nat): (r: nat)
    requires lo <= hi <= |log|
    ensures lo <= r <= hi
    decreases hi - lo
  {
    if lo == hi || emits < Cost(log[lo]) then lo else Upto(log, lo + 1, hi, emits - Cost(log[lo]))
  }

  ghost predicate Fresh(log: seq<Entry>, lo: nat, hi: nat, position: Option<StreamId>) {
    Sorted(log) && lo <= hi <= |log| && (lo < hi && position.Some? ==> log[lo].id.Gt(position.value))
  }

  lemma FreshNext(log: seq<Entry>, lo: nat, hi: nat, position: Option<StreamId>)
    requires Fresh(log, lo, hi, position) && lo < hi
    ensures Fresh(log, lo + 1, hi, Some(log[lo].id))
  {
  }

  /** The attempts for one entry: none if it is malformed. */
  function Tried(e: Entry, emits: nat): seq<Attempt> {
    match ParseEnvelope(e.fields)
    case None => []
    case Some(event) => [Try(e.id, event, emits)]
  }

  /** An entry that is malformed or wholly emitted moves the position, and the read goes on. */
  lemma HeadGoesOn(log: seq<Entry>, lo: nat, hi: nat, position: Option<StreamId>, emits: nat)
    requires lo < hi <= |log| && (position.Some? ==> log[lo].id.Gt(position.value)) && emits >= Cost(log[lo])
    ensures var b := Deliver(position, log[lo..hi], emits);
      var rest := Deliver(Some(log[lo].id), log[lo + 1..hi], emits - Cost(log[lo]));
      b == Batch(rest.position, Tried(log[lo], emits) + rest.attempts, rest.raised)
  {
    assert log[lo..hi][1..] == log[lo + 1..hi];
    assert log[lo..hi][0] == log[lo];
  }

  /** An entry whose emission fails stops the read. */
  lemma HeadStops(log: seq<Entry>, lo: nat, hi: nat, position: Option<StreamId>, emits: nat)
    requires lo < hi <= |log| && (position.Some? ==> log[lo].id.Gt(position.value)) && emits < Cost(log[lo])
    ensures Deliver(position, log[lo..hi], emits) == Batch(position, Tried(log[lo], emits), true)
    ensures ParseEnvelope(log[lo].fields).Some?
  {
    assert log[lo..hi][0] == log[lo];
  }

  /** What a read does to the position: it ends at the last entry passed, and it raises when it stopped early. */
  ghost predicate Moves(b: Batch, log: seq<Entry>, lo: nat, hi: nat, upto: nat, position: Option<StreamId>)
    requires lo <= upto <= hi <= |log|
  {
    (b.raised <==> upto < hi) && b.position == if upto > lo then Some(log[upto - 1].id) else position
  }

  lemma {:induction false} DeliverMoves(log: seq<Entry>, lo: nat, hi: nat, position: Option<StreamId>, emits: nat)
    requires Fresh(log, lo, hi, position)
    ensures Moves(Deliver(position, log[lo..hi], emits), log, lo, hi, Upto(log, lo, hi, emits), position)
    decreases hi - lo
  {
    if lo < hi {
      if emits < Cost(log[lo]) {
        HeadStops(log, lo, hi, position, emits);
      } else {
        HeadGoesOn(log, lo, hi, position, emits);
        FreshNext(log, lo, hi, position);
        DeliverMoves(log, lo + 1, hi, Some(log[lo].id), emits - Cost(log[lo]));
      }
    }
  }

  lemma EmittedAtOnce(e: Entry, emits: nat, rest: seq<Attempt>)
    requires emits >= Cost(e)
    ensures ParseEnvelope(e.fields).None? || Emitted(Tried(e, emits) + rest, e.id)
  {
    if ParseEnvelope(e.fields).Some? {
      var tried := Tried(e, emits);
      assert (tried + rest)[0] == tried[0];
    }
  }

  lemma EmittedLater(first: seq<Attempt>, rest: seq<Attempt>, id: StreamId)
    requires Emitted(rest, id)
    ensures Emitted(first + rest, id)
  {
    var a :| a in rest && a.ok && a.id == id;
    assert a in first + rest;
  }

  /** Every entry passed over was emitted or is malformed. */
  lemma {:induction false} DeliverSettles(log: seq<Entry>, lo: nat, hi: nat, position: Option<StreamId>, emits: nat,
                                          i: nat)
    requires Fresh(log, lo, hi, position) && lo <= i < Upto(log, lo, hi, emits)
    ensures ParseEnvelope(log[i].fields).None? || Emitted(Deliver(position, log[lo..hi], emits).attempts, log[i].id)
    decreases hi - lo
  {
    HeadGoesOn(log, lo, hi, position, emits);
    var left, tried := emits - Cost(log[lo]), Tried(log[lo], emits);
    var rest := Deliver(Some(log[lo].id), log[lo + 1..hi], left).attempts;
    if i == lo {
      EmittedAtOnce(log[lo], emits, rest);
    } else {
      FreshNext(log, lo, hi, position);
      DeliverSettles(log, lo + 1, hi, Some(log[lo].id), left, i);
      if ParseEnvelope(log[i].fields).Some? {
        EmittedLater(tried, rest, log[i].id);
      }
    }
  }

  /** The attempts of one read are at consecutive later entries; only the one that stopped it failed. */
  ghost predicate Lies(a: Attempt, log: seq<Entry>, lo: nat, hi: nat, upto: nat)
    requires lo <= upto <= hi <= |log|
  {
    lo < hi && !log[lo].id.Gt(a.id) &&
    (a.ok ==> lo < upto && !a.id.Gt(log[upto - 1].id)) &&
    (!a.ok ==> upto < hi && a.id == log[upto].id)
  }

  ghost predicate AllLie(attempts: seq<Attempt>, log: seq<Entry>, lo: nat, hi: nat, upto: nat)
    requires lo <= upto <= hi <= |log|
  {
    forall k :: 0 <= k < |attempts| ==> Lies(attempts[k], log, lo, hi, upto)
  }

  ghost predicate Climbing(attempts: seq<Attempt>) {
    forall i, j :: 0 <= i < j < |attempts| ==> attempts[j].id.Gt(attempts[i].id)
  }

  lemma LiesAt(attempts: seq<Attempt>, a: Attempt, log: seq<Entry>, lo: nat, hi: nat, upto: nat)
    requires lo <= upto <= hi <= |log| && AllLie(attempts, log, lo, hi, upto) && a in attempts
    ensures Lies(a, log, lo, hi, upto)
  {
    var k :| 0 <= k < |attempts| && attempts[k] == a;
    assert Lies(attempts[k], log, lo, hi, upto);
  }

  lemma LiesEarlier(a: Attempt, log: seq<Entry>, lo: nat, hi: nat, upto: nat)
    requires Sorted(log) && lo < upto <= hi <= |log| && Lies(a, log, lo + 1, hi, upto)
    ensures Lies(a, log, lo, hi, upto) && a.id.Gt(log[lo].id)
  {
    assert log[lo + 1].id.Gt(log[lo].id);
  }

  lemma AllLieEarlier(attempts: seq<Attempt>, log: seq<Entry>, lo: nat, hi: nat, upto: nat)
    requires Sorted(log) && lo < upto <= hi <= |log| && AllLie(attempts, log, lo + 1, hi, upto)
    ensures AllLie(attempts, log, lo, hi, upto)
    ensures forall k :: 0 <= k < |attempts| ==> attempts[k].id.Gt(log[lo].id)
  {
    forall k | 0 <= k < |attempts|
      ensures Lies(attempts[k], log, lo, hi, upto) && attempts[k].id.Gt(log[lo].id)
    {
      LiesEarlier(attempts[k], log, lo, hi, upto);
    }
  }

  lemma FirstLies(first: Attempt, rest: seq<Attempt>, log: seq<Entry>, lo: nat, hi: nat, upto: nat)
    requires Sorted(log) && lo < upto <= hi <= |log| && AllLie(rest, log, lo + 1, hi, upto) && Climbing(rest)
    requires first.ok && first.id == log[lo].id
    ensures AllLie([first] + rest, log, lo, hi, upto) && Climbing([first] + rest)
  {
    AllLieEarlier(rest, log, lo, hi, upto);
    var all := [first] + rest;
    assert lo < upto - 1 ==> log[upto - 1].id.Gt(log[lo].id);
    forall k | 0 <= k < |all| ensures Lies(all[k], log, lo, hi, upto) {
      assert k > 0 ==> all[k] == rest[k - 1];
    }
    forall i, j | 0 <= i < j < |all| ensures all[j].id.Gt(all[i].id) {
      assert all[j] == rest[j - 1] && (i > 0 ==> all[i] == rest[i - 1]);
    }
  }

  lemma {:induction false} DeliverAdvances(log: seq<Entry>, lo: nat, hi: nat, position: Option<StreamId>, emits: nat)
    requires Fresh(log, lo, hi, position)
    ensures var b := Deliver(position, log[lo..hi], emits).attempts;
      AllLie(b, log, lo, hi, Upto(log, lo, hi, emits)) && Climbing(b)
    decreases hi - lo
  {
    if lo < hi {
      if emits < Cost(log[lo]) {
        HeadStops(log, lo, hi, position, emits);
      } else {
        HeadGoesOn(log, lo, hi, position, emits);
        FreshNext(log, lo, hi, position);
        var left, upto := emits - Cost(log[lo]), Upto(log, lo, hi, emits);
        var rest := Deliver(Some(log[lo].id), log[lo + 1..hi], left).attempts;
        DeliverAdvances(log, lo + 1, hi, Some(log[lo].id), left);
        if Tried(log[lo], emits) == [] {
          AllLieEarlier(rest, log, lo, hi, upto);
          assert Tried(log[lo], emits) + rest == rest;
        } else {
          FirstLies(Tried(log[lo], emits)[0], rest, log, lo, hi, upto);
        }
      }
    }
  }

  // ---------------------------------------------------------------- where attempts come from

  ghost predicate FromLog(a: Attempt, log: seq<Entry>) {
    (exists i :: 0 <= i < |log| && log[i].id == a.id && ParseEnvelope(log[i].fields) == Some(a.event)) &&
    a.sent <= Deliveries(a.event) && (a.ok <==> a.sent == Deliveries(a.event))
  }

  ghost predicate AllFromLog(attempts: seq<Attempt>, log: seq<Entry>) {
    forall a :: a in attempts ==> FromLog(a, log)
  }

  lemma {:induction false} DeliverFromLog(position: Option<StreamId>, entries: seq<Entry>, emits: nat)
    ensures AllFromLog(Deliver(position, entries, emits).attempts, entries)
    decreases |entries|
  {
    if |entries| > 0 {
      var e, rest := entries[0], entries[1..];
      var b := Deliver(position, entries, emits);
      if AtOrBefore(e.id, position) {
        DeliverFromLog(position, rest, emits);
        LongerLog(b.attempts, rest, entries, 1);
      } else {
        match ParseEnvelope(e.fields)
        case None =>
          DeliverFromLog(Some(e.id), rest, emits);
          LongerLog(b.attempts, rest, entries, 1);
        case Some(event) =>
          var attempt := Try(e.id, event, emits);
          assert FromLog(attempt, entries);
          if attempt.ok {
            DeliverFromLog(Some(e.id), rest, emits - |attempt.sent|);
            LongerLog(Deliver(Some(e.id), rest, emits - |attempt.sent|).attempts, rest, entries, 1);
          }
      }
    }
  }

  lemma LongerLog(attempts: seq<Attempt>, part: seq<Entry>, log: seq<Entry>, offset: nat)
    requires AllFromLog(attempts, part) && offset + |part| <= |log| && part == log[offset..offset + |part|]
    ensures AllFromLog(attempts, log)
  {
    forall a | a in attempts ensures FromLog(a, log) {
      var i :| 0 <= i < |part| && part[i].id == a.id && ParseEnvelope(part[i].fields) == Some(a.event);
      assert log[offset + i] == part[i];
    }
  }
}
