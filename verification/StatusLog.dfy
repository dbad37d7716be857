/** The log of visible statuses: periodic samples that record changes, and observations that always record. */
module StatusLog {
  import opened Wrappers

  datatype Seen = Seen(status: string, at: int)

  datatype Call = Sample(shown: Option<string>, at: int) | Observe(status: string, at: int)

  // ---------------------------------------------------------------- what the calls leave behind

  function Latest(calls: seq<Call>): Option<string> {
    if calls == [] then None
    else
      var call := calls[|calls| - 1];
      if call.Observe? then Some(call.status)
      else if call.shown.Some? then call.shown
      else Latest(calls[..|calls| - 1])
  }

  /** The recorded samples. */
  function Recorded(calls: seq<Call>): seq<Seen> {
    if calls == [] then []
    else
      var rest, call := calls[..|calls| - 1], calls[|calls| - 1];
      if call.Observe? then Recorded(rest) + [Seen(call.status, call.at)]
      else if call.shown.None? || call.shown == Latest(rest) then Recorded(rest)
      else Recorded(rest) + [Seen(call.shown.value, call.at)]
  }

  /** Everything that was visible, repeated or not. */
  function Stream(calls: seq<Call>): seq<Seen> {
    if calls == [] then []
    else
      var rest, call := calls[..|calls| - 1], calls[|calls| - 1];
      if call.Observe? then Stream(rest) + [Seen(call.status, call.at)]
      else if call.shown.None? then Stream(rest)
      else Stream(rest) + [Seen(call.shown.value, call.at)]
  }

  function Transitions(samples: seq<Seen>): nat {
    if |samples| < 2 then 0
    else Transitions(samples[..|samples| - 1])
         + if samples[|samples| - 2].status != samples[|samples| - 1].status then 1 else 0
  }

  function LastStatus(samples: seq<Seen>): Option<string> {
    if samples == [] then None else Some(samples[|samples| - 1].status)
  }

  lemma TransitionsAppend(samples: seq<Seen>, s: Seen)
    ensures Transitions(samples + [s])
         == Transitions(samples) + if samples != [] && LastStatus(samples) != Some(s.status) then 1 else 0
  {
    assert (samples + [s])[..|samples|] == samples;
  }

  /** The recorded log and everything that was visible end in the same status and change equally often. */
  lemma {:induction false} StutterInsensitive(calls: seq<Call>)
    ensures Transitions(Recorded(calls)) == Transitions(Stream(calls))
    ensures LastStatus(Recorded(calls)) == LastStatus(Stream(calls)) == Latest(calls)
  {
    if calls != [] {
      var rest, call := calls[..|calls| - 1], calls[|calls| - 1];
      StutterInsensitive(rest);
      if call.Observe? || call.shown.Some? {
        var s := Seen(if call.Observe? then call.status else call.shown.value, call.at);
        TransitionsAppend(Recorded(rest), s);
        TransitionsAppend(Stream(rest), s);
      }
    }
  }

  predicate ChangesAt(samples: seq<Seen>, i: nat) {
    0 < i < |samples| && samples[i - 1].status != samples[i].status
  }

  /** The places where the status is another one than before. */
  function Changes(samples: seq<Seen>): set<nat> {
    set i: nat | i < |samples| && ChangesAt(samples, i)
  }

  lemma {:induction false} TransitionsAreChanges(samples: seq<Seen>)
    ensures Transitions(samples) == |Changes(samples)|
  {
    if |samples| >= 2 {
      var n := |samples| - 1;
      TransitionsAreChanges(samples[..n]);
      assert forall i: nat :: i < n ==> (ChangesAt(samples, i) <==> ChangesAt(samples[..n], i));
      if samples[n - 1].status != samples[n].status {
        assert Changes(samples) == Changes(samples[..n]) + {n};
      } else {
        assert Changes(samples) == Changes(samples[..n]);
      }
    } else {
      assert Changes(samples) == {};
    }
  }

  method CountTransitions(samples: seq<Seen>) returns (transitions: nat)
    ensures transitions == Transitions(samples)
  {
    transitions := 0;
    var index := 1;
    while index < |samples|
      invariant 1 <= index && (index <= |samples| || (index == 1 && samples == []))
      invariant index <= |samples| ==> transitions == Transitions(samples[..index])
      invariant samples == [] ==> transitions == 0
    {
      assert samples[..index + 1][..index] == samples[..index];
      if samples[index - 1].status != samples[index].status {
        transitions := transitions + 1;
      }
      index := index + 1;
    }
    assert samples != [] ==> samples[..|samples|] == samples;
  }

  // ---------------------------------------------------------------- the model

  predicate IsChange(s: Seen, status: string, after: int) {
    s.at >= after && s.status != status
  }

  function FirstChange(samples: seq<Seen>, status: string, after: int): Option<Seen> {
    if samples == [] then None
    else if IsChange(samples[0], status, after) then Some(samples[0])
    else FirstChange(samples[1..], status, after)
  }

  class StatusModel {
    var recorded: seq<Seen>
    var latest: Option<string>
    ghost var calls: seq<Call>

    ghost predicate Valid()
      reads this
    {
      recorded == Recorded(calls) && latest == Latest(calls)
    }

    constructor ()
      ensures Valid() && calls == []
    {
      recorded, latest, calls := [], None, [];
    }

    method Sample(status: Option<string>, at: int)
      requires Valid()
      modifies this
      ensures Valid() && calls == old(calls) + [Call.Sample(status, at)]
    {
      ghost var before := calls;
      calls := calls + [Call.Sample(status, at)];
      assert calls[..|calls| - 1] == before;
      if status.None? || status == latest {
        return;
      }
      latest := status;
      recorded := recorded + [Seen(status.value, at)];
    }

    method Observe(status: string, at: int)
      requires Valid()
      modifies this
      ensures Valid() && calls == old(calls) + [Call.Observe(status, at)]
    {
      ghost var before := calls;
      calls := calls + [Call.Observe(status, at)];
      assert calls[..|calls| - 1] == before;
      latest := Some(status);
      recorded := recorded + [Seen(status, at)];
    }

    method FirstChangeAfter(status: string, after: int) returns (found: Option<Seen>)
      requires Valid()
      ensures found == FirstChange(Recorded(calls), status, after)
    {
      for i := 0 to |recorded|
        invariant FirstChange(recorded, status, after) == FirstChange(recorded[i..], status, after)
      {
        assert recorded[i..][1..] == recorded[i + 1..];
        if recorded[i].at >= after && recorded[i].status != status {
          return Some(recorded[i]);
        }
      }
      return None;
    }
  }

  // ---------------------------------------------------------------- the first change

  predicate InOrder(calls: seq<Call>) {
    forall i, j :: 0 <= i < j < |calls| ==> calls[i].at <= calls[j].at
  }

  predicate SeenInOrder(samples: seq<Seen>) {
    forall i, j :: 0 <= i < j < |samples| ==> samples[i].at <= samples[j].at
  }

  /** Calls in time order are recorded in time order. */
  lemma {:induction false} RecordedInOrder(calls: seq<Call>)
    requires InOrder(calls)
    ensures SeenInOrder(Recorded(calls))
    ensures forall s :: s in Recorded(calls) ==> calls != [] && s.at <= calls[|calls| - 1].at
  {
    if calls != [] {
      RecordedInOrder(calls[..|calls| - 1]);
    }
  }

  /** The result is the earliest of all the recorded changes, and there is none exactly when nothing changed. */
  lemma {:induction false} FirstChangeIsEarliest(samples: seq<Seen>, status: string, after: int)
    requires SeenInOrder(samples)
    ensures var found := FirstChange(samples, status, after);
      && (found.None? <==> forall s :: s in samples ==> !IsChange(s, status, after))
      && (found.Some? ==>
            && found.value in samples && IsChange(found.value, status, after)
            && forall s :: s in samples && IsChange(s, status, after) ==> found.value.at <= s.at)
  {
    if samples != [] {
      FirstChangeIsEarliest(samples[1..], status, after);
      assert forall s :: s in samples ==> s == samples[0] || s in samples[1..];
    }
  }

  lemma {:induction false} FirstChangeAppend(a: seq<Seen>, b: seq<Seen>, status: string, after: int)
    ensures FirstChange(a + b, status, after)
         == if FirstChange(a, status, after).Some? then FirstChange(a, status, after) else FirstChange(b, status, after)
  {
    if a == [] {
      assert a + b == b;
    } else {
      assert (a + b)[1..] == a[1..] + b;
      FirstChangeAppend(a[1..], b, status, after);
    }
  }

  /** From the calls before `after` nothing is found. */
  lemma {:induction false} NothingBefore(calls: seq<Call>, status: string, after: int)
    requires forall k :: 0 <= k < |calls| ==> calls[k].at < after
    ensures FirstChange(Recorded(calls), status, after).None?
    ensures FirstChange(Stream(calls), status, after).None?
  {
    if calls != [] {
      var rest, call := calls[..|calls| - 1], calls[|calls| - 1];
      NothingBefore(rest, status, after);
      if call.Observe? || call.shown.Some? {
        var s := Seen(if call.Observe? then call.status else call.shown.value, call.at);
        FirstChangeAppend(Recorded(rest), [s], status, after);
        FirstChangeAppend(Stream(rest), [s], status, after);
      }
    }
  }

  predicate AllBefore(calls: seq<Call>, after: int) {
    forall k :: 0 <= k < |calls| ==> calls[k].at < after
  }

  predicate AllFrom(calls: seq<Call>, after: int) {
    forall k :: 0 <= k < |calls| ==> calls[k].at >= after
  }

  /** The log gives the first change that the full stream holds. */
  predicate TellsTrue(calls: seq<Call>, status: string, after: int) {
    FirstChange(Recorded(calls), status, after) == FirstChange(Stream(calls), status, after)
  }

  /** Nothing else than `status` was showing. */
  predicate ShowsOnly(calls: seq<Call>, status: string) {
    Latest(calls).None? || Latest(calls) == Some(status)
  }

  lemma {:induction false} ChangeIsReal(before: seq<Call>, later: seq<Call>, status: string, after: int)
    requires AllBefore(before, after) && AllFrom(later, after) && ShowsOnly(before, status)
    ensures TellsTrue(before + later, status, after)
    ensures FirstChange(Recorded(before + later), status, after).None? ==> ShowsOnly(before + later, status)
    decreases |later|
  {
    if later == [] {
      assert before + later == before;
      NothingBefore(before, status, after);
    } else {
      var calls, rest, call := before + later, before + later[..|later| - 1], later[|later| - 1];
      assert calls[..|calls| - 1] == rest;
      ChangeIsReal(before, later[..|later| - 1], status, after);
      if call.Observe? || call.shown.Some? {
        var s := Seen(if call.Observe? then call.status else call.shown.value, call.at);
        FirstChangeAppend(Recorded(rest), [s], status, after);
        FirstChangeAppend(Stream(rest), [s], status, after);
      }
    }
  }

  /** Another status that is showing at the bound and sampled again is not found. */
  lemma RepeatIsMissed(before: seq<Call>, status: string, after: int)
    requires AllBefore(before, after) && !ShowsOnly(before, status)
    ensures !TellsTrue(before + [Sample(Latest(before), after)], status, after)
  {
    var call := Sample(Latest(before), after);
    var calls, s := before + [call], Seen(Latest(before).value, after);
    assert calls[..|before|] == before;
    NothingBefore(before, status, after);
    FirstChangeAppend(Stream(before), [s], status, after);
    assert Recorded(calls) == Recorded(before) && Stream(calls) == Stream(before) + [s];
  }

  /** Whatever is called from `after` on, the log answers like the full stream: exactly when nothing else than
      the status asked about was showing when `after` came. */
  lemma LogTellsExactly(before: seq<Call>, status: string, after: int)
    requires AllBefore(before, after)
    ensures (forall later :: AllFrom(later, after) ==> TellsTrue(before + later, status, after))
            <==> ShowsOnly(before, status)
  {
    if ShowsOnly(before, status) {
      forall later | AllFrom(later, after) ensures TellsTrue(before + later, status, after) {
        ChangeIsReal(before, later, status, after);
      }
    } else {
      RepeatIsMissed(before, status, after);
      assert AllFrom([Sample(Latest(before), after)], after);
    }
  }

  /** Asked about another status the log can answer with nothing, although another status was visible all along. */
  lemma RepeatsAreMissed()
    ensures var calls := [Sample(Some("error"), 1), Sample(Some("error"), 5)];
      && FirstChange(Recorded(calls), "manual", 3) == None
      && FirstChange(Stream(calls), "manual", 3) == Some(Seen("error", 5))
  {
    var calls := [Sample(Some("error"), 1), Sample(Some("error"), 5)];
    assert calls[..1] == [Sample(Some("error"), 1)] && calls[..1][..0] == [];
    assert Recorded(calls[..1]) == [Seen("error", 1)] == Stream(calls[..1]);
    assert Recorded(calls) == [Seen("error", 1)];
    assert Stream(calls) == [Seen("error", 1), Seen("error", 5)];
    assert Stream(calls)[1..] == [Seen("error", 5)];
  }
}
