/** The heartbeat of the outbox worker: when it is written, and how old it can look. */
module Heartbeat {
  import opened Wrappers

  const MAX_AGE := 90.0
  const INTERVAL := 10.0

  predicate IsFresh(written: real, now: real, maxAge: real) {
    var age := now - written;
    if age < 0.0 then true else age <= maxAge
  }

  predicate IsDue(last: Option<real>, now: real, interval: real) {
    if last.None? then true else if now < last.value then true else now - last.value >= interval
  }

  /** The start of a lap, and whether the file could be written if it was tried. */
  datatype Lap = Lap(at: real, writable: bool)

  function AfterLap(last: Option<real>, lap: Lap): Option<real> {
    if IsDue(last, lap.at, INTERVAL) && lap.writable then Some(lap.at) else last
  }

  function AfterLaps(laps: seq<Lap>): Option<real> {
    if laps == [] then None else AfterLap(AfterLaps(laps[..|laps| - 1]), laps[|laps| - 1])
  }

  class Worker {
    var lastHeartbeat: Option<real>
    /** The modification time of the heartbeat file. */
    var file: Option<real>
    ghost var laps: seq<Lap>

    ghost predicate Valid()
      reads this
    {
      lastHeartbeat == file == AfterLaps(laps)
    }

    constructor ()
      ensures Valid() && laps == []
    {
      lastHeartbeat, file, laps := None, None, [];
    }

    /** The head of a lap. What `process_once` does afterwards, failing or not, only takes time. */
    method Beat(now: real, writable: bool)
      requires Valid()
      modifies this
      ensures Valid() && laps == old(laps) + [Lap(now, writable)]
    {
      ghost var before := laps;
      laps := laps + [Lap(now, writable)];
      assert laps[..|laps| - 1] == before;
      if IsDue(lastHeartbeat, now, INTERVAL) {
        if writable {
          file := Some(now);
          lastHeartbeat := Some(now);
        }
      }
    }
  }

  /** Whatever the clock does, backwards included: a lap that can write leaves a record of itself or of less than ten
      seconds before it, and one that cannot leaves the record alone. */
  lemma RecordIsCurrent(laps: seq<Lap>, lap: Lap)
    ensures var before, after := AfterLaps(laps), AfterLaps(laps + [lap]);
      && (after == before || (lap.writable && after == Some(lap.at)))
      && (lap.writable ==> after.Some? && lap.at - 10.0 < after.value <= lap.at)
  {
    assert (laps + [lap])[..|laps|] == laps;
  }

  /** After such a lap the worker looks healthy for at least 80 seconds, and not for more than 90. */
  lemma HealthAfterALap(laps: seq<Lap>, lap: Lap, now: real)
    requires lap.writable
    ensures var record := AfterLaps(laps + [lap]);
      && record.Some?
      && (IsFresh(record.value, now, MAX_AGE) <==> now <= record.value + 90.0)
      && (now <= lap.at + 80.0 ==> IsFresh(record.value, now, MAX_AGE))
      && (now > lap.at + 90.0 ==> !IsFresh(record.value, now, MAX_AGE))
  {
    RecordIsCurrent(laps, lap);
  }

  // ---------------------------------------------------------------- how old the file can get

  /** Laps start in order, none more than `longest` after the one before. */
  predicate Paced(laps: seq<Lap>, longest: real) {
    forall k :: 0 < k < |laps| ==> laps[k - 1].at <= laps[k].at <= laps[k - 1].at + longest
  }

  /** How many attempts to write have failed since the last one that worked. */
  function Misses(laps: seq<Lap>): nat {
    if laps == [] then 0
    else
      var rest, lap := laps[..|laps| - 1], laps[|laps| - 1];
      if !IsDue(AfterLaps(rest), lap.at, INTERVAL) then Misses(rest)
      else if lap.writable then 0
      else Misses(rest) + 1
  }

  /** `m` laps of the longest length. */
  function Stretch(m: nat, longest: real): (r: real)
    ensures longest >= 0.0 ==> r >= 0.0
  {
    if m == 0 then 0.0 else Stretch(m - 1, longest) + longest
  }

  lemma {:induction false} StretchMultiplies(m: nat, longest: real)
    ensures Stretch(m, longest) == m as real * longest
  {
    if m > 0 {
      StretchMultiplies(m - 1, longest);
      assert m as real * longest == (m - 1) as real * longest + longest;
    }
  }

  /** How long ago the file was written, at the start of a lap: less than the interval plus one lap for every
      failed attempt. */
  lemma {:induction false} SinceTheLastBeat(laps: seq<Lap>, longest: real)
    requires laps != [] && Paced(laps, longest) && longest >= 0.0
    requires AfterLaps(laps).Some?
    ensures 0.0 <= laps[|laps| - 1].at - AfterLaps(laps).value < INTERVAL + Stretch(Misses(laps), longest)
  {
    var rest := laps[..|laps| - 1];
    if rest != [] && AfterLaps(rest).Some? {
      SinceTheLastBeat(rest, longest);
    }
  }

  /** While a lap runs the file is younger than the interval plus one lap for every failed attempt and one for
      the lap itself. */
  lemma AgeIsBounded(laps: seq<Lap>, longest: real, now: real)
    requires laps != [] && Paced(laps, longest)
    requires AfterLaps(laps).Some?
    requires laps[|laps| - 1].at <= now <= laps[|laps| - 1].at + longest
    ensures 0.0 <= now - AfterLaps(laps).value < INTERVAL + Stretch(Misses(laps) + 1, longest)
  {
    SinceTheLastBeat(laps, longest);
  }

  /** With writes that work, laps of at most 80 seconds never look unhealthy. */
  lemma EightySecondsAreHealthy(laps: seq<Lap>, longest: real, now: real)
    requires laps != [] && Paced(laps, longest) && longest <= MAX_AGE - INTERVAL
    requires forall k :: 0 <= k < |laps| ==> laps[k].writable
    requires laps[|laps| - 1].at <= now <= laps[|laps| - 1].at + longest
    ensures AfterLaps(laps).Some? && IsFresh(AfterLaps(laps).value, now, MAX_AGE)
  {
    AlwaysWritten(laps);
    AgeIsBounded(laps, longest, now);
  }

  lemma {:induction false} AlwaysWritten(laps: seq<Lap>)
    requires forall k :: 0 <= k < |laps| ==> laps[k].writable
    ensures Misses(laps) == 0 && (laps != [] ==> AfterLaps(laps).Some?)
  {
    if laps != [] {
      AlwaysWritten(laps[..|laps| - 1]);
    }
  }

  /** A lap that has lasted more than 90 seconds is always noticed. */
  lemma StallIsNoticed(laps: seq<Lap>, longest: real, now: real)
    requires laps != [] && Paced(laps, longest)
    requires now > laps[|laps| - 1].at + MAX_AGE
    ensures AfterLaps(laps).Some? ==> !IsFresh(AfterLaps(laps).value, now, MAX_AGE)
  {
    if AfterLaps(laps).Some? {
      BeatIsNotLater(laps, longest);
    }
  }

  lemma {:induction false} BeatIsNotLater(laps: seq<Lap>, longest: real)
    requires laps != [] && Paced(laps, longest) && AfterLaps(laps).Some?
    ensures AfterLaps(laps).value <= laps[|laps| - 1].at
  {
    if |laps| > 1 && AfterLaps(laps[..|laps| - 1]).Some? {
      BeatIsNotLater(laps[..|laps| - 1], longest);
    }
  }

  /** Between 80 and 90 seconds it can go wrong: a short lap that writes nothing, then one of `longest`. */
  lemma LongLapCanLookStalled(longest: real)
    requires MAX_AGE - INTERVAL < longest <= MAX_AGE
    ensures var short := (MAX_AGE - longest + INTERVAL) / 2.0;
      var laps := [Lap(0.0, true), Lap(short, true)];
      Paced(laps, longest) && AfterLaps(laps) == Some(0.0) && !IsFresh(0.0, short + longest, MAX_AGE)
  {
    var short := (MAX_AGE - longest + INTERVAL) / 2.0;
    var laps := [Lap(0.0, true), Lap(short, true)];
    assert laps[..1] == [Lap(0.0, true)] && laps[..1][..0] == [];
    assert AfterLaps(laps[..1]) == Some(0.0);
  }

  /** And it can go well: laps of at least the interval write every time, and then 90 seconds are fine. */
  lemma {:induction false} LongLapsCanStayHealthy(laps: seq<Lap>, longest: real, now: real)
    requires laps != [] && Paced(laps, longest) && longest <= MAX_AGE
    requires forall k :: 0 <= k < |laps| ==> laps[k].writable
    requires forall k :: 0 < k < |laps| ==> laps[k].at >= laps[k - 1].at + INTERVAL
    requires laps[|laps| - 1].at <= now <= laps[|laps| - 1].at + longest
    ensures AfterLaps(laps) == Some(laps[|laps| - 1].at) && IsFresh(laps[|laps| - 1].at, now, MAX_AGE)
  {
    var rest := laps[..|laps| - 1];
    if rest != [] {
      LongLapsCanStayHealthy(rest, longest, rest[|rest| - 1].at + longest);
    }
  }
}
