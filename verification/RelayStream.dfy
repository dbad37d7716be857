/** The stream that the relay tails: others append to it, trim and wipe it, and a fault of Redis may lose
    entries anywhere in it. Identifiers only grow. */
module RelayStream {
  import opened Wrappers
  import opened Relay
  import opened RelayReads

  /** Everything ever appended, and which entries are gone. */
  datatype World = World(log: seq<Entry>, gone: set<nat>)

  ghost predicate Valid(w: World) {
    Sorted(w.log) && forall i :: i in w.gone ==> i < |w.log|
  }

  ghost predicate Evolves(w: World, w': World) {
    Valid(w') && w.log <= w'.log && w.gone <= w'.gone
  }

  ghost predicate AllGone(w: World, lo: nat, hi: nat) {
    forall i :: lo <= i < hi ==> i in w.gone
  }

  /** What trimming and wiping alone leave behind. */
  ghost predicate OnlyTrimmed(w: World) {
    forall i, j :: 0 <= i < j && j in w.gone ==> i in w.gone
  }

  /** The retained entries from an index on. */
  function Kept(w: World, from: nat): seq<Entry>
    decreases |w.log| - from
  {
    if from >= |w.log| then []
    else (if from in w.gone then [] else [w.log[from]]) + Kept(w, from + 1)
  }

  /** The first retained entry from an index on, or the end of the log. */
  function Edge(w: World, from: nat): (edge: nat)
    requires from <= |w.log|
    ensures from <= edge <= |w.log| && (edge < |w.log| ==> edge !in w.gone)
    ensures forall i :: from <= i < edge ==> i in w.gone
    decreases |w.log| - from
  {
    if from == |w.log| || from !in w.gone then from else Edge(w, from + 1)
  }

  /** One past the last retained entry before an index, or 0. */
  function LastKept(w: World, before: nat): (last: nat)
    requires before <= |w.log|
    ensures last <= before && (last > 0 ==> last - 1 !in w.gone)
    ensures forall i :: last <= i < before ==> i in w.gone
  {
    if before == 0 || before - 1 !in w.gone then before else LastKept(w, before - 1)
  }

  function First(w: World): Option<StreamId> {
    if Edge(w, 0) < |w.log| then Some(w.log[Edge(w, 0)].id) else None
  }

  function Tail(w: World): Option<StreamId> {
    if LastKept(w, |w.log|) > 0 then Some(w.log[LastKept(w, |w.log|) - 1].id) else None
  }

  function Newer(entries: seq<Entry>, bound: StreamId): seq<Entry> {
    if |entries| == 0 then []
    else (if entries[0].id.Gt(bound) then [entries[0]] else []) + Newer(entries[1..], bound)
  }

  /** XREAD: the first retained entries after the position, or from the beginning without one. */
  function Read(w: World, position: Option<StreamId>): seq<Entry> {
    var all := Newer(Kept(w, 0), if position.Some? then position.value else ZERO);
    all[..ReadSize(all)]
  }

  function ReadSize(all: seq<Entry>): (n: nat)
    ensures n <= |all|
  {
    if |all| <= READ_COUNT then |all| else READ_COUNT
  }

  /** A hundred entries at most, and all of them if there are fewer. */
  lemma ReadIsLimited(w: World, position: Option<StreamId>)
    ensures |Read(w, position)| <= 100
    ensures |Read(w, position)| < 100 ==>
      Read(w, position) == Newer(Kept(w, 0), if position.Some? then position.value else ZERO)
  {
  }

  /** How much of the log a position stands for: it names the last entry of it, or nothing of it is left. */
  ghost predicate Names(position: Option<StreamId>, mark: nat, w: World) {
    mark <= |w.log| &&
    if position.Some? then mark > 0 && position.value == w.log[mark - 1].id else AllGone(w, 0, mark)
  }

  /** What the last identifier of the stream stands for. */
  function TailMark(w: World): (mark: nat)
    ensures mark <= |w.log|
  {
    if LastKept(w, |w.log|) > 0 then LastKept(w, |w.log|) else |w.log|
  }

  lemma TailNames(w: World)
    ensures Names(Tail(w), TailMark(w), w) && AllGone(w, TailMark(w), |w.log|) && Edge(w, TailMark(w)) == |w.log|
  {
  }

  lemma NamesLater(position: Option<StreamId>, mark: nat, w: World, w': World)
    requires Names(position, mark, w) && Evolves(w, w')
    ensures Names(position, mark, w')
  {
  }

  /** The edge only moves forward. */
  lemma EdgeGrows(w: World, mark: nat, w': World, mark': nat)
    requires Evolves(w, w') && mark <= |w.log| && mark <= mark' <= |w'.log|
    ensures Edge(w, mark) <= Edge(w', mark')
  {
  }

  // ---------------------------------------------------------------- what is retained

  /** The retained entries are in order, and come after whatever the log held before them. */
  lemma {:induction false} KeptSorted(w: World, from: nat)
    requires Sorted(w.log) && from <= |w.log|
    ensures Sorted(Kept(w, from))
    ensures forall i, e :: 0 <= i < from && e in Kept(w, from) ==> e.id.Gt(w.log[i].id)
    decreases |w.log| - from
  {
    if from < |w.log| {
      KeptSorted(w, from + 1);
      var rest := Kept(w, from + 1);
      if from !in w.gone {
        assert forall i :: 0 <= i < |rest| ==> rest[i] in rest;
      }
    }
  }

  lemma {:induction false} AllNewer(entries: seq<Entry>, bound: StreamId)
    requires forall e :: e in entries ==> e.id.Gt(bound)
    ensures Newer(entries, bound) == entries
  {
    if |entries| > 0 {
      AllNewer(entries[1..], bound);
    }
  }

  /** What is newer than the entry before the mark is what comes from the mark on. */
  lemma {:induction false} NewerOfKept(w: World, from: nat, mark: nat, bound: StreamId)
    requires from <= mark <= |w.log|
    requires forall i :: from <= i < mark ==> !w.log[i].id.Gt(bound)
    requires forall e :: e in Kept(w, mark) ==> e.id.Gt(bound)
    ensures Newer(Kept(w, from), bound) == Kept(w, mark)
    decreases |w.log| - from
  {
    if from == mark {
      AllNewer(Kept(w, mark), bound);
    } else {
      NewerOfKept(w, from + 1, mark, bound);
      if from in w.gone {
        assert Kept(w, from) == Kept(w, from + 1);
      } else {
        assert Kept(w, from) == [w.log[from]] + Kept(w, from + 1);
        assert Kept(w, from)[1..] == Kept(w, from + 1);
      }
    }
  }

  lemma {:induction false} KeptSkips(w: World, lo: nat, hi: nat)
    requires lo <= hi <= |w.log| && AllGone(w, lo, hi)
    ensures Kept(w, lo) == Kept(w, hi)
    decreases hi - lo
  {
    if lo < hi {
      KeptSkips(w, lo + 1, hi);
    }
  }

  /** One past the last of the first `n` retained entries. */
  function Past(w: World, from: nat, n: nat): (past: nat)
    requires from <= |w.log| && n <= |Kept(w, from)|
    ensures from <= past <= |w.log| && (n > 0 ==> past > from)
    decreases |w.log| - from
  {
    if n == 0 then from else Past(w, from + 1, if from in w.gone then n else n - 1)
  }

  /** The last of the first `n` stands right before it. */
  lemma {:induction false} LastOfPast(w: World, from: nat, n: nat)
    requires from <= |w.log| && 0 < n <= |Kept(w, from)|
    ensures Past(w, from, n) - 1 !in w.gone && w.log[Past(w, from, n) - 1] == Kept(w, from)[n - 1]
    decreases |w.log| - from
  {
    if from in w.gone {
      LastOfPast(w, from + 1, n);
    } else if n > 1 {
      LastOfPast(w, from + 1, n - 1);
    }
  }

  /** And the others come after it. */
  lemma {:induction false} RestOfPast(w: World, from: nat, n: nat)
    requires from <= |w.log| && n <= |Kept(w, from)|
    ensures Kept(w, Past(w, from, n)) == Kept(w, from)[n..]
    decreases |w.log| - from
  {
    if n > 0 {
      RestOfPast(w, from + 1, if from in w.gone then n else n - 1);
    }
  }

  lemma PastIsLast(w: World, from: nat, n: nat)
    requires from <= |w.log| && n <= |Kept(w, from)|
    ensures n > 0 ==> Past(w, from, n) - 1 !in w.gone && w.log[Past(w, from, n) - 1] == Kept(w, from)[n - 1]
    ensures Kept(w, Past(w, from, n)) == Kept(w, from)[n..]
  {
    RestOfPast(w, from, n);
    if n > 0 {
      LastOfPast(w, from, n);
    }
  }

  /** Every retained entry before that is one of the `n`. */
  lemma {:induction false} KeptBefore(w: World, from: nat, n: nat, i: nat) returns (j: nat)
    requires n <= |Kept(w, from)| && from <= i < |w.log| && i < Past(w, from, n) && i !in w.gone
    ensures j < n && Kept(w, from)[j] == w.log[i]
    decreases |w.log| - from
  {
    if from == i {
      j := 0;
    } else {
      var rest := if from in w.gone then n else n - 1;
      j := KeptBefore(w, from + 1, rest, i);
      j := if from in w.gone then j else j + 1;
    }
  }

  /** And every retained entry is one of the log that is not gone. */
  lemma {:induction false} KeptIsThere(w: World, from: nat, e: Entry) returns (i: nat)
    requires e in Kept(w, from)
    ensures from <= i < |w.log| && i !in w.gone && w.log[i] == e
    decreases |w.log| - from
  {
    if from !in w.gone && w.log[from] == e {
      i := from;
    } else {
      i := KeptIsThere(w, from + 1, e);
    }
  }

  /** The first of the retained entries stands at the edge. */
  lemma {:induction false} KeptStarts(w: World, from: nat)
    requires from <= |w.log|
    ensures |Kept(w, from)| == 0 <==> Edge(w, from) == |w.log|
    ensures |Kept(w, from)| > 0 ==> Kept(w, from)[0] == w.log[Edge(w, from)]
    decreases |w.log| - from
  {
    if from < |w.log| {
      KeptStarts(w, from + 1);
    }
  }

  /** A read returns the first of the retained entries after the mark. */
  lemma ReadIsKept(w: World, position: Option<StreamId>, mark: nat)
    requires Valid(w) && Names(position, mark, w)
    ensures Read(w, position) == Kept(w, mark)[..ReadSize(Kept(w, mark))]
    ensures Fresh(Kept(w, mark), 0, ReadSize(Kept(w, mark)), position)
  {
    KeptSorted(w, mark);
    if position.Some? {
      NewerOfKept(w, 0, mark, position.value);
    } else {
      KeptSkips(w, 0, mark);
      NewerOfKept(w, mark, mark, ZERO);
    }
  }
}
