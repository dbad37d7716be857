/** Signing the stored keys of a batch, and the process-wide cache of signing clients. */
module Signing {
  import opened Sequences
  import opened Wrappers

  type Key = string
  type Url = string
  type Endpoint = string
  type Client = nat

  // ---------------------------------------------------------------- one batch

  datatype Cause = BuildFailed | SignFailed

  datatype SignedUrls = SignedUrls(urls: map<Key, Url>, failed: seq<Key>, reason: Option<Cause>)

  /** The parts of the key between slashes. */
  function Parts(key: Key): (parts: seq<string>)
    ensures parts != []
  {
    if key == "" then [""]
    else
      var rest := Parts(key[1..]);
      if key[0] == '/' then [""] + rest else [[key[0]] + rest[0]] + rest[1..]
  }

  predicate ValidKey(key: Key) {
    key != "" && key[0] != '/' && ".." !in Parts(key)
  }

  /** Two dots with nothing else around them between two slashes, or between a slash and an end of the key. */
  predicate DotsAt(key: Key, i: nat) {
    && i + 2 <= |key| && key[i] == '.' && key[i + 1] == '.'
    && (i > 0 ==> key[i - 1] == '/') && (i + 2 < |key| ==> key[i + 2] == '/')
  }

  predicate Dots(key: Key, from: nat) {
    exists i :: from <= i < |key| && DotsAt(key, i)
  }

  lemma EmptyPart(key: Key)
    ensures Parts(key)[0] == "" <==> |key| == 0 || key[0] == '/'
  {
    if |key| > 0 && key[0] != '/' {
      assert |Parts(key)[0]| == 1 + |Parts(key[1..])[0]|;
    }
  }

  lemma OneDot(key: Key)
    ensures Parts(key)[0] == "." <==> |key| > 0 && key[0] == '.' && (|key| > 1 ==> key[1] == '/')
  {
    if |key| > 0 && key[0] != '/' {
      EmptyPart(key[1..]);
      assert Parts(key)[0] == [key[0]] + Parts(key[1..])[0];
      var rest := Parts(key[1..])[0];
      assert Parts(key)[0][1..] == rest && "."[1..] == "";
    }
  }

  lemma FirstPart(key: Key)
    ensures Parts(key)[0] == ".." <==> DotsAt(key, 0)
  {
    if |key| > 0 && key[0] != '/' {
      var rest := Parts(key[1..])[0];
      OneDot(key[1..]);
      assert Parts(key)[0] == [key[0]] + rest;
      assert Parts(key)[0] == ".." <==> key[0] == '.' && rest == "." by {
        assert Parts(key)[0][1..] == rest && ".."[1..] == ".";
        assert [key[0]] + rest == ".." <==> [key[0]] == "." && rest == "." by {
          assert "." + "." == "..";
        }
      }
    }
  }

  lemma {:induction false} DotsInParts(key: Key)
    ensures ".." in Parts(key) <==> Dots(key, 0)
    ensures ".." in Parts(key)[1..] <==> Dots(key, 1)
  {
    FirstPart(key);
    if key != "" {
      var tail := key[1..];
      DotsInParts(tail);
      assert Parts(key)[1..] == if key[0] == '/' then Parts(tail) else Parts(tail)[1..];
      var from := if key[0] == '/' then 0 else 1;
      if Dots(tail, from) {
        var i :| from <= i < |tail| && DotsAt(tail, i);
        assert DotsAt(key, i + 1);
      }
      if Dots(key, 1) {
        var i :| 1 <= i < |key| && DotsAt(key, i);
        assert DotsAt(tail, i - 1);
      }
      assert Parts(key) == [Parts(key)[0]] + Parts(key)[1..];
    }
  }

  /** Valid exactly when it is not empty, does not start with a slash and goes nowhere up. */
  lemma ValidExactly(key: Key)
    ensures ValidKey(key) <==> |key| > 0 && key[0] != '/' && forall i :: 0 <= i < |key| ==> !DotsAt(key, i)
  {
    DotsInParts(key);
  }

  function Untaken(keys: seq<Key>, taken: set<Key>): (r: seq<Key>)
    ensures forall key :: key in r <==> key in keys && key !in taken
  {
    if keys == [] then []
    else
      var before := Untaken(keys[..|keys| - 1], taken);
      if keys[|keys| - 1] in taken then before else before + [keys[|keys| - 1]]
  }

  type Signer = Key -> Reply<Url>

  /** The keys a signer answers for. */
  function Signable(keys: seq<Key>, sign: Signer): set<Key> {
    set key | key in keys && sign(key).Got?
  }

  method SignMany(built: Reply<Signer>, keys: seq<Key>) returns (r: SignedUrls, asked: seq<Key>)
    ensures built.Fault? ==> r == SignedUrls(map[], keys, Some(BuildFailed)) && asked == []
    ensures built.Got? ==>
      asked == keys && r.urls.Keys == Signable(keys, built.value) &&
      (forall key :: key in r.urls ==> built.value(key) == Got(r.urls[key])) &&
      r.failed == Untaken(keys, r.urls.Keys) &&
      r.reason == if r.failed == [] then None else Some(SignFailed)
    ensures keys != [] ==> (r.reason.None? <==> forall key :: key in keys ==> key in r.urls)
  {
    asked := [];
    if built.Fault? {
      assert keys != [] ==> keys[0] in keys;
      return SignedUrls(map[], keys, Some(BuildFailed)), [];
    }
    var sign := built.value;
    var urls: map<Key, Url> := map[];
    var failed: seq<Key> := [];
    for i := 0 to |keys|
      invariant asked == keys[..i] && urls.Keys == Signable(keys[..i], sign)
      invariant forall key :: key in urls ==> sign(key) == Got(urls[key])
      invariant failed == Untaken(keys[..i], Signable(keys, sign))
    {
      assert keys[..i + 1][..i] == keys[..i];
      asked := asked + [keys[i]];
      match sign(keys[i]) {
        case Got(url) => urls := urls[keys[i] := url];
        case Fault => failed := failed + [keys[i]];
      }
    }
    assert keys[..|keys|] == keys;
    assert failed != [] ==> failed[0] in failed;
    assert forall key :: key in keys ==> key in urls || key in failed;
    r := SignedUrls(urls, failed, if failed != [] then Some(SignFailed) else None);
  }

  /** A batch is split in two: the distinct keys that are valid and get a URL, and the others, in the
      order of the input. Only valid keys reach the client, each once, and there is a reason exactly
      when some key failed. */
  method SignBatch(keys: seq<Key>, built: Reply<Signer>) returns (r: SignedUrls, asked: seq<Key>)
    ensures forall key :: key in r.urls <==> key in keys && ValidKey(key) && built.Got? && built.value(key).Got?
    ensures forall key :: key in r.urls ==> built.Got? && built.value(key) == Got(r.urls[key])
    ensures r.failed == Untaken(Distinct(keys), r.urls.Keys)
    ensures r.reason.None? <==> r.failed == []
    ensures forall key :: key in asked ==> key in keys && ValidKey(key)
    ensures NoRepeats(asked)
  {
    asked := [];
    var ordered := Distinct(keys);
    if ordered == [] {
      return SignedUrls(map[], [], None), [];
    }
    var valid, invalid := Split(ordered);
    var signed := SignedUrls(map[], [], None);
    if valid != [] {
      signed, asked := SignMany(built, valid);
    }
    var reason := signed.reason;
    if reason.None? && invalid != [] {
      reason := Some(SignFailed);
    }
    r := SignedUrls(signed.urls, Untaken(ordered, signed.urls.Keys), reason);
    FailedOrNot(ordered, valid, invalid, signed);
  }

  method Split(ordered: seq<Key>) returns (valid: seq<Key>, invalid: seq<Key>)
    requires NoRepeats(ordered)
    ensures forall key :: key in valid <==> key in ordered && ValidKey(key)
    ensures forall key :: key in invalid <==> key in ordered && !ValidKey(key)
    ensures NoRepeats(valid)
  {
    valid, invalid := [], [];
    for i := 0 to |ordered|
      invariant forall key :: key in valid <==> key in ordered[..i] && ValidKey(key)
      invariant forall key :: key in invalid <==> key in ordered[..i] && !ValidKey(key)
      invariant NoRepeats(valid)
    {
      if ValidKey(ordered[i]) {
        valid := valid + [ordered[i]];
      } else {
        invalid := invalid + [ordered[i]];
      }
    }
  }

  lemma FailedOrNot(ordered: seq<Key>, valid: seq<Key>, invalid: seq<Key>, signed: SignedUrls)
    requires forall key :: key in valid <==> key in ordered && ValidKey(key)
    requires forall key :: key in invalid <==> key in ordered && !ValidKey(key)
    requires signed.urls.Keys <= set key | key in valid
    requires signed.reason.None? <==> forall key :: key in valid ==> key in signed.urls
    ensures (signed.reason.None? && invalid == []) <==> Untaken(ordered, signed.urls.Keys) == []
  {
    var failed := Untaken(ordered, signed.urls.Keys);
    assert |invalid| > 0 ==> invalid[0] in invalid;
    assert |failed| > 0 ==> failed[0] in failed;
    if failed == [] {
      forall key | key in ordered ensures key in signed.urls && ValidKey(key) {
        assert key !in failed;
      }
    }
  }

  // ---------------------------------------------------------------- the cache, many threads

  /** Where a thread is in the double-checked lookup of one endpoint's client. */
  datatype At = Checking | Locking | Rechecking | Building | Storing(client: Client) | Unlocking(result: Reply<Client>)
              | Finished(result: Reply<Client>)

  datatype Thread = Thread(endpoint: Endpoint, at: At)

  /** The cache, the thread that holds its lock, every successful construction in order, the threads. */
  datatype Pool = Pool(
    cache: map<Endpoint, Client>, owner: Option<nat>, built: seq<Endpoint>, threads: map<nat, Thread>)

  datatype Step = Arrive(thread: nat, endpoint: Endpoint) | Move(thread: nat, factorySucceeds: bool)

  predicate Enabled(p: Pool, step: Step) {
    match step
    case Arrive(t, _) => t !in p.threads
    case Move(t, _) =>
      t in p.threads && !p.threads[t].at.Finished? && (p.threads[t].at.Locking? ==> p.owner.None?)
  }

  function Advance(p: Pool, t: nat, at: At): Pool
    requires t in p.threads
  {
    p.(threads := p.threads[t := p.threads[t].(at := at)])
  }

  /** A client is named by the number of constructions before it. */
  function Do(p: Pool, step: Step): Pool
    requires Enabled(p, step)
  {
    match step
    case Arrive(t, endpoint) => p.(threads := p.threads[t := Thread(endpoint, Checking)])
    case Move(t, factorySucceeds) =>
      var endpoint := p.threads[t].endpoint;
      match p.threads[t].at
      case Checking => Advance(p, t, if endpoint in p.cache then Finished(Got(p.cache[endpoint])) else Locking)
      case Locking => Advance(p.(owner := Some(t)), t, Rechecking)
      case Rechecking => Advance(p, t, if endpoint in p.cache then Unlocking(Got(p.cache[endpoint])) else Building)
      case Building =>
        if factorySucceeds then Advance(p.(built := p.built + [endpoint]), t, Storing(|p.built|))
        else Advance(p, t, Unlocking(Fault))
      case Storing(client) => Advance(p.(cache := p.cache[endpoint := client]), t, Unlocking(Got(client)))
      case Unlocking(result) => Advance(p.(owner := None), t, Finished(result))
      case Finished(_) => p
  }

  predicate Inside(at: At) {
    at.Rechecking? || at.Building? || at.Storing? || at.Unlocking?
  }

  /** What a thread knows: only the owner is inside the lock, an endpoint about to be built is not in
      the cache, and every client a thread got is the cached one. */
  ghost predicate ThreadOk(p: Pool, t: nat)
    requires t in p.threads
  {
    var endpoint, at := p.threads[t].endpoint, p.threads[t].at;
    (Inside(at) <==> p.owner == Some(t)) &&
    (at.Building? ==> endpoint !in p.cache && endpoint !in p.built) &&
    (at.Storing? ==> endpoint !in p.cache && at.client < |p.built| && p.built[at.client] == endpoint) &&
    (at.Unlocking? && at.result.Got? ==> endpoint in p.cache && p.cache[endpoint] == at.result.value) &&
    (at.Finished? && at.result.Got? ==> endpoint in p.cache && p.cache[endpoint] == at.result.value)
  }

  /** Every construction is in the cache, except one its thread is about to store. */
  ghost predicate Inv(p: Pool) {
    (forall i, j :: 0 <= i < j < |p.built| ==> p.built[i] != p.built[j]) &&
    (forall e :: e in p.cache ==> p.cache[e] < |p.built| && p.built[p.cache[e]] == e) &&
    (forall t :: t in p.threads ==> ThreadOk(p, t)) &&
    (p.owner.Some? ==> p.owner.value in p.threads) &&
    (forall e :: e in p.built ==> e in p.cache || Pending(p, e))
  }

  predicate Pending(p: Pool, e: Endpoint) {
    p.owner.Some? && p.owner.value in p.threads &&
    p.threads[p.owner.value].at.Storing? && p.threads[p.owner.value].endpoint == e
  }

  /** Threads other than the one that moved keep what they know. */
  ghost predicate Later(p: Pool, p': Pool, t: nat) {
    p.built <= p'.built && p.cache.Keys <= p'.cache.Keys &&
    (forall e :: e in p.cache ==> p'.cache[e] == p.cache[e]) &&
    (forall u :: u in p.threads && u != t ==> u in p'.threads && p'.threads[u] == p.threads[u]) &&
    p'.threads.Keys == p.threads.Keys + {t}
  }

  lemma OthersKeep(p: Pool, p': Pool, t: nat, u: nat)
    requires Later(p, p', t) && u in p.threads && u != t && ThreadOk(p, u)
    requires p'.owner != Some(u) <==> p.owner != Some(u)
    requires Inside(p.threads[u].at) ==> p'.cache == p.cache && p'.built == p.built
    ensures ThreadOk(p', u)
  {
  }

  lemma MoverKeeps(p: Pool, t: nat, factorySucceeds: bool)
    requires Inv(p) && Enabled(p, Move(t, factorySucceeds))
    ensures var p' := Do(p, Move(t, factorySucceeds));
      t in p'.threads && ThreadOk(p', t) && Later(p, p', t)
  {
    if p.threads[t].at.Building? {
      assert p.threads[t].endpoint !in p.built;
    }
  }

  lemma RecordsKeep(p: Pool, t: nat, factorySucceeds: bool)
    requires Inv(p) && Enabled(p, Move(t, factorySucceeds))
    ensures var p' := Do(p, Move(t, factorySucceeds));
      (forall i, j :: 0 <= i < j < |p'.built| ==> p'.built[i] != p'.built[j]) &&
      (forall e :: e in p'.cache ==> p'.cache[e] < |p'.built| && p'.built[p'.cache[e]] == e) &&
      (forall e :: e in p'.built ==> e in p'.cache || Pending(p', e))
  {
    assert ThreadOk(p, t);
  }

  /** Whatever thread moves: at most one construction per endpoint ever succeeds, and the cached
      client of an endpoint never changes. */
  lemma StepKeeps(p: Pool, step: Step)
    requires Inv(p) && Enabled(p, step)
    ensures Inv(Do(p, step)) && Later(p, Do(p, step), step.thread)
  {
    var p', t := Do(p, step), step.thread;
    if step.Move? {
      MoverKeeps(p, t, step.factorySucceeds);
      RecordsKeep(p, t, step.factorySucceeds);
    }
    forall u | u in p.threads && u != t ensures ThreadOk(p', u) {
      assert ThreadOk(p, u);
      if step.Move? { assert ThreadOk(p, t); }
      OthersKeep(p, p', t, u);
    }
  }

  ghost predicate Runs(p: Pool, steps: seq<Step>)
    decreases |steps|
  {
    steps == [] || (Enabled(p, steps[0]) && Runs(Do(p, steps[0]), steps[1..]))
  }

  ghost function After(p: Pool, steps: seq<Step>): Pool
    requires Runs(p, steps)
    decreases |steps|
  {
    if steps == [] then p else After(Do(p, steps[0]), steps[1..])
  }

  const COLD := Pool(map[], None, [], map[])

  lemma {:induction false} RunKeeps(p: Pool, steps: seq<Step>)
    requires Inv(p) && Runs(p, steps)
    ensures Inv(After(p, steps))
    decreases |steps|
  {
    if steps != [] {
      StepKeeps(p, steps[0]);
      RunKeeps(Do(p, steps[0]), steps[1..]);
    }
  }

  /** In every interleaving from a cold cache: one successful construction per endpoint at most, and
      all threads that got a client for an endpoint got the same one. */
  lemma OneClientPerEndpoint(steps: seq<Step>, t: nat, u: nat)
    requires Runs(COLD, steps)
    requires var p := After(COLD, steps);
      t in p.threads && u in p.threads && p.threads[t].endpoint == p.threads[u].endpoint &&
      p.threads[t].at.Finished? && p.threads[u].at.Finished? &&
      p.threads[t].at.result.Got? && p.threads[u].at.result.Got?
    ensures var p := After(COLD, steps);
      p.threads[t].at.result == p.threads[u].at.result &&
      p.threads[t].at.result.value < |p.built| && p.built[p.threads[t].at.result.value] == p.threads[t].endpoint
    ensures NoRepeats(After(COLD, steps).built)
  {
    RunKeeps(COLD, steps);
    var p := After(COLD, steps);
    assert ThreadOk(p, t) && ThreadOk(p, u);
  }

  /** A construction that fails leaves the cache as it was and lets go of the lock two steps later. */
  lemma FailedBuildLeavesCache(p: Pool, t: nat)
    requires Inv(p) && t in p.threads && p.threads[t].at.Building?
    ensures var p1 := Do(p, Move(t, false));
      p1.cache == p.cache && p1.built == p.built && Enabled(p1, Move(t, false)) &&
      Do(p1, Move(t, false)).owner.None? && Do(p1, Move(t, false)).threads[t].at == Finished(Fault)
  {
  }

  // ---------------------------------------------------------------- every lookup ends

  /** A client that is in the cache is handed out without the lock. */
  lemma CachedNeedsNoLock(p: Pool, t: nat, factorySucceeds: bool)
    requires t in p.threads && p.threads[t].at.Checking? && p.threads[t].endpoint in p.cache
    ensures var p' := Do(p, Move(t, factorySucceeds));
      p'.threads[t].at == Finished(Got(p.cache[p.threads[t].endpoint])) && p' == p.(threads := p'.threads)
  {
  }

  /** How many of its own moves a thread is from its end, at most. */
  function Left(at: At): nat {
    match at
    case Checking => 6
    case Locking => 5
    case Rechecking => 4
    case Building => 3
    case Storing(_) => 2
    case Unlocking(_) => 1
    case Finished(_) => 0
  }

  /** No lookup waits for ever: every move brings its thread nearer to the end, and while some thread has not
      finished, one of them can move. */
  lemma LookupsEnd(p: Pool, t: nat)
    requires Inv(p) && t in p.threads && !p.threads[t].at.Finished?
    ensures forall ok: bool :: Enabled(p, Move(t, ok)) ==> Left(Do(p, Move(t, ok)).threads[t].at) < Left(p.threads[t].at)
    ensures exists u :: u in p.threads && Enabled(p, Move(u, true)) && Enabled(p, Move(u, false))
  {
    assert ThreadOk(p, t);
    if p.owner.Some? {
      var u := p.owner.value;
      assert ThreadOk(p, u);
      assert Enabled(p, Move(u, true)) && Enabled(p, Move(u, false));
    } else {
      assert Enabled(p, Move(t, true)) && Enabled(p, Move(t, false));
    }
  }

  predicate Fails(at: At) {
    (at.Unlocking? || at.Finished?) && at.result.Fault?
  }

  /** Every thread that has finished, or is about to, has a client. */
  predicate NobodyFails(p: Pool) {
    forall t :: t in p.threads ==> !Fails(p.threads[t].at)
  }

  /** Nobody goes away empty-handed unless a construction failed. */
  lemma {:induction false} ClientsForEverybody(p: Pool, steps: seq<Step>)
    requires Runs(p, steps) && NobodyFails(p)
    requires forall k :: 0 <= k < |steps| && steps[k].Move? ==> steps[k].factorySucceeds
    ensures NobodyFails(After(p, steps))
    decreases |steps|
  {
    if steps != [] {
      ClientsForEverybody(Do(p, steps[0]), steps[1..]);
    }
  }
}
