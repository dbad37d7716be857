/** The fixed-window counter behind the access control: one atomic script over several keys. */
module RateLimit {
  import opened Sequences
  import opened Wrappers

  type Key = string

  /** A Redis counter; without an expiry it never leaves by itself. */
  datatype Counter = Counter(count: nat, expiry: Option<int>)

  type Store = map<Key, Counter>

  /** A key is gone from the instant its time to live runs out. */
  predicate Alive(s: Store, key: Key, now: int) {
    key in s && (s[key].expiry.None? || now < s[key].expiry.value)
  }

  /** INCR, and EXPIRE when the counter is new or has no time to live. */
  function Touch(s: Store, key: Key, now: int, window: int): Counter {
    var count := (if Alive(s, key, now) then s[key].count else 0) + 1;
    var expiry := if Alive(s, key, now) then s[key].expiry else None;
    Counter(count, if count == 1 || expiry.None? then Some(now + window) else expiry)
  }

  function Script(s: Store, now: int, window: int, keys: seq<Key>, limit: nat): (Store, bool)
    decreases |keys|
  {
    if keys == [] then (s, false)
    else
      var c := Touch(s, keys[0], now, window);
      var (rest, exceeded) := Script(s[keys[0] := c], now, window, keys[1..], limit);
      (rest, exceeded || c.count > limit)
  }

  /** The keys of one request: always its address, then its account and its connection if given.
      The digest and the normalisation of the account are parameters. */
  method BuildRateLimitKeys(
    bucket: string, clientHost: Option<string>, account: Option<string>, connection: Option<string>,
    digest: string -> Key, normalize: string -> string)
    returns (keys: seq<Key>)
    ensures 1 <= |keys| <= 3
    ensures Injective(digest) ==> NoRepeats(keys)
    ensures keys[0] == digest(bucket + ":ip:" + if clientHost.Some? then clientHost.value else "unknown")
    ensures keys[1..] ==
            (if account.Some? && account.value != ""
             then [digest(bucket + ":account:" + normalize(account.value))] else []) +
            (if connection.Some? && connection.value != ""
             then [digest(bucket + ":connection:" + connection.value)] else [])
  {
    keys := [digest(bucket + ":ip:" + if clientHost.Some? then clientHost.value else "unknown")];
    if account.Some? && account.value != "" {
      keys := keys + [digest(bucket + ":account:" + normalize(account.value))];
    }
    if connection.Some? && connection.value != "" {
      keys := keys + [digest(bucket + ":connection:" + connection.value)];
    }
    if Injective(digest) {
      IdentitiesDiffer(bucket, if clientHost.Some? then clientHost.value else "unknown",
        if account.Some? then normalize(account.value) else "",
        if connection.Some? then connection.value else "", digest);
    }
  }

  class Redis {
    var counters: Store

    constructor ()
      ensures counters == map[]
    {
      counters := map[];
    }

    method Eval(now: int, window: int, keys: seq<Key>, limit: nat) returns (exceeded: bool)
      modifies this
      ensures (counters, exceeded) == Script(old(counters), now, window, keys, limit)
    {
      exceeded := false;
      for i := 0 to |keys|
        invariant var (rest, more) := Script(counters, now, window, keys[i..], limit);
                  Script(old(counters), now, window, keys, limit) == (rest, exceeded || more)
      {
        assert keys[i..][1..] == keys[i + 1..];
        var c := Touch(counters, keys[i], now, window);
        counters := counters[keys[i] := c];
        if c.count > limit {
          exceeded := true;
        }
      }
    }
  }

  // ---------------------------------------------------------------- one evaluation

  predicate Counting(s: Store) {
    forall key :: key in s ==> s[key].count >= 1
  }

  /** What one evaluation does to one key: an untouched key keeps its counter; a touched one counts
      up, has a time to live, and never has its window moved while it is alive and has one. */
  lemma {:induction false} ScriptOnKey(s: Store, now: int, window: int, keys: seq<Key>, limit: nat, key: Key)
    requires window > 0
    ensures var (s', exceeded) := Script(s, now, window, keys, limit);
      (key !in keys ==> (key in s' <==> key in s) && (key in s ==> s'[key] == s[key])) &&
      (key in keys ==>
        Alive(s', key, now) && s'[key].expiry.Some? &&
        s'[key].count > (if Alive(s, key, now) then s[key].count else 0) &&
        s'[key].expiry.value ==
          (if Alive(s, key, now) && s[key].expiry.Some? && s[key].count >= 1 then s[key].expiry.value else now + window) &&
        (!exceeded ==> s'[key].count <= limit))
    decreases |keys|
  {
    if keys != [] {
      var c := Touch(s, keys[0], now, window);
      var s1 := s[keys[0] := c];
      ScriptOnKey(s1, now, window, keys[1..], limit, key);
      if key == keys[0] {
        assert Alive(s1, key, now);
      }
    }
  }

  lemma {:induction false} ScriptKeepsCounting(s: Store, now: int, window: int, keys: seq<Key>, limit: nat)
    requires Counting(s)
    ensures Counting(Script(s, now, window, keys, limit).0)
    decreases |keys|
  {
    if keys != [] {
      ScriptKeepsCounting(s[keys[0] := Touch(s, keys[0], now, window)], now, window, keys[1..], limit);
    }
  }

  // ---------------------------------------------------------------- timed runs

  datatype Request = Request(at: int, keys: seq<Key>)

  ghost predicate Timed(requests: seq<Request>) {
    forall i, j :: 0 <= i < j < |requests| ==> requests[i].at <= requests[j].at
  }

  function Next(s: Store, r: Request, window: int, limit: nat): Store {
    Script(s, r.at, window, r.keys, limit).0
  }

  predicate Accepted(s: Store, r: Request, window: int, limit: nat) {
    !Script(s, r.at, window, r.keys, limit).1
  }

  /** How many requests with this key are let through in `[from, until)`. */
  function LetThrough(s: Store, requests: seq<Request>, window: int, limit: nat, key: Key, from: int, until: int): nat
    decreases |requests|
  {
    if requests == [] then 0
    else
      var r := requests[0];
      (if Accepted(s, r, window, limit) && key in r.keys && from <= r.at < until then 1 else 0) +
      LetThrough(Next(s, r, window, limit), requests[1..], window, limit, key, from, until)
  }

  function Spare(s: Store, key: Key, limit: nat): nat
    requires key in s
  {
    if s[key].count < limit then limit - s[key].count else 0
  }

  ghost predicate AllAfter(requests: seq<Request>, from: int) {
    forall r :: r in requests ==> r.at >= from
  }

  /** Within the window that a key has open, only what the counter leaves of the limit gets through. */
  lemma {:induction false} WindowBound(
    s: Store, requests: seq<Request>, window: int, limit: nat, key: Key, from: int, until: int)
    requires window > 0 && Counting(s) && Timed(requests) && AllAfter(requests, from)
    requires Alive(s, key, from) && s[key].expiry.Some? && until <= s[key].expiry.value
    ensures LetThrough(s, requests, window, limit, key, from, until) <= Spare(s, key, limit)
    decreases |requests|
  {
    if requests != [] {
      var r := requests[0];
      var s' := Next(s, r, window, limit);
      assert r in requests;
      ScriptOnKey(s, r.at, window, r.keys, limit, key);
      ScriptKeepsCounting(s, r.at, window, r.keys, limit);
      if r.at < until {
        AfterFirst(requests);
        WindowBound(s', requests[1..], window, limit, key, r.at, until);
        SameCount(s', requests[1..], window, limit, key, from, r.at, until);
      } else {
        AfterFirst(requests);
        NothingLate(s', requests[1..], window, limit, key, from, until);
      }
    }
  }

  lemma AfterFirst(requests: seq<Request>)
    requires Timed(requests) && requests != []
    ensures Timed(requests[1..]) && AllAfter(requests[1..], requests[0].at)
  {
    forall r | r in requests[1..] ensures r.at >= requests[0].at {
      var i :| 0 <= i < |requests[1..]| && requests[1..][i] == r;
      assert requests[i + 1] == r;
    }
  }

  lemma {:induction false} NothingLate(
    s: Store, requests: seq<Request>, window: int, limit: nat, key: Key, from: int, until: int)
    requires AllAfter(requests, until)
    ensures LetThrough(s, requests, window, limit, key, from, until) == 0
    decreases |requests|
  {
    if requests != [] {
      assert requests[0] in requests;
      NothingLate(Next(s, requests[0], window, limit), requests[1..], window, limit, key, from, until);
    }
  }

  lemma {:induction false} SameCount(
    s: Store, requests: seq<Request>, window: int, limit: nat, key: Key, from: int, from': int, until: int)
    requires AllAfter(requests, from') && from <= from'
    ensures LetThrough(s, requests, window, limit, key, from, until) ==
            LetThrough(s, requests, window, limit, key, from', until)
    decreases |requests|
  {
    if requests != [] {
      assert requests[0] in requests;
      SameCount(Next(s, requests[0], window, limit), requests[1..], window, limit, key, from, from', until);
    }
  }

  /** Most of what can still get through in `[from, from + window)`: the rest of the open window, and
      one more window if the open one ends in time. */
  function Allowance(s: Store, key: Key, limit: nat, from: int, window: int): nat {
    if !Alive(s, key, from) then limit
    else if s[key].expiry.None? || s[key].expiry.value >= from + window then Spare(s, key, limit)
    else Spare(s, key, limit) + limit
  }

  lemma {:induction false} AllowanceBound(
    s: Store, requests: seq<Request>, window: int, limit: nat, key: Key, from: int)
    requires window > 0 && Counting(s) && Timed(requests) && AllAfter(requests, from)
    ensures LetThrough(s, requests, window, limit, key, from, from + window) <= Allowance(s, key, limit, from, window)
    decreases |requests|
  {
    if requests != [] {
      var r := requests[0];
      var s' := Next(s, r, window, limit);
      assert r in requests;
      AfterFirst(requests);
      ScriptKeepsCounting(s, r.at, window, r.keys, limit);
      ScriptOnKey(s, r.at, window, r.keys, limit, key);
      forall q | q in requests[1..] ensures q.at >= from {
      }
      if r.at >= from + window {
        NothingLate(s', requests[1..], window, limit, key, from, from + window);
      } else if key in r.keys && !(Alive(s, key, r.at) && s[key].expiry.Some?) {
        WindowBound(s', requests[1..], window, limit, key, r.at, from + window);
        SameCount(s', requests[1..], window, limit, key, from, r.at, from + window);
      } else {
        AllowanceBound(s', requests[1..], window, limit, key, from);
      }
    }
  }

  /** In any timed run and any interval as long as the window, one key lets through fewer than twice
      its limit. */
  lemma {:induction false} FewerThanTwiceTheLimit(
    s: Store, requests: seq<Request>, window: int, limit: nat, key: Key, from: int)
    requires window > 0 && limit > 0 && Counting(s) && Timed(requests)
    ensures LetThrough(s, requests, window, limit, key, from, from + window) <= 2 * limit - 1
    decreases |requests|
  {
    if requests != [] {
      AfterFirst(requests);
      if requests[0].at >= from {
        forall r | r in requests ensures r.at >= from {
          assert r == requests[0] || r in requests[1..];
        }
        AllowanceBound(s, requests, window, limit, key, from);
      } else {
        ScriptKeepsCounting(s, requests[0].at, window, requests[0].keys, limit);
        FewerThanTwiceTheLimit(Next(s, requests[0], window, limit), requests[1..], window, limit, key, from);
      }
    }
  }

  /** The bound is met: a burst at the end of one window and another at the start of the next. */
  lemma TwoBursts()
    ensures var run := [Request(0, ["k"]), Request(9, ["k"]), Request(10, ["k"]), Request(11, ["k"])];
      Timed(run) && LetThrough(map[], run, 10, 2, "k", 9, 19) == 2 * 2 - 1
  {
    var s0: Store := map[];
    var r0, r1, r2, r3 := Request(0, ["k"]), Request(9, ["k"]), Request(10, ["k"]), Request(11, ["k"]);
    OneKey(s0, r0, 10, 2);
    var s1 := Next(s0, r0, 10, 2);
    OneKey(s1, r1, 10, 2);
    var s2 := Next(s1, r1, 10, 2);
    OneKey(s2, r2, 10, 2);
    var s3 := Next(s2, r2, 10, 2);
    OneKey(s3, r3, 10, 2);
    var s4 := Next(s3, r3, 10, 2);
    assert LetThrough(s4, [], 10, 2, "k", 9, 19) == 0;
    assert LetThrough(s3, [r3], 10, 2, "k", 9, 19) == 1;
    assert [r2, r3][1..] == [r3];
    assert LetThrough(s2, [r2, r3], 10, 2, "k", 9, 19) == 2;
    assert [r1, r2, r3][1..] == [r2, r3];
    assert LetThrough(s1, [r1, r2, r3], 10, 2, "k", 9, 19) == 3;
    assert [r0, r1, r2, r3][1..] == [r1, r2, r3];
  }

  lemma OneKey(s: Store, r: Request, window: int, limit: nat)
    requires |r.keys| == 1
    ensures var c := Touch(s, r.keys[0], r.at, window);
      Next(s, r, window, limit) == s[r.keys[0] := c] && (Accepted(s, r, window, limit) <==> c.count <= limit)
  {
    var c := Touch(s, r.keys[0], r.at, window);
    assert r.keys[1..] == [];
    assert Script(s[r.keys[0] := c], r.at, window, [], limit) == (s[r.keys[0] := c], false);
  }

  // ---------------------------------------------------------------- recovery

  /** No key of the request outlives a full window from `since`. */
  predicate Fading(s: Store, keys: seq<Key>, since: int, window: int) {
    forall key :: key in keys && key in s ==> s[key].expiry.Some? && s[key].expiry.value <= since + window
  }

  /** Evaluating a request leaves its keys fading from that instant, if they were before. */
  lemma RequestFades(s: Store, r: Request, window: int, limit: nat, since: int)
    requires window > 0 && Counting(s) && since <= r.at && Fading(s, r.keys, since, window)
    ensures Fading(Next(s, r, window, limit), r.keys, r.at, window)
  {
    forall key | key in r.keys && key in Next(s, r, window, limit)
      ensures Next(s, r, window, limit)[key].expiry.Some? && Next(s, r, window, limit)[key].expiry.value <= r.at + window
    {
      ScriptOnKey(s, r.at, window, r.keys, limit, key);
    }
  }

  /** What the counter of a key stands at. */
  function Standing(s: Store, key: Key, now: int): nat {
    if Alive(s, key, now) then s[key].count else 0
  }

  /** The keys of which one evaluation would count too many. */
  ghost predicate TooMany(s: Store, now: int, keys: seq<Key>, limit: nat) {
    exists key :: key in keys && Standing(s, key, now) + multiset(keys)[key] > limit
  }

  /** Counting the first key and then the others comes to the same. */
  lemma CountedFirst(s: Store, now: int, window: int, keys: seq<Key>, limit: nat)
    requires window > 0 && |keys| > 0
    ensures var c := Touch(s, keys[0], now, window);
      TooMany(s, now, keys, limit) <==> c.count > limit || TooMany(s[keys[0] := c], now, keys[1..], limit)
  {
    var first, rest := keys[0], keys[1..];
    var c := Touch(s, first, now, window);
    var s1 := s[first := c];
    assert keys == [first] + rest;
    assert multiset(keys) == multiset{first} + multiset(rest);
    assert Alive(s1, first, now) && c.count == Standing(s, first, now) + 1;
    forall key ensures Standing(s1, key, now) + multiset(rest)[key] == Standing(s, key, now) + multiset(keys)[key] {
    }
    if TooMany(s, now, keys, limit) && c.count <= limit {
      var key :| key in keys && Standing(s, key, now) + multiset(keys)[key] > limit;
      assert key == first || key in rest;
      assert key !in rest ==> multiset(rest)[key] == 0;
    }
    if c.count > limit {
      assert first in keys && multiset(keys)[first] >= 1;
    }
  }

  /** A request is rejected exactly when some key comes to stand above the limit, counted as often as it is given. */
  lemma {:induction false} RejectedExactly(s: Store, now: int, window: int, keys: seq<Key>, limit: nat)
    requires window > 0
    ensures Script(s, now, window, keys, limit).1 <==> TooMany(s, now, keys, limit)
    decreases |keys|
  {
    if |keys| > 0 {
      CountedFirst(s, now, window, keys, limit);
      RejectedExactly(s[keys[0] := Touch(s, keys[0], now, window)], now, window, keys[1..], limit);
    }
  }

  function AfterAll(s: Store, requests: seq<Request>, window: int, limit: nat): Store
    decreases |requests|
  {
    if requests == [] then s else AfterAll(Next(s, requests[0], window, limit), requests[1..], window, limit)
  }

  /** No key is given more often than the limit. */
  predicate WithinLimit(keys: seq<Key>, limit: nat) {
    forall key :: key in keys ==> multiset(keys)[key] <= limit
  }

  /** Once the keys of a request have been left alone for a full window, whatever else happened and however many
      rejections came before, the request is let through exactly when it gives none of them too often. */
  lemma {:induction false} IdleWindowRecovers(
    s: Store, others: seq<Request>, r: Request, window: int, limit: nat, since: int)
    requires window > 0 && Fading(s, r.keys, since, window) && r.at >= since + window
    requires forall o, key :: o in others && key in r.keys ==> key !in o.keys
    ensures Accepted(AfterAll(s, others, window, limit), r, window, limit) <==> WithinLimit(r.keys, limit)
    decreases |others|
  {
    if others == [] {
      RejectedExactly(s, r.at, window, r.keys, limit);
      assert forall key :: key in r.keys ==> Standing(s, key, r.at) == 0;
    } else {
      var s' := Next(s, others[0], window, limit);
      assert others[0] in others;
      forall key | key in r.keys && key in s' ensures s'[key].expiry.Some? && s'[key].expiry.value <= since + window {
        ScriptOnKey(s, others[0].at, window, others[0].keys, limit, key);
      }
      IdleWindowRecovers(s', others[1..], r, window, limit, since);
    }
  }

  // ---------------------------------------------------------------- the keys of a request

  ghost predicate Injective(digest: string -> Key) {
    forall a, b :: digest(a) == digest(b) ==> a == b
  }

  lemma OtherIdentity(bucket: string, a: string, b: string)
    requires |a| > 1 && |b| > 1 && a[1] != b[1]
    ensures bucket + a != bucket + b
  {
    assert (bucket + a)[|bucket| + 1] == a[1] && (bucket + b)[|bucket| + 1] == b[1];
  }

  /** The address, the account and the connection of one bucket never share a key, whatever they are called, when
      different identities have different digests. */
  lemma IdentitiesDiffer(bucket: string, host: string, account: string, connection: string, digest: string -> Key)
    requires Injective(digest)
    ensures digest(bucket + ":ip:" + host) != digest(bucket + ":account:" + account)
    ensures digest(bucket + ":ip:" + host) != digest(bucket + ":connection:" + connection)
    ensures digest(bucket + ":account:" + account) != digest(bucket + ":connection:" + connection)
  {
    var a, b, c := ":ip:" + host, ":account:" + account, ":connection:" + connection;
    OtherIdentity(bucket, a, b);
    OtherIdentity(bucket, a, c);
    OtherIdentity(bucket, b, c);
    assert bucket + ":ip:" + host == bucket + a;
    assert bucket + ":account:" + account == bucket + b;
    assert bucket + ":connection:" + connection == bucket + c;
  }

  lemma {:induction false} GivenOnce(keys: seq<Key>, key: Key)
    requires NoRepeats(keys)
    ensures multiset(keys)[key] <= 1
  {
    if |keys| > 0 {
      var n := |keys| - 1;
      GivenOnce(keys[..n], key);
      assert keys == keys[..n] + [keys[n]];
      assert key == keys[n] ==> key !in keys[..n];
    }
  }

  /** So a request with such keys is let through after an idle window whenever the limit lets any through. */
  lemma DistinctKeysAreWithin(keys: seq<Key>, limit: nat)
    requires NoRepeats(keys) && limit >= 1
    ensures WithinLimit(keys, limit)
  {
    forall key | key in keys ensures multiset(keys)[key] <= limit {
      GivenOnce(keys, key);
    }
  }
}
