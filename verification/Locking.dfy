/** The row locks that the structure and match operations take, in the order they take them. */
module Locking {
  import opened Ordering
  import opened Sequences
  import opened Wrappers

  /** Row identifiers are UUIDs, compared as numbers. */
  datatype Lock = StageLock(id: nat) | VersionLock(id: nat) | MatchLock(id: nat) {
    function Level(): nat {
      match this
      case StageLock(_) => 0
      case VersionLock(_) => 1
      case MatchLock(_) => 2
    }

    /** The protocol's order: stages, then versions, then matches by ascending identifier. */
    predicate Before(other: Lock) {
      Level() < other.Level() || (Level() == other.Level() && id < other.id)
    }
  }

  datatype Stage = Stage(organization: nat, tournament: nat, version: nat)
  datatype Version = Version(organization: nat, tournament: nat, status: string)

  /** The rows as the statements find them; a match row is its organization. */
  datatype Tables = Tables(stages: map<nat, Stage>, versions: map<nat, Version>, matches: map<nat, nat>)

  predicate HasStage(t: Tables, organization: nat, tournament: nat, stage: nat) {
    stage in t.stages && t.stages[stage].organization == organization && t.stages[stage].tournament == tournament
  }

  predicate HasVersion(t: Tables, organization: nat, tournament: Option<nat>, version: nat) {
    version in t.versions && t.versions[version].organization == organization &&
    (tournament.Some? ==> t.versions[version].tournament == tournament.value)
  }

  function Found(t: Tables, organization: nat, ids: seq<nat>): set<nat> {
    set id | id in ids && id in t.matches && t.matches[id] == organization
  }

  function MatchLocks(ids: seq<nat>): (locks: seq<Lock>)
    ensures |locks| == |ids| && forall i :: 0 <= i < |ids| ==> locks[i] == MatchLock(ids[i])
  {
    seq(|ids|, i requires 0 <= i < |ids| => MatchLock(ids[i]))
  }

  // ---------------------------------------------------------------- what each helper locks

  datatype Call =
    | StageAndVersion(organization: nat, tournament: nat, stage: nat)
    | VersionOnly(organization: nat, within: Option<nat>, version: nat)
    | Matches(organization: nat, ids: seq<nat>)

  /** The rows a call locks, in order, whether or not it then raises. */
  function LocksOf(t: Tables, call: Call): seq<Lock> {
    match call
    case StageAndVersion(organization, tournament, stage) =>
      if !HasStage(t, organization, tournament, stage) then []
      else
        var version := t.stages[stage].version;
        [StageLock(stage)] +
        if HasVersion(t, organization, Some(tournament), version) then [VersionLock(version)] else []
    case VersionOnly(organization, tournament, version) =>
      if HasVersion(t, organization, tournament, version) then [VersionLock(version)] else []
    case Matches(organization, ids) => MatchLocks(OrderById(Found(t, organization, ids)))
  }

  /** A call that does not raise. */
  predicate Succeeds(t: Tables, call: Call) {
    match call
    case StageAndVersion(organization, tournament, stage) =>
      HasStage(t, organization, tournament, stage) &&
      HasVersion(t, organization, Some(tournament), t.stages[stage].version)
    case VersionOnly(organization, tournament, version) => HasVersion(t, organization, tournament, version)
    case Matches(organization, ids) => AllFound(t, organization, ids)
  }

  /** One database transaction: the locks it has taken so far. */
  class Transaction {
    var held: seq<Lock>

    constructor ()
      ensures held == []
    {
      held := [];
    }

    method SelectForUpdate(lock: Lock)
      modifies this
      ensures held == old(held) + [lock]
    {
      held := held + [lock];
    }

    /** The version of the stage and its status, or nothing when either row is missing. */
    method LockStageAndVersion(t: Tables, organization: nat, tournament: nat, stage: nat)
      returns (r: Option<(nat, string)>)
      modifies this
      ensures held == old(held) + LocksOf(t, StageAndVersion(organization, tournament, stage))
      ensures r.Some? <==> Succeeds(t, StageAndVersion(organization, tournament, stage))
      ensures r.Some? ==> held == old(held) + [StageLock(stage), VersionLock(r.value.0)]
      ensures r.Some? ==>
        && t.stages[stage].organization == organization && t.stages[stage].tournament == tournament
        && r.value.0 in t.versions
        && t.versions[r.value.0].organization == organization && t.versions[r.value.0].tournament == tournament
      ensures r.None? ==>
        || (held == old(held) && (stage in t.stages ==>
              t.stages[stage].organization != organization || t.stages[stage].tournament != tournament))
        || (held == old(held) + [StageLock(stage)] && stage in t.stages && (t.stages[stage].version in t.versions ==>
              || t.versions[t.stages[stage].version].organization != organization
              || t.versions[t.stages[stage].version].tournament != tournament))
      ensures r.Some? ==> r.value.0 == t.stages[stage].version && r.value.1 == t.versions[r.value.0].status
    {
      if !HasStage(t, organization, tournament, stage) {
        return None;
      }
      SelectForUpdate(StageLock(stage));
      var version := t.stages[stage].version;
      if !HasVersion(t, organization, Some(tournament), version) {
        return None;
      }
      SelectForUpdate(VersionLock(version));
      r := Some((version, t.versions[version].status));
    }

    method LockVersion(t: Tables, organization: nat, tournament: Option<nat>, version: nat) returns (r: Option<string>)
      modifies this
      ensures held == old(held) + LocksOf(t, VersionOnly(organization, tournament, version))
      ensures r.Some? <==> Succeeds(t, VersionOnly(organization, tournament, version))
      ensures r.Some? ==> r.value == t.versions[version].status && held == old(held) + [VersionLock(version)]
      ensures r.None? ==> held == old(held)
      ensures r.Some? <==> version in t.versions && t.versions[version].organization == organization
                           && (tournament.Some? ==> t.versions[version].tournament == tournament.value)
    {
      if !HasVersion(t, organization, tournament, version) {
        return None;
      }
      SelectForUpdate(VersionLock(version));
      r := Some(t.versions[version].status);
    }

    method LockRows(found: seq<nat>)
      modifies this
      ensures held == old(held) + MatchLocks(found)
    {
      ghost var before := held;
      for i := 0 to |found|
        invariant held == before + MatchLocks(found)[..i]
      {
        SelectForUpdate(MatchLock(found[i]));
        assert MatchLocks(found)[..i + 1] == MatchLocks(found)[..i] + [MatchLock(found[i])];
      }
      assert MatchLocks(found)[..|found|] == MatchLocks(found);
    }

    /** The requested matches, each once and in ascending order, or nothing when one is unknown. */
    method LockMatches(t: Tables, organization: nat, ids: seq<nat>) returns (r: Option<seq<nat>>)
      modifies this
      ensures held == old(held) + LocksOf(t, Matches(organization, ids))
      ensures r.Some? <==> Succeeds(t, Matches(organization, ids))
      ensures r.Some? <==> forall id :: id in ids ==> id in t.matches && t.matches[id] == organization
      ensures r.Some? ==> held == old(held) + MatchLocks(r.value)
      ensures r.Some? ==> Ascending(r.value) && forall id :: id in r.value <==> id in ids
    {
      var unique := Distinct(ids);
      if |unique| == 0 {
        return Some([]);
      }
      var found := OrderById(Found(t, organization, unique));
      FoundMeans(t, organization, ids, unique, found);
      LockRows(found);
      if |found| != |unique| {
        return None;
      }
      r := Some(found);
    }
  }

  lemma FoundMeans(t: Tables, organization: nat, ids: seq<nat>, unique: seq<nat>, found: seq<nat>)
    requires NoRepeats(unique) && forall id :: id in unique <==> id in ids
    requires found == OrderById(Found(t, organization, unique))
    ensures LocksOf(t, Matches(organization, ids)) == MatchLocks(found) && Ascending(found)
    ensures |found| == |unique| <==> AllFound(t, organization, ids)
    ensures |found| == |unique| ==> forall id :: id in found <==> id in ids
  {
    SameRows(t, organization, unique, ids);
    FoundAll(found, unique, t, organization);
  }

  /** A match is locked exactly when it was asked for, exists and is of the organization. */
  lemma LockedMatches(t: Tables, organization: nat, ids: seq<nat>, lock: Lock)
    ensures lock in LocksOf(t, Matches(organization, ids)) <==>
      lock.MatchLock? && lock.id in ids && lock.id in t.matches && t.matches[lock.id] == organization
  {
    var found := OrderById(Found(t, organization, ids));
    if lock.MatchLock? && lock.id in found {
      var i :| 0 <= i < |found| && found[i] == lock.id;
      assert MatchLocks(found)[i] == lock;
    }
  }

  predicate AllFound(t: Tables, organization: nat, ids: seq<nat>) {
    forall id :: id in ids ==> id in t.matches && t.matches[id] == organization
  }

  lemma SameRows(t: Tables, organization: nat, a: seq<nat>, b: seq<nat>)
    requires forall id :: id in a <==> id in b
    ensures Found(t, organization, a) == Found(t, organization, b)
  {
  }

  /** Comparing the two counts decides whether every requested row was found. */
  lemma FoundAll(found: seq<nat>, unique: seq<nat>, t: Tables, organization: nat)
    requires NoRepeats(unique)
    requires Orders(found, Found(t, organization, unique))
    ensures |found| == |unique| <==> AllFound(t, organization, unique)
    ensures |found| == |unique| ==> forall id :: id in found <==> id in unique
  {
    SizeOfDistinct(found);
    SizeOfDistinct(unique);
    var f, u := Elements(found), Elements(unique);
    assert f == Found(t, organization, unique) && f <= u;
    if |f| == |u| {
      SubsetOfSameSize(f, u);
      forall id ensures id in unique <==> id in found {
        assert id in unique <==> id in u;
        assert id in found <==> id in f;
      }
    }
    if AllFound(t, organization, unique) {
      assert f == u;
    }
  }
}
