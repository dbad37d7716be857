/** The one-off backfill that encrypts the players' birth dates in place, batch by batch.
    Other sessions may change the table at every instant between two statements, and any batch may
    fail before or after its commit. */
module Backfill {
  import opened Ordering
  import opened Wrappers

  /** Days, as PostgreSQL dates compare. */
  type Date = int

  /** A ciphertext: two encryptions of one date differ in their salt. */
  datatype Cipher = Cipher(key: string, plain: Date, salt: nat)

  /** An encrypted identity document and its HMAC, which is taken to be collision-free. */
  datatype Document = Document(key: string, text: string, hmacKey: string, hmacText: string)

  datatype Player = Player(birth: Option<Date>, encrypted: Option<Cipher>, created: Date, document: Option<Document>)

  type Table = map<nat, Player>

  /** Which of the two columns exist, and whether the encrypted one accepts NULL. */
  datatype Schema = Schema(birthDate: bool, encrypted: bool, nullable: bool)

  // ---------------------------------------------------------------- statements

  function Pending(t: Table): set<nat> {
    set id | id in t && t[id].encrypted.None?
  }

  function Documented(t: Table): set<nat> {
    set id | id in t && t[id].document.Some?
  }

  /** NULL encrypts to NULL. */
  function Encrypted(p: Player, key: string, salt: nat): Player {
    p.(encrypted := if p.birth.Some? then Some(Cipher(key, p.birth.value, salt)) else None)
  }

  function BatchIds(t: Table, size: nat): set<nat> {
    FirstOf(Pending(t), size)
  }

  function EncryptBatch(t: Table, key: string, ids: set<nat>, salt: nat -> nat): Table {
    map id | id in t :: if id in ids then Encrypted(t[id], key, salt(id)) else t[id]
  }

  predicate Impossible(p: Player, today: Date) {
    p.encrypted.None? && (p.birth.None? || p.birth.value > today || p.birth.value > p.created)
  }

  predicate NoImpossibleDates(t: Table, today: Date) {
    forall id :: id in t ==> !Impossible(t[id], today)
  }

  /** The oldest document decrypts under the key and its HMAC agrees. */
  predicate KeyVerified(t: Table, key: string) {
    Documented(t) != {} &&
    var sample := t[Least(Documented(t))].document.value;
    sample.key == key && sample.hmacKey == key && sample.hmacText == sample.text
  }

  predicate Mismatched(p: Player) {
    p.birth.Some? && p.encrypted.Some? && p.encrypted.value.plain != p.birth.value
  }

  /** The final statement raises when it meets a ciphertext of another key. */
  predicate Undecipherable(p: Player, key: string) {
    p.birth.Some? && p.encrypted.Some? && p.encrypted.value.key != key
  }

  predicate Verified(t: Table, key: string) {
    Pending(t) == {} && forall id :: id in t ==> !Mismatched(t[id]) && !Undecipherable(t[id], key)
  }

  // ---------------------------------------------------------------- the run

  datatype Fate = Commits | RollsBack | CommitsThenRaises

  /** What the rest of the world does: the other sessions at each instant, the fate of each batch and
      the salts of its ciphertexts. */
  datatype World = World(others: (nat, Table) -> Table, fate: nat -> Fate, salt: (nat, nat) -> nat, today: Date)

  datatype Result = Result(code: nat, table: Table, processed: nat, batches: nat)

  const BEFORE_LOOP := 6

  function Instant(n: nat): nat {
    BEFORE_LOOP + 3 * n
  }

  function BatchTable(t: Table, key: string, size: nat, w: World, n: nat): Table {
    var seen := w.others(Instant(n), t);
    EncryptBatch(seen, key, BatchIds(seen, size), id => w.salt(n, id))
  }

  /** One turn of the batch loop: the run ends there, or the batch changed rows and left some pending. */
  datatype Turn = Ends(code: nat, table: Table) | Batch(table: Table, updated: nat, remaining: nat)

  function OneTurn(t: Table, key: string, size: nat, w: World, n: nat): Turn {
    var seen := w.others(Instant(n), t);
    if w.fate(n) == RollsBack then Ends(1, seen)
    else
      var updated := |BatchIds(seen, size)|;
      var after := w.others(Instant(n) + 1, BatchTable(t, key, size, w, n));
      if w.fate(n) == CommitsThenRaises then Ends(1, after)
      else if updated > 0 then Batch(after, updated, |Pending(after)|)
      else if |Pending(after)| > 0 then Ends(1, after)
      else
        var final := w.others(Instant(n) + 2, after);
        Ends(if Verified(final, key) then 0 else 1, final)
  }

  type Turns = (Table, nat) -> Turn

  function TurnsOf(key: string, size: nat, w: World): Turns {
    (t, n) => OneTurn(t, key, size, w, n)
  }

  /** The batch loop: it goes on only while the pending rows decrease. */
  function Loop(turns: Turns, t: Table, pending: nat, processed: nat, batches: nat): Result
    decreases pending
  {
    match turns(t, batches)
    case Ends(code, table) => Result(code, table, processed, batches)
    case Batch(table, updated, remaining) =>
      if remaining >= pending then Result(1, table, processed, batches)
      else Loop(turns, table, remaining, processed + updated, batches + 1)
  }

  /** The table as the instants before the loop find it. */
  function Early(t: Table, w: World, n: nat): Table {
    if n == 0 then w.others(0, t) else w.others(n, Early(t, w, n - 1))
  }

  function Run(schema: Schema, t: Table, key: string, size: int, w: World): Result {
    if size < 1 then Result(2, t, 0, 0)
    else if !schema.birthDate then Result(if schema.encrypted && !schema.nullable then 0 else 1, Early(t, w, 0), 0, 0)
    else if !schema.encrypted then Result(1, Early(t, w, 0), 0, 0)
    else if Early(t, w, 1) == map[] then Result(0, Early(t, w, 1), 0, 0)
    else if Documented(Early(t, w, 2)) == {} then Result(1, Early(t, w, 2), 0, 0)
    else if !KeyVerified(Early(t, w, 3), key) then Result(1, Early(t, w, 3), 0, 0)
    else if !NoImpossibleDates(Early(t, w, 4), w.today) then Result(1, Early(t, w, 4), 0, 0)
    else Loop(TurnsOf(key, size, w), Early(t, w, 5), |Pending(Early(t, w, 5))|, 0, 0)
  }

  class Database {
    const schema: Schema
    var players: Table

    constructor (schema: Schema, players: Table)
      ensures this.schema == schema && this.players == players
    {
      this.schema := schema;
      this.players := players;
    }

    method Others(w: World, instant: nat)
      modifies this
      ensures players == w.others(instant, old(players))
    {
      players := w.others(instant, players);
    }

    /** One batch, in one transaction: the UPDATE and the count of what is left. When it changed
        nothing and nothing is left, the final verification follows. */
    method RunTurn(key: string, size: nat, w: World, n: nat) returns (turn: Turn)
      modifies this
      ensures turn == OneTurn(old(players), key, size, w, n) && players == turn.table
    {
      Others(w, Instant(n));
      if w.fate(n) == RollsBack {
        return Ends(1, players);
      }
      var ids := BatchIds(players, size);
      players := EncryptBatch(players, key, ids, id => w.salt(n, id));
      Others(w, Instant(n) + 1);
      var remaining := |Pending(players)|;
      if w.fate(n) == CommitsThenRaises {
        return Ends(1, players);
      }
      if |ids| > 0 {
        return Batch(players, |ids|, remaining);
      }
      if remaining > 0 {
        return Ends(1, players);
      }
      Others(w, Instant(n) + 2);
      turn := Ends(if Verified(players, key) then 0 else 1, players);
    }

    method RunLoop(key: string, size: nat, w: World, initial: nat) returns (code: nat, processed: nat, batches: nat)
      modifies this
      ensures Result(code, players, processed, batches) == Loop(TurnsOf(key, size, w), old(players), initial, 0, 0)
    {
      ghost var turns := TurnsOf(key, size, w);
      processed, batches := 0, 0;
      var pending := initial;
      while true
        invariant Loop(turns, old(players), initial, 0, 0) == Loop(turns, players, pending, processed, batches)
        decreases pending
      {
        var turn := RunTurn(key, size, w, batches);
        if turn.Ends? {
          return turn.code, processed, batches;
        }
        if turn.remaining >= pending {
          return 1, processed, batches;
        }
        processed, batches, pending := processed + turn.updated, batches + 1, turn.remaining;
      }
    }

    method RunBackfill(key: string, size: int, w: World) returns (code: nat, processed: nat, batches: nat)
      modifies this
      ensures Result(code, players, processed, batches) == Run(schema, old(players), key, size, w)
    {
      processed, batches := 0, 0;
      if size < 1 {
        return 2, 0, 0;
      }
      Others(w, 0);
      assert players == Early(old(players), w, 0);
      if !schema.birthDate {
        return if schema.encrypted && !schema.nullable then 0 else 1, 0, 0;
      }
      if !schema.encrypted {
        return 1, 0, 0;
      }
      Others(w, 1);
      assert players == Early(old(players), w, 1);
      if players == map[] {
        return 0, 0, 0;
      }
      Others(w, 2);
      assert players == Early(old(players), w, 2);
      if Documented(players) == {} {
        return 1, 0, 0;
      }
      Others(w, 3);
      assert players == Early(old(players), w, 3);
      if !KeyVerified(players, key) {
        return 1, 0, 0;
      }
      Others(w, 4);
      assert players == Early(old(players), w, 4);
      if !NoImpossibleDates(players, w.today) {
        return 1, 0, 0;
      }
      Others(w, 5);
      assert players == Early(old(players), w, 5);
      code, processed, batches := RunLoop(key, size, w, |Pending(players)|);
    }
  }

  // ---------------------------------------------------------------- interference

  /** Whatever a turn does, other sessions included, the loop stops: every batch it goes on from left
      fewer pending rows than the one before, so there are no more batches than rows that were
      pending at the start. */
  lemma {:induction false} LoopStops(turns: Turns, t: Table, pending: nat, processed: nat, batches: nat)
    ensures batches <= Loop(turns, t, pending, processed, batches).batches <= batches + pending
    decreases pending
  {
    var turn := turns(t, batches);
    if turn.Batch? && turn.remaining < pending {
      LoopStops(turns, turn.table, turn.remaining, processed + turn.updated, batches + 1);
    }
  }

  lemma {:induction false} LoopExit(turns: Turns, t: Table, key: string, pending: nat, processed: nat, batches: nat)
    requires forall t, n :: turns(t, n).Ends? && turns(t, n).code == 0 ==> Verified(turns(t, n).table, key)
    ensures var r := Loop(turns, t, pending, processed, batches); r.code == 0 ==> Verified(r.table, key)
    decreases pending
  {
    var turn := turns(t, batches);
    if turn.Batch? && turn.remaining < pending {
      LoopExit(turns, turn.table, key, turn.remaining, processed + turn.updated, batches + 1);
    }
  }

  /** The encrypted column is filled, and with the date of the row under the key if the row has one. */
  predicate IsEncrypted(p: Player, key: string) {
    p.encrypted.Some? &&
    (p.birth.Some? ==> p.encrypted.value.plain == p.birth.value && p.encrypted.value.key == key)
  }

  lemma VerifiedExactly(t: Table, key: string)
    ensures Verified(t, key) <==> forall id :: id in t ==> IsEncrypted(t[id], key)
  {
    if Pending(t) == {} {
      forall id | id in t ensures t[id].encrypted.Some? {
        assert id !in Pending(t);
      }
    }
  }

  /** A batch that rolls back has written nothing. */
  lemma RollBackWritesNothing(t: Table, key: string, size: nat, w: World, n: nat)
    requires w.fate(n) == RollsBack
    ensures OneTurn(t, key, size, w, n).table == w.others(Instant(n), t)
  {
  }

  lemma {:induction false} LoopCommits(
    turns: Turns, t: Table, w: World, pending: nat, processed: nat, batches: nat)
    requires forall t, n {:trigger turns(t, n)} ::
      turns(t, n).Batch? || (turns(t, n).Ends? && turns(t, n).code == 0) ==> w.fate(n) == Commits
    ensures var r := Loop(turns, t, pending, processed, batches);
      r.code == 0 ==> forall n :: batches <= n <= r.batches ==> w.fate(n) == Commits
    decreases pending
  {
    var turn := turns(t, batches);
    if turn.Batch? && turn.remaining < pending {
      LoopCommits(turns, turn.table, w, turn.remaining, processed + turn.updated, batches + 1);
    }
  }

  /** Exit code 0 means that no batch failed, the last and empty one included: neither before nor after its commit. */
  lemma ExitZeroCommitted(schema: Schema, t: Table, key: string, size: int, w: World, n: nat)
    requires schema.birthDate && schema.encrypted && Early(t, w, 1) != map[]
    requires Run(schema, t, key, size, w).code == 0 && n <= Run(schema, t, key, size, w).batches
    ensures w.fate(n) == Commits
  {
    LoopCommits(TurnsOf(key, size, w), Early(t, w, 5), w, |Pending(Early(t, w, 5))|, 0, 0);
  }

  /** A batch without rows that leaves some pending is a failure. */
  lemma StuckIsNoticed(t: Table, key: string, size: nat, w: World, n: nat)
    requires BatchIds(w.others(Instant(n), t), size) == {}
    requires Pending(w.others(Instant(n) + 1, BatchTable(t, key, size, w, n))) != {}
    ensures OneTurn(t, key, size, w, n).Ends? && OneTurn(t, key, size, w, n).code == 1
  {
  }

  /** No two points at which the others can act are the same. */
  lemma InstantsDiffer(n: nat, i: nat, m: nat, j: nat)
    requires i <= 2 && j <= 2 && Instant(n) + i == Instant(m) + j
    ensures n == m && i == j && Instant(n) > 5
  {
  }

  /** The turn that decides the exit code: nothing was updated and nothing is left. */
  lemma FinalCheckExactly(t: Table, key: string, size: nat, w: World, n: nat)
    requires w.fate(n) == Commits && BatchIds(w.others(Instant(n), t), size) == {}
    requires Pending(w.others(Instant(n) + 1, BatchTable(t, key, size, w, n))) == {}
    ensures var turn := OneTurn(t, key, size, w, n);
      turn.Ends? && turn.code <= 1 &&
      (turn.code == 0 <==> forall id :: id in turn.table ==> IsEncrypted(turn.table[id], key))
  {
    VerifiedExactly(OneTurn(t, key, size, w, n).table, key);
  }

  /** Whatever the other sessions do, exit code 0 from a schema with both columns and some players
      means that the last snapshot had nothing pending and every date decrypted to itself. */
  lemma ExitZeroIsVerified(schema: Schema, t: Table, key: string, size: int, w: World)
    requires schema.birthDate && schema.encrypted && Early(t, w, 1) != map[]
    requires Run(schema, t, key, size, w).code == 0
    ensures Verified(Run(schema, t, key, size, w).table, key)
    ensures var r := Run(schema, t, key, size, w);
      forall id :: id in r.table ==> IsEncrypted(r.table[id], key)
  {
    LoopExit(TurnsOf(key, size, w), Early(t, w, 5), key, |Pending(Early(t, w, 5))|, 0, 0);
    VerifiedExactly(Run(schema, t, key, size, w).table, key);
  }

  // ---------------------------------------------------------------- crash and rerun, undisturbed

  ghost predicate Undisturbed(w: World) {
    forall n, t :: w.others(n, t) == t
  }

  /** Rows only went from plaintext to an encryption of that plaintext. */
  predicate RowAdvances(p: Player, p': Player, key: string) {
    p' == p ||
    (p.encrypted.None? && p.birth.Some? && p'.encrypted.Some? && p' == p.(encrypted := p'.encrypted) &&
     p'.encrypted.value.key == key && p'.encrypted.value.plain == p.birth.value)
  }

  ghost predicate Advances(t: Table, t': Table, key: string) {
    t'.Keys == t.Keys && forall id {:trigger RowAdvances(t[id], t'[id], key)} :: id in t ==> RowAdvances(t[id], t'[id], key)
  }

  lemma BatchAdvances(t: Table, key: string, size: nat, salt: nat -> nat)
    ensures Advances(t, EncryptBatch(t, key, BatchIds(t, size), salt), key)
  {
  }

  lemma AdvancesTwice(t: Table, t': Table, t'': Table, key: string)
    requires Advances(t, t', key) && Advances(t', t'', key)
    ensures Advances(t, t'', key)
  {
    forall id | id in t ensures RowAdvances(t[id], t''[id], key) {
      assert RowAdvances(t[id], t'[id], key) && RowAdvances(t'[id], t''[id], key);
    }
  }

  lemma TurnAdvances(t: Table, key: string, size: nat, w: World, n: nat)
    requires Undisturbed(w)
    ensures Advances(t, OneTurn(t, key, size, w, n).table, key)
  {
    assert w.others(Instant(n), t) == t;
    var after := BatchTable(t, key, size, w, n);
    assert w.others(Instant(n) + 1, after) == after;
    assert w.others(Instant(n) + 2, after) == after;
    BatchAdvances(t, key, size, id => w.salt(n, id));
  }

  lemma {:induction false} LoopAdvances(turns: Turns, t: Table, key: string, pending: nat, processed: nat, batches: nat)
    requires forall t, n :: Advances(t, turns(t, n).table, key)
    ensures Advances(t, Loop(turns, t, pending, processed, batches).table, key)
    decreases pending
  {
    var turn := turns(t, batches);
    assert Advances(t, turns(t, batches).table, key);
    if turn.Batch? && turn.remaining < pending {
      LoopAdvances(turns, turn.table, key, turn.remaining, processed + turn.updated, batches + 1);
      AdvancesTwice(t, turn.table,
                    Loop(turns, turn.table, turn.remaining, processed + turn.updated, batches + 1).table, key);
    }
  }

  lemma EarlyUndisturbed(t: Table, w: World)
    requires Undisturbed(w)
    ensures forall n: nat :: n <= 5 ==> Early(t, w, n) == t
  {
    assert Early(t, w, 0) == t;
    assert Early(t, w, 1) == t;
    assert Early(t, w, 2) == t;
    assert Early(t, w, 3) == t;
    assert Early(t, w, 4) == t;
    assert Early(t, w, 5) == t;
  }

  /** Wherever the run stops, failures included, each row is untouched or holds an encryption of its
      own date: no plaintext changes and no existing ciphertext is written again. */
  lemma CrashIsSafe(schema: Schema, t: Table, key: string, size: int, w: World)
    requires Undisturbed(w)
    ensures Advances(t, Run(schema, t, key, size, w).table, key)
  {
    EarlyUndisturbed(t, w);
    if size >= 1 {
      forall t, n ensures Advances(t, TurnsOf(key, size, w)(t, n).table, key) {
        TurnAdvances(t, key, size, w, n);
      }
      LoopAdvances(TurnsOf(key, size, w), t, key, |Pending(t)|, 0, 0);
    }
  }

  /** The table can be backfilled with this key: it passes the checks, and what is already encrypted
      is right. */
  ghost predicate Ready(t: Table, key: string, today: Date) {
    t != map[] && KeyVerified(t, key) && NoImpossibleDates(t, today) &&
    forall id :: id in t ==> !Mismatched(t[id]) && !Undecipherable(t[id], key)
  }

  lemma RowStaysReady(p: Player, p': Player, key: string, today: Date)
    requires RowAdvances(p, p', key) && !Impossible(p, today) && !Mismatched(p) && !Undecipherable(p, key)
    ensures !Impossible(p', today) && !Mismatched(p') && !Undecipherable(p', key) && p'.document == p.document
  {
  }

  lemma ReadyStays(t: Table, t': Table, key: string, today: Date)
    requires Ready(t, key, today) && Advances(t, t', key)
    ensures Ready(t', key, today)
  {
    forall id | id in t
      ensures !Impossible(t'[id], today) && !Mismatched(t'[id]) && !Undecipherable(t'[id], key) &&
              t'[id].document == t[id].document
    {
      RowStaysReady(t[id], t'[id], key, today);
    }
    assert Documented(t') == Documented(t);
    assert t'.Keys == t.Keys != {};
  }

  function Ceiling(n: nat, size: nat): nat
    requires size > 0
  {
    (n + size - 1) / size
  }

  /** A batch of a ready table encrypts exactly its rows. */
  lemma BatchShrinks(t: Table, key: string, size: nat, today: Date, salt: nat -> nat)
    requires NoImpossibleDates(t, today) && size > 0
    ensures var n := |Pending(t)|;
      |BatchIds(t, size)| == (if n <= size then n else size) &&
      |Pending(EncryptBatch(t, key, BatchIds(t, size), salt))| == n - |BatchIds(t, size)|
  {
    var ids := BatchIds(t, size);
    SizeOfFirst(Pending(t), size);
    var after := EncryptBatch(t, key, ids, salt);
    forall id ensures id in Pending(after) <==> id in Pending(t) && id !in ids {
      if id in t && id in ids {
        assert !Impossible(t[id], today);
      }
    }
    assert Pending(after) == Pending(t) - ids;
  }

  lemma CeilingStep(n: nat, size: nat)
    requires size > 0 && n > 0
    ensures Ceiling(n, size) == 1 + Ceiling(if n <= size then 0 else n - size, size)
  {
    var rest := (if n <= size then 0 else n - size) + size - 1;
    if n <= size {
      Quotient(n + size - 1, size, 1);
      Quotient(rest, size, 0);
    } else {
      Quotient(n + size - 1, size, 1 + rest / size);
    }
  }

  lemma Ordered(a: nat, b: nat, size: nat)
    requires a <= b
    ensures a * size <= b * size
  {
    assert (b - a) * size >= 0;
  }

  lemma Quotient(n: nat, size: nat, q: nat)
    requires size > 0 && q * size <= n < q * size + size
    ensures n / size == q
  {
    var r := n / size;
    assert n == r * size + n % size;
    if r < q {
      Ordered(r + 1, q, size);
    } else if q < r {
      Ordered(q + 1, r, size);
    }
  }

  /** The turn of a ready table: it ends the run well, or encrypts a full batch or all that is left. */
  ghost predicate Completes(t: Table, turn: Turn, key: string, size: nat, today: Date) {
    var pending := |Pending(t)|;
    if pending == 0 then turn.Ends? && turn.code == 0
    else turn.Batch? && Ready(turn.table, key, today) && turn.remaining == |Pending(turn.table)| &&
         turn.updated == (if pending <= size then pending else size) && turn.remaining == pending - turn.updated
  }

  lemma TurnCompletes(t: Table, key: string, size: nat, w: World, n: nat)
    requires Undisturbed(w) && Ready(t, key, w.today) && size > 0 && w.fate(n) == Commits
    ensures Completes(t, OneTurn(t, key, size, w, n), key, size, w.today)
  {
    var after := BatchTable(t, key, size, w, n);
    assert w.others(Instant(n), t) == t;
    assert w.others(Instant(n) + 1, after) == after;
    assert w.others(Instant(n) + 2, after) == after;
    BatchShrinks(t, key, size, w.today, id => w.salt(n, id));
    BatchAdvances(t, key, size, id => w.salt(n, id));
    ReadyStays(t, after, key, w.today);
  }

  lemma {:induction false} LoopCompletes(
    turns: Turns, t: Table, key: string, size: nat, today: Date, processed: nat, batches: nat)
    requires Ready(t, key, today) && size > 0
    requires forall t, n {:trigger turns(t, n)} :: Ready(t, key, today) ==> Completes(t, turns(t, n), key, size, today)
    ensures var r := Loop(turns, t, |Pending(t)|, processed, batches);
      r.code == 0 && r.processed == processed + |Pending(t)| &&
      r.batches == batches + Ceiling(|Pending(t)|, size)
    decreases |Pending(t)|
  {
    var pending, turn := |Pending(t)|, turns(t, batches);
    if pending > 0 {
      CeilingStep(pending, size);
      LoopCompletes(turns, turn.table, key, size, today, processed + turn.updated, batches + 1);
    } else {
      Quotient(size - 1, size, 0);
    }
  }

  /** After a run that stopped anywhere, an undisturbed run of a ready table exits 0 with every row
      decrypting to its original date, in as many full batches as its pending rows need, and counts
      each pending row once. */
  lemma RerunCompletes(schema: Schema, t: Table, key: string, size: int, crashed: World, again: World)
    requires schema.birthDate && schema.encrypted && size >= 1 && Ready(t, key, again.today)
    requires Undisturbed(crashed) && Undisturbed(again) && forall n: nat :: again.fate(n) == Commits
    ensures var stopped := Run(schema, t, key, size, crashed).table;
      var r := Run(schema, stopped, key, size, again);
      r.code == 0 && Verified(r.table, key) && Advances(t, r.table, key) &&
      r.processed == |Pending(stopped)| && r.batches == Ceiling(|Pending(stopped)|, size)
  {
    var stopped := Run(schema, t, key, size, crashed).table;
    CrashIsSafe(schema, t, key, size, crashed);
    ReadyStays(t, stopped, key, again.today);
    EarlyUndisturbed(stopped, again);
    forall t, n: nat | Ready(t, key, again.today)
      ensures Completes(t, TurnsOf(key, size, again)(t, n), key, size, again.today)
    {
      assert again.fate(n) == Commits;
      TurnCompletes(t, key, size, again, n);
    }
    LoopCompletes(TurnsOf(key, size, again), stopped, key, size, again.today, 0, 0);
    ExitZeroIsVerified(schema, stopped, key, size, again);
    CrashIsSafe(schema, stopped, key, size, again);
    AdvancesTwice(t, stopped, Run(schema, stopped, key, size, again).table, key);
  }

  // ---------------------------------------------------------------- what is refused, column by column

  /** The player whose document is tried: the least identifier among those that have one. */
  predicate IsSample(t: Table, id: nat) {
    id in t && t[id].document.Some? &&
    forall other :: other in t && t[other].document.Some? ==> id <= other
  }

  /** The document decrypts under the key, and its HMAC is that of its text under the same key. */
  predicate OfKey(d: Document, key: string) {
    d == Document(key, d.text, key, d.text)
  }

  lemma SampleDecides(t: Table, key: string, id: nat)
    requires IsSample(t, id)
    ensures Documented(t) != {} && (KeyVerified(t, key) <==> OfKey(t[id].document.value, key))
  {
    assert id in Documented(t);
    assert Least(Documented(t)) == id;
  }

  /** A date that is there, not in the future and not after the row's creation. */
  predicate Plausible(birth: Option<Date>, created: Date, today: Date) {
    birth.Some? && birth.value <= today && birth.value <= created
  }

  /** What the run has found when it comes to the batches: a player with a document, then a document of the key, then
      a plausible date on every row that is still to be encrypted. */
  ghost predicate Accepts(t: Table, key: string, w: World) {
    && (exists id :: id in Early(t, w, 2) && Early(t, w, 2)[id].document.Some?)
    && (exists id :: IsSample(Early(t, w, 3), id) && OfKey(Early(t, w, 3)[id].document.value, key))
    && (forall id :: id in Early(t, w, 4) && Early(t, w, 4)[id].encrypted.None? ==>
          Plausible(Early(t, w, 4)[id].birth, Early(t, w, 4)[id].created, w.today))
  }

  lemma FitsExactly(t: Table, key: string)
    ensures KeyVerified(t, key) <==> exists id :: IsSample(t, id) && OfKey(t[id].document.value, key)
  {
    if Documented(t) != {} {
      var id := Least(Documented(t));
      forall other | other in t && t[other].document.Some? ensures id <= other {
        assert other in Documented(t);
      }
      SampleDecides(t, key, id);
    } else {
      forall id | id in t ensures t[id].document.None? {
        assert id !in Documented(t);
      }
    }
  }

  lemma AcceptsExactly(t: Table, key: string, w: World)
    ensures Accepts(t, key, w) <==>
      Documented(Early(t, w, 2)) != {} && KeyVerified(Early(t, w, 3), key) && NoImpossibleDates(Early(t, w, 4), w.today)
  {
    FitsExactly(Early(t, w, 3), key);
    assert Documented(Early(t, w, 2)) != {} <==>
      exists id :: id in Early(t, w, 2) && Early(t, w, 2)[id].document.Some? by {
      forall id ensures id in Documented(Early(t, w, 2)) <==>
                        id in Early(t, w, 2) && Early(t, w, 2)[id].document.Some? {
      }
      assert forall id :: id in Documented(Early(t, w, 2)) ==> Early(t, w, 2)[id].document.Some?;
    }
  }

  /** Some players and both columns: a run that does not accept what it finds fails without a batch, and has written
      nothing; one that does starts on the rows it then finds pending. */
  lemma RefusedExactly(schema: Schema, t: Table, key: string, size: int, w: World)
    requires schema.birthDate && schema.encrypted && size >= 1 && Early(t, w, 1) != map[]
    ensures var r := Run(schema, t, key, size, w);
      if Accepts(t, key, w) then
        r == Loop(TurnsOf(key, size, w), Early(t, w, 5), |Pending(Early(t, w, 5))|, 0, 0)
      else
        r.code == 1 && r.batches == 0 && r.processed == 0
        && (r.table == Early(t, w, 2) || r.table == Early(t, w, 3) || r.table == Early(t, w, 4))
  {
    AcceptsExactly(t, key, w);
  }

  /** Undisturbed, the key that one document was not encrypted with leaves every player as it was. */
  lemma WrongKeyIsRefused(schema: Schema, t: Table, key: string, size: int, w: World, id: nat)
    requires schema.birthDate && schema.encrypted && size >= 1 && Undisturbed(w)
    requires IsSample(t, id)
    requires var d := t[id].document.value; d.key != key || d.hmacKey != key || d.hmacText != d.text
    ensures Run(schema, t, key, size, w) == Result(1, t, 0, 0)
  {
    EarlyUndisturbed(t, w);
    SampleDecides(t, key, id);
  }

  lemma NoDocumentIsRefused(schema: Schema, t: Table, key: string, size: int, w: World)
    requires schema.birthDate && schema.encrypted && size >= 1 && Undisturbed(w)
    requires t != map[] && forall id :: id in t ==> t[id].document.None?
    ensures Run(schema, t, key, size, w) == Result(1, t, 0, 0)
  {
    EarlyUndisturbed(t, w);
    assert Documented(t) == {};
  }

  /** So does one row whose date is missing, in the future, or after its creation. */
  lemma ImpossibleDateIsRefused(schema: Schema, t: Table, key: string, size: int, w: World, id: nat)
    requires schema.birthDate && schema.encrypted && size >= 1 && Undisturbed(w)
    requires id in t && t[id].encrypted.None?
    requires t[id].birth.None? || t[id].birth.value > w.today || t[id].birth.value > t[id].created
    ensures Run(schema, t, key, size, w) == Result(1, t, 0, 0)
  {
    EarlyUndisturbed(t, w);
    assert Impossible(t[id], w.today);
  }

  lemma {:induction false} LoopCode(turns: Turns, t: Table, pending: nat, processed: nat, batches: nat)
    requires forall t, n :: turns(t, n).Ends? ==> turns(t, n).code <= 1
    ensures Loop(turns, t, pending, processed, batches).code <= 1
    decreases pending
  {
    var turn := turns(t, batches);
    if turn.Batch? && turn.remaining < pending {
      LoopCode(turns, turn.table, turn.remaining, processed + turn.updated, batches + 1);
    }
  }

  /** What the columns of the schema, the size of a batch and an empty table decide. Nothing is written. */
  lemma SchemaExactly(schema: Schema, t: Table, key: string, size: int, w: World)
    ensures var r := Run(schema, t, key, size, w);
      && (size < 1 ==> r == Result(2, t, 0, 0))
      && (size >= 1 && !schema.birthDate ==>
            r.table == Early(t, w, 0) && r.batches == r.processed == 0
            && (r.code == 0 <==> schema.encrypted && !schema.nullable) && r.code <= 1)
      && (size >= 1 && schema.birthDate && !schema.encrypted ==> r == Result(1, Early(t, w, 0), 0, 0))
      && (size >= 1 && schema.birthDate && schema.encrypted && Early(t, w, 1) == map[] ==> r == Result(0, map[], 0, 0))
      && (r.code == 2 <==> size < 1)
  {
    if size >= 1 {
      LoopCode(TurnsOf(key, size, w), Early(t, w, 5), |Pending(Early(t, w, 5))|, 0, 0);
    }
  }
}
