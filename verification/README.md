# Bracket Craft: verified models

Bracket Craft runs football tournaments: an API over PostgreSQL and Redis, an outbox worker, a relay that feeds
sockets from a Redis stream, a browser client and the scripts around them. This project models the parts whose
behaviour depends on order, failure or search, and proves what they guarantee.

| files | what they model |
|---|---|
| `Envelope`, `Relay`, `RelayReads`, `RelayStream`, `RelayRuns`, `RelayGaps`, `RelayWitnesses` | the relay that tails the outbox stream: one cycle, and whole runs against a stream that others append to, trim and wipe and of which a fault may lose any entry |
| `Outbox`, `EndToEnd` | the outbox worker, many workers at once, and worker and relay together |
| `Swiss` | the draw of a Swiss round: bounded backtracking search and greedy fallback |
| `CirclePlaces`, `RoundRobin`, `RoundRobinFacts` | the circle method and the calendar it draws up |
| `Ordering`, `Locking`, `LockProtocol` | row locks in a fixed order, and why they cannot deadlock |
| `Backfill` | the script that encrypts birth dates in place, batch by batch |
| `RateLimit` | the fixed-window script and its bound over timed runs |
| `Pager` | the tournaments store with its generation counter |
| `ChannelGate` | the gate that blocks and releases the realtime channel in end-to-end runs |
| `Text`, `Lockfile`, `LockfileLayout` | the line parsers of the pnpm lockfile and the gate over them |
| `StorageUrls`, `Signing` | object URLs and keys, batch signing and the client cache |
| `Reloads`, `StatusLog`, `Verdict`, `Heartbeat` | the end-to-end observations, their verdict, and the worker's heartbeat |

`Sequences` and `Wrappers` hold what several of them share: counting, repetition, optional values.

State that the source updates in place is a class whose methods are tied to a function of the old state; runs of
several parties are step functions over a value, and the invariants are proved over every sequence of steps.
Clocks, random numbers, the network, failures at an await and the actions of other sessions are parameters, so a
statement holds for all of them.

What turned out not to hold everywhere is stated exactly, with a witness:

- The relay's checks notice a loss exactly when nothing is retained up to its position, or nothing from it on
  (`AnnouncedExactly`). While only trims and wipes take entries, an entry is lost silently only without a position,
  or when a trim overtakes the position between the check and the read of one cycle (`SilentLossOnlyIf`,
  `EmptyStartLosesSilently`, `TrimInTheWindowLosesSilently`).
- A fault of Redis that loses entries behind the position and is followed by new ones escapes the checks of
  backend/app/main.py:459-470; only a new run id tells, and a failure right after it was noted
  forgets it (`LossBehindThePositionExactly`, `ForgottenResetExactly`, `ForgottenTailLossIsSilent`).
- A restart of Redis is announced however many cycles without `INFO` lie between, but what a start that failed saw is
  forgotten (`RestartIsAnnounced`, `FailedStartForgets`).
- An event for two rooms whose second emit fails reaches the organization again exactly if the next cycle reads, finds
  the entry as the first one retained and can send (`SentAgainExactly`, `OrganizationGetsItTwice`,
  `OrganizationGetsItOnce`); nothing else is sent twice (`OnlyTheOrganizationAgain`).
- After a change of organization the store's list is right exactly when it was cleared, or a fresh load landed, or it
  fitted as it was (`PrefixExactly`); a fresh load that fails leaves the old list in place, and a later `loadMore`
  mixes two organizations (`FailedFreshLoadMixes`).
- `key_from_url` gives a key back exactly when a public base or an endpoint is configured; the third form never
  does (`UrlRoundTripExactly`).
- The two lockfile parsers agree exactly when the last dependency of each name, over all importers, has the specifier
  that the root importer gives it, as long as no other block holds both a dependency header at the root importer's
  indentation and a specifier line (`ParsersAgreeExactly`).
- One leg of a round robin is not balanced: the place in the draw decides how often a team hosts
  (`HomeGamesExactly`).
- A run that is not green has no cause exactly when every artifact that did not pass left its own out
  (`UnspokenExactly`, `SilentArtifactLeavesNoCause`), although the summary's documentation promises one (frontend/e2e/runModel.ts:156).
- Laps of the worker between 80 and 90 seconds can look unhealthy, although README.md:33 names 90
  (`LongLapCanLookStalled`, `LongLapsCanStayHealthy`).
- `firstChangeAfter` answers like the full stream, whatever comes, exactly when nothing else than the status asked
  about was showing at the bound (`LogTellsExactly`, `RepeatsAreMissed`).

## Model

| member | source | states |
|---|---|---|
| Envelope.ParsedExactly | backend/app/main.py:255-299 | an entry is readable exactly when it carries an object with a type, an organization and an object as payload, and is read as what it carries, under its own identifier, else the old one |
| Envelope.EnvelopeRoundTrip | backend/app/workers/outbox.py:36-53 | a published row is read back with its own identifier exactly when type and organization are non-empty and the payload is an object |
| Envelope.RoomsExactly | backend/app/main.py:313-326 | the organization's room always, a tournament's exactly for a public event that names one, none twice, all with the same payload |
| Envelope.ServerIdentifierWins | backend/app/main.py:302-326 | every emit of an event carries the server's identifier and leaves the other payload keys alone |
| Relay.RelayState.EmitEntries | backend/app/main.py:485-495 | the loop over the entries refines `Deliver`, entry by entry, for a failure at any emit |
| Relay.RelayState.RunCycle | backend/app/main.py:426-495 | the cycle refines `Cycle` for any reply, or fault, of each await, a missing run id included |
| Relay.ResyncExactly | backend/app/main.py:446-475 | when exactly a cycle announces a RESYNC, for which reason, and where the position jumps |
| Relay.RunIdIsKept | backend/app/main.py:442-457 | a running relay knows the last run id it was given, through any number of cycles without one |
| Relay.RestartIsAnnounced | backend/app/main.py:452-457 | however many cycles lie between, another run id than the last one known is announced, or the cycle raises |
| Relay.RestartIsAnnouncedSinceStart | backend/app/main.py:442-457 | the same from the start of the relay on, for the run ids seen since the cycle that started it |
| Relay.FailedStartForgets | backend/app/main.py:442-451 | witness: a run id that only a failed start saw is forgotten, and another one is not announced |
| Relay.RaisesExactly | backend/app/main.py:442-495 | a cycle raises exactly when an await that it reaches fails |
| Relay.DeliverOrder | backend/app/main.py:485-495 | attempts of one read are in increasing order and the position never moves back |
| Relay.CycleOrder | backend/app/main.py:426-495 | the same for one cycle and the position it started from |
| Relay.OrderBetweenResyncs | backend/app/main.py:477-495 | between two RESYNCs, for arbitrary replies, the position never moves back and every attempt comes after every earlier success |
| RelayReads.DeliverMoves | backend/app/main.py:485-494 | the position ends at the last entry passed, and a cycle raises exactly when it stopped early |
| RelayReads.DeliverSettles | backend/app/main.py:489-494 | every entry passed over was emitted or is malformed |
| RelayReads.DeliverAdvances | backend/app/main.py:485-494 | attempts lie at increasing entries of the read; only the one that stopped it failed |
| RelayStream.ReadIsKept | backend/app/main.py:477-483 | a read returns the first of the retained entries after the position, whatever is gone |
| RelayRuns.TracksKept | backend/app/main.py:442-495 | every cycle keeps: the position names the last entry it stands for, and attempts go forward |
| RelayRuns.AttemptsGoForward | backend/app/main.py:487-494 | in every run the attempted identifiers go forward, and one comes again only after its attempt failed |
| RelayRuns.OnlyTheNextRepeats | backend/app/main.py:492-494 | what a cycle attempts again is the entry right after the position |
| RelayGaps.LostIsUnhandled | backend/app/main.py:461-495 | an entry skipped by a silent loss is neither emitted nor malformed nor covered |
| RelayGaps.NoGapExactly | backend/app/main.py:442-495 | one cycle leaves every entry up to its position handled if and only if it does not lose silently |
| RelayGaps.AnnouncedExactly | backend/app/main.py:446-475 | a running relay announces something exactly when the run id is new, nothing is retained up to its position, or nothing from it on; and covers all |
| RelayGaps.LossDetected | backend/app/main.py:459-475 | with a position, what a trim or wipe took unread is announced by the next cycle that completes, and covered |
| RelayGaps.ForgottenResetExactly | backend/app/main.py:452-457 | a fault after noting a new run id forgets that RESYNC; the next cycle announces exactly what puts the position out of reach |
| RelayGaps.SilentLossOnlyIf | backend/app/main.py:459-477 | what a silent loss needs, and with trims and wipes only, the only two ways |
| RelayGaps.TrimLossExactly | backend/app/main.py:477-494 | with trims and wipes only: a cycle that reads loses silently exactly when it gets past an entry and one before the first retained was to be emitted |
| RelayGaps.LossBehindThePositionExactly | backend/app/main.py:459-475 | a loss of the next entry before a retained one is silent exactly when something up to the position is retained |
| RelayGaps.UndisturbedCycleLosesNothing | backend/app/main.py:459-495 | after trims and wipes only, a cycle nobody disturbs loses nothing |
| RelayGaps.RunKeeps | backend/app/main.py:498-523 | bookkeeping and absence of gaps over every run |
| RelayGaps.RunAccountsExactly | README.md:833-837 | after every run without a silent loss each entry since the start is handled, or retained, or announced by the next completed cycle exactly when that sees a new run id or its position out of reach |
| RelayGaps.NoSilentGap | README.md:833-837 | with a position and trims and wipes only: emitted, malformed, covered, retained, or covered by the next completed cycle |
| RelayGaps.GuardedRunHasNoSilentGap | README.md:833-837 | the same, when no cycle reads without a position or is overtaken by a trim |
| RelayWitnesses.EmptyStartLosesSilently | backend/app/main.py:461 | witness from the relay's start: no position, no check |
| RelayWitnesses.TrimInTheWindowLosesSilently | backend/app/main.py:459-477 | witness from the relay's start: a trim between check and read |
| RelayWitnesses.ForgottenTailLossIsSilent | backend/app/main.py:452-470 | witness from the relay's start: a restart that loses the unread end, a failed lookup, a new entry |
| RelayWitnesses.OrganizationGetsItTwice | backend/app/main.py:489-494 | witness from the relay's start: the second emit fails, and the next cycle sends both |
| RelayWitnesses.OrganizationGetsItOnce | backend/app/main.py:459-475 | witness from the relay's start: the entry is trimmed first, and the next cycle announces it and sends nothing |
| Outbox.Backend.ClaimOutboxEvents | infra/postgres/init/03_hardening.sql:299-335 | a claim marks exactly the offered rows and returns their events |
| Outbox.Backend.ProcessOnce | backend/app/workers/outbox.py:71-113 | the batch refines `ProcessAll` for an exception or a death at any await; `EventOutcome` says what that does to each row |
| Outbox.ClaimLocks | infra/postgres/init/03_hardening.sql:299-335 | a claimed row can be claimed again exactly after more than 300 seconds |
| Outbox.FailRetries | infra/postgres/init/03_hardening.sql:337-353 | a failed row can be claimed again exactly from 5 seconds later on, and never after 5 attempts |
| Outbox.EventOutcome | backend/app/workers/outbox.py:89-112 | what one event of a batch does to its row, whatever its awaits do: processed, available in 5 seconds, failed for good, or still locked; no other row changes |
| Outbox.FinishesExactly | backend/app/workers/outbox.py:89-113 | a batch reports its size exactly when the last await about each event came back |
| Outbox.NothingIsForgotten | README.md:835 | in every interleaving each row is processed, or failed after 5 attempts, or claimable from some instant on |
| Outbox.SettledIsFinal | infra/postgres/init/03_hardening.sql:299-353 | a processed row, and one that failed 5 times, never changes again |
| Outbox.LockedExactly | infra/postgres/init/03_hardening.sql:299-353 | in every run a row is locked exactly while it is processed |
| Outbox.ActionKeeps | backend/app/workers/outbox.py:89-112 | every action of every worker keeps the invariant, and loses no entry and no claim |
| Outbox.WorkersAreAtLeastOnce | README.md:835 | in every interleaving a processed row is in the stream, and every entry is some claimed row's envelope |
| Outbox.EventIsARun | backend/app/workers/outbox.py:89-112 | one event of a batch is a run of those actions |
| Outbox.BatchIsARun | backend/app/workers/outbox.py:89-113 | a whole batch is |
| Outbox.InitiallyGood | infra/postgres/init/03_hardening.sql:299-353 | a table with nothing processed and an empty stream satisfy the invariant |
| EndToEnd.RunFromLog | backend/app/main.py:485-491 | everything the relay attempts is the parse of an entry, sent to its rooms in order |
| EndToEnd.OnlyTheOrganizationAgain | backend/app/main.py:313-326 | of two attempts at one entry the earlier failed, and had sent nothing, or the organization's emit of an event for two rooms |
| EndToEnd.SentAgainExactly | backend/app/main.py:477-494 | after a failed attempt the next cycle sends something of its entry again exactly when it reads, finds it first and can send; and then starts over with the organization |
| EndToEnd.RelayInventsNothing | README.md:833-837 | with workers and relay interleaved and failing anywhere, every emitted event has the id, organization, type and payload of a claimed row |
| Swiss.PairingBudget.Take | backend/app/modules/tournaments/scheduling.py:30-35 | the evaluation that reaches the limit still runs, none after it |
| Swiss.Candidates | backend/app/modules/tournaments/scheduling.py:285-292 | the candidates are the others, each as often as before: nobody with another record before one with the same, then by the gap in points, then by number |
| Swiss.OrientationOptions | backend/app/modules/tournaments/scheduling.py:294-314 | exactly the orientations whose sides have games left, ordered by who still needs games at home and away, evenness and number |
| Swiss.BeforeExactly | backend/app/modules/tournaments/scheduling.py:285-292 | the priority in terms of points, wins and seeded numbers: same record first, then the nearer in points, then the smaller number |
| Swiss.PreferredExactly | backend/app/modules/tournaments/scheduling.py:294-314 | the preferred orientation in terms of games at home and away, the targets and seeded numbers |
| Swiss.BestPartner | backend/app/modules/tournaments/scheduling.py:316-341 | in the best draw every team that was drawable with the first and is better has been ruled out |
| Swiss.SameRecordFirst | backend/app/modules/tournaments/scheduling.py:285-292 | if some team with the same record is drawable with the first, the first is paired with such a team |
| Swiss.BestOrientation | backend/app/modules/tournaments/scheduling.py:294-314 | and it is at home or away as the priorities say |
| Swiss.GreedyPartner | backend/app/modules/tournaments/scheduling.py:355-372 | the greedy choice in the same terms |
| Swiss.EveryTeamPlays | backend/app/modules/tournaments/scheduling.py:316-341 | a draw pairs exactly its teams, nobody with itself |
| Swiss.DrawKeepsTargets | backend/app/modules/tournaments/scheduling.py:294-314 | a pairing is a draw exactly when it repeats no earlier meeting and takes nobody past the games at home and away there are to play |
| Swiss.PairsAreDisjoint | backend/app/modules/tournaments/scheduling.py:316-341 | in a draw nobody is in two pairs |
| Swiss.PairRemoved | backend/app/modules/tournaments/scheduling.py:330-340 | taking any pair out of a draw leaves a draw of the others |
| Swiss.TakenPairFails | backend/app/modules/tournaments/scheduling.py:332-340 | if the others cannot be drawn, no draw holds the pair |
| Swiss.NobodyLeftFor | backend/app/modules/tournaments/scheduling.py:323-341 | if every pair of the first team is in no draw, there is no draw |
| Swiss.SameBest | backend/app/modules/tournaments/scheduling.py:316-341 | which draw is best, pair by pair, depends only on what the counts say |
| Swiss.PairRemaining | backend/app/modules/tournaments/scheduling.py:316-341 | the search is sound and complete: what it finds is the draw the priorities prefer, `None` means there is none, counts are restored on every exit, evaluations stay in the limit |
| Swiss.TryPair | backend/app/modules/tournaments/scheduling.py:330-340 | both orientations fail only if no draw holds the pair either way |
| Swiss.TryOriented | backend/app/modules/tournaments/scheduling.py:332-340 | counting a pair, searching and taking it back |
| Swiss.Choose | backend/app/modules/tournaments/scheduling.py:355-372 | the greedy choice is the allowed pair of the first team with the highest priority |
| Swiss.Greedy | backend/app/modules/tournaments/scheduling.py:343-382 | what the fallback gives is a draw made of greedy choices, within the total limit |
| Swiss.Search | backend/app/modules/tournaments/scheduling.py:405-430 | over the bye candidates in order: the first without whom the others can be drawn, and their best draw |
| Swiss.Fallback | backend/app/modules/tournaments/scheduling.py:432-451 | the fallback over the bye candidates is sound and within its limit |
| Swiss.BuildSwissPairings | backend/app/modules/tournaments/scheduling.py:245-451 | a draw covers all teams once, repeats no meeting and respects the targets, and is the one the priorities prefer unless the search limit was reached; `no_valid_pairing` means none exists; `budget_exhausted` only after the search limit |
| CirclePlaces.FaceExactlyOnce | backend/app/modules/tournaments/scheduling.py:201-212 | in closed form: when and over which pair two places face each other, and never else |
| CirclePlaces.OwnPairExactly | backend/app/modules/tournaments/scheduling.py:203-205 | in each turn a place is in one pair, and who is opposite |
| RoundRobin.TurnSeats | backend/app/modules/tournaments/scheduling.py:212 | rotating the list is moving everybody one place of the closed form |
| RoundRobin.PlayRound | backend/app/modules/tournaments/scheduling.py:202-211 | one round adds, for every question about fixtures, what its pairs add, numbered from 1 |
| RoundRobin.BaseMatches | backend/app/modules/tournaments/scheduling.py:199-212 | the same for the whole leg |
| RoundRobin.AddSecondLeg | backend/app/modules/tournaments/scheduling.py:214-234 | the second leg mirrors the first, home and away swapped |
| RoundRobin.BuildRoundRobinSchedule | backend/app/modules/tournaments/scheduling.py:173-242 | refuses exactly the requests with fewer than two or repeated teams, a negative seed, other than one or two legs or an interval below 1; otherwise the calendar, round count and bye count |
| RoundRobinFacts.EveryoneMeetsEveryone | backend/app/modules/tournaments/scheduling.py:201-234 | every two teams meet once per leg, and over two legs once at home and once away |
| RoundRobinFacts.EveryoneOncePerRound | backend/app/modules/tournaments/scheduling.py:201-242 | every team plays once in every round, but for one rest per leg with an odd number of teams |
| RoundRobinFacts.FixturesExactly | backend/app/modules/tournaments/scheduling.py:201-234 | who hosts whom in which round, in closed form, for every round of both legs |
| RoundRobinFacts.HomeGamesExactly | backend/app/modules/tournaments/scheduling.py:203-211 | how often each place in the draw hosts in one leg, and that two legs are balanced |
| RoundRobinFacts.NothingElse | backend/app/modules/tournaments/scheduling.py:201-242 | there are no other fixtures |
| Locking.Transaction.LockStageAndVersion | backend/app/core/locking.py:33-84 | takes the stage, then its version, both of the organization and the tournament, and what it holds when it stops midway |
| Locking.Transaction.LockVersion | backend/app/core/locking.py:87-122 | takes the version alone, of the organization and the tournament if one is given |
| Locking.Transaction.LockMatches | backend/app/core/locking.py:125-157 | exactly the requested matches, each once, ascending, or nothing if one is unknown |
| Locking.LockedMatches | backend/app/core/locking.py:125-157 | a match is locked exactly when it was asked for, exists and is of the organization |
| Locking.FoundAll | backend/app/core/locking.py:154-157 | comparing two counts decides whether every row was found |
| LockProtocol.StepKeeps | backend/app/core/locking.py:1-25 | no row is ever locked by two transactions |
| LockProtocol.WaitingClimbs | backend/app/core/locking.py:3-9 | along waiting transactions the wanted rows come ever later |
| LockProtocol.NoDeadlock | backend/app/core/locking.py:1-9 | any number of transactions that lock in order never wait in a circle |
| LockProtocol.Progress | backend/app/core/locking.py:1-9 | while any is alive, one can move |
| LockProtocol.WorkDecreases | backend/app/core/locking.py:1-25 | every step uses up work |
| LockProtocol.EveryRunFinishes | backend/app/core/locking.py:1-25 | so every run without arrivals ends with all finished |
| LockProtocol.StartsAlone | backend/app/core/locking.py:1-25 | a transaction whose rows nobody holds can begin and take them all |
| LockProtocol.ProtocolIsInOrder | backend/app/core/locking.py:1-25 | calls in the documented order ask for their rows in order, each finding the tables as they are then, even when calls are made again |
| LockProtocol.TwoBatchesDeadlock | backend/app/core/locking.py:130-134 | witness: two ascending batches per transaction can deadlock |
| Backfill.Database.RunTurn | backend/scripts/encrypt_birth_dates.py:300-323 | one batch, its commit or failure, and the final verification |
| Backfill.Database.RunLoop | backend/scripts/encrypt_birth_dates.py:298-342 | the loop refines `Loop`, whatever other sessions do |
| Backfill.Database.RunBackfill | backend/scripts/encrypt_birth_dates.py:224-370 | the preconditions, the loop and the exit code refine `Run` |
| Backfill.LoopStops | backend/scripts/encrypt_birth_dates.py:315-336 | under any interference there are no more batches than rows pending at the start |
| Backfill.SchemaExactly | backend/scripts/encrypt_birth_dates.py:231-288 | the exit code of every schema, batch size and of an empty table, without writing; 2 exactly for a size below 1 |
| Backfill.RefusedExactly | backend/scripts/encrypt_birth_dates.py:281-297 | under any interference the batches start exactly when there is a document, the oldest is of the key and agrees with its HMAC, and every pending date is plausible; otherwise code 1, no batch, nothing written |
| Backfill.WrongKeyIsRefused | backend/scripts/encrypt_birth_dates.py:147-194 | undisturbed: an oldest document of another key, or with another HMAC, ends the run with code 1 and the same table |
| Backfill.NoDocumentIsRefused | backend/scripts/encrypt_birth_dates.py:156-165 | so does a table without documents |
| Backfill.ImpossibleDateIsRefused | backend/scripts/encrypt_birth_dates.py:81-92 | so does one pending date that is missing, in the future or after its row |
| Backfill.ExitZeroCommitted | backend/scripts/encrypt_birth_dates.py:298-323 | exit 0 means that no batch failed, before or after its commit |
| Backfill.FinalCheckExactly | backend/scripts/encrypt_birth_dates.py:344-370 | the final check succeeds exactly when every row holds a ciphertext, of its own date under the key if it has one |
| Backfill.ExitZeroIsVerified | backend/scripts/encrypt_birth_dates.py:344-370 | under any interference exit 0 means nothing pending and every date encrypted as itself under the key |
| Backfill.CrashIsSafe | backend/scripts/encrypt_birth_dates.py:106-119 | wherever it stops, each row is untouched or holds its own date, and no ciphertext is rewritten |
| Backfill.BatchShrinks | backend/scripts/encrypt_birth_dates.py:106-119 | a batch takes a full batch, or all that is left, off the pending rows |
| Backfill.ReadyStays | backend/scripts/encrypt_birth_dates.py:81-131 | a stopped run leaves a table that can be run again |
| Backfill.LoopCompletes | backend/scripts/encrypt_birth_dates.py:298-342 | on such a table the loop ends well after the ceiling of pending over size |
| Backfill.RerunCompletes | backend/scripts/encrypt_birth_dates.py:281-370 | after a run that stopped anywhere, a rerun exits 0, all dates decrypt, each pending row counted once |
| RateLimit.BuildRateLimitKeys | backend/app/core/rate_limit.py:30-42 | the address key, then the account's and the connection's if given; all different when the digest is injective |
| RateLimit.Redis.Eval | backend/app/core/rate_limit.py:10-23 | the script's loop refines `Script` |
| RateLimit.ScriptOnKey | backend/app/core/rate_limit.py:13-21 | what one evaluation does to one key; a live window never moves, a touched key has a time to live |
| RateLimit.WindowBound | backend/app/core/rate_limit.py:10-23 | within an open window only what is left of the limit gets through |
| RateLimit.AllowanceBound | backend/app/core/rate_limit.py:59-85 | what can get through in an interval of one window |
| RateLimit.FewerThanTwiceTheLimit | backend/app/core/rate_limit.py:59-85 | in any timed run and any such interval, at most 2 * limit - 1 |
| RateLimit.TwoBursts | backend/app/core/rate_limit.py:10-23 | witness: the bound is met |
| RateLimit.RequestFades | backend/app/core/rate_limit.py:15-17 | a request leaves its keys gone after a window |
| RateLimit.RejectedExactly | backend/app/core/rate_limit.py:10-23 | a request is rejected exactly when some key, counted as often as it is given, comes to stand above the limit |
| RateLimit.IdleWindowRecovers | backend/app/core/rate_limit.py:10-23 | after a full idle window, however many were rejected, the request is let through exactly when it gives no key more often than the limit |
| RateLimit.IdentitiesDiffer | backend/app/core/rate_limit.py:36-42 | address, account and connection never share a key when the digest is injective |
| Pager.TournamentsStore.LoadBegin | frontend/app/stores/tournaments.ts:26-34 | the state when a request goes out |
| Pager.TournamentsStore.LoadEnd | frontend/app/stores/tournaments.ts:35-47 | only the response of the current generation and organization lands |
| Pager.TournamentsStore.LoadMore | frontend/app/stores/tournaments.ts:50-53 | appends only when there is more and nothing is loading |
| Pager.TournamentsStore.ClearAll | frontend/app/stores/tournaments.ts:81-87 | empties the list and outdates every request |
| Pager.StepKeeps | frontend/app/stores/tournaments.ts:24-87 | what every step does to the bookkeeping, and exactly which steps spoil or repair the list |
| Pager.PrefixExactly | frontend/app/stores/tournaments.ts:24-87 | in every interleaving with changes of organization, late and failed responses the list is a prefix exactly when, since the last change, it was cleared or replaced by a fresh load, or fitted |
| Pager.ClearingIsEnough | frontend/app/components/WorkspaceShell.vue:111-112 | a clear right before every change is enough |
| Pager.LoadingIsOutstanding | frontend/app/stores/tournaments.ts:31-46 | `loading` holds exactly while a request of the current generation is outstanding |
| Pager.NoMoreMeansAll | frontend/app/stores/tournaments.ts:35-52 | once a fresh load has landed, and until the next clear or change, nothing more to load means that nothing is missing |
| Pager.FailedExactly | frontend/app/stores/tournaments.ts:26-47 | the error shows exactly when a current request failed since the last fresh load was sent and the list last cleared |
| Pager.EmptyUntilAPageLands | frontend/app/stores/tournaments.ts:81-87 | after a clear the list is empty, and offers no more, until a page lands |
| Pager.FailedFreshLoadMixes | frontend/app/stores/tournaments.ts:39-52 | witness: a failed fresh load, then `loadMore` |
| Pager.WholeListInPages | frontend/app/stores/tournaments.ts:26-53 | n items take n / 50 + 1 requests and give the whole list |
| ChannelGate.Gate.NoteChannelActivity | frontend/e2e/channel.ts:379-387 | wakes exactly the waiters whose instant has come |
| ChannelGate.Gate.OnRequest | frontend/e2e/channel.ts:389-404 | a channel request is recorded and counts as activity |
| ChannelGate.Gate.OnChannelHttp | frontend/e2e/channel.ts:427-443 | passes, holds or aborts by mode |
| ChannelGate.Gate.OnChannelHandshake | frontend/e2e/channel.ts:445-466 | establishes or rejects by mode |
| ChannelGate.Gate.WaitForChannelRequestAfter | frontend/e2e/channel.ts:303-330 | over at once if such a request was seen, else a waiter |
| ChannelGate.Gate.OnTimer | frontend/e2e/channel.ts:319-328 | a timeout rejects only a wait that is still waiting |
| ChannelGate.Gate.ReleaseHeld | frontend/e2e/channel.ts:276-279 | every held route leaves, none stays |
| ChannelGate.Gate.Unblock | frontend/e2e/channel.ts:282-287 | opens the channel and releases |
| ChannelGate.Gate.DropWaiters | frontend/e2e/channel.ts:363-365 | everybody still waiting leaves |
| ChannelGate.WakingKeeps | frontend/e2e/channel.ts:379-387 | waking neither loses nor doubles a wait |
| ChannelGate.EveryRunIsGood | frontend/e2e/channel.ts:275-387 | in every run: blocked = held + released + aborted; each wait is waiting once or over, over with an instant at or after its bound unless timed out or disposed; nobody waits for what was seen |
| ChannelGate.ExitsAreFinal | frontend/e2e/channel.ts:303-330 | what a wait ended with never changes |
| ChannelGate.CountersAreTrue | frontend/e2e/channel.ts:427-466 | established counts the handshakes seen while open, rejected the others, blocked the requests seen while closed |
| ChannelGate.RoutesAreTrue | frontend/e2e/channel.ts:427-443 | the held routes are those seen in `hold` since the last release, the aborted ones those seen in `abort` |
| ChannelGate.RecordsAreTrue | frontend/e2e/channel.ts:379-404 | the records are the requests seen, the activity the channel's requests and every handshake |
| ChannelGate.SocketsAreTrue | frontend/e2e/channel.ts:445-466 | the rejected sockets stay until they are discarded; the usable one is the last that was let through, connected and was not closed |
| ChannelGate.Settle | frontend/e2e/channel.ts:332-346 | returns at the first quiet reading, expires at the first late one |
| ChannelGate.SettledIsSilent | frontend/e2e/channel.ts:335-337 | a reading is quiet exactly when there was no activity for a whole window |
| ChannelGate.ExpiresOnlyOnActivity | frontend/e2e/channel.ts:332-346 | an expiry means activity after the timeout began to count |
| Lockfile.ParseRootImporter | infra/scripts/verify_version_sources.py:325-378 | the line loop refines `Scan` |
| Lockfile.FieldsAreRead | infra/scripts/verify_version_sources.py:368-377 | for any text behind the keywords, an empty one included, what is recorded for the dependency |
| Lockfile.NothingElseIsRead | infra/scripts/verify_version_sources.py:355-377 | every other line of a section is passed over |
| Lockfile.NoImportersNoEntries | infra/scripts/verify_version_sources.py:339-345 | whatever the lines, nothing is read where none opens the importers, or none the root importer |
| Lockfile.ParseImporterDependencies | infra/scripts/verify_version_sources.py:287-322 | the older line loop refines its own fold |
| Lockfile.CommentsEndOldSections | infra/scripts/verify_version_sources.py:287-338 | a comment that is not indented enough ends a section for the older parser only |
| Lockfile.ValidateSingleDocument | infra/scripts/verify_version_sources.py:500-569 | reports exactly the complaints that are due, and none exactly when pin, `pmOnFail`, names, specifiers and versions match |
| LockfileLayout.RootImporterIsRecovered | infra/scripts/verify_version_sources.py:325-378 | for every layout the parser gives back exactly the root importer's dependencies |
| LockfileLayout.NoiseIsInvisible | infra/scripts/verify_version_sources.py:337-338 | blank lines and comments can stand anywhere |
| LockfileLayout.OlderReadsAll | infra/scripts/verify_version_sources.py:287-322 | the older parser records the dependencies of all importers, in the order they are written |
| LockfileLayout.ParsersAgreeExactly | infra/scripts/verify_version_sources.py:287-378 | both parsers agree exactly when the last dependency of each name, over all importers, has the root's specifier |
| LockfileLayout.ParsersAgree | infra/scripts/verify_version_sources.py:287-378 | so they do when no other importer has dependencies |
| LockfileLayout.AcceptedExactly | infra/scripts/verify_version_sources.py:542-568 | the dependencies are accepted exactly when package.json declares the same |
| LockfileLayout.ForeignDependenciesLeak | infra/scripts/verify_version_sources.py:297-321 | without a root importer, another's dependencies are nobody's to one parser, and all the root's to the other |
| StorageUrls.UnquoteQuote | backend/app/core/storage.py:242 | decoding undoes percent-encoding of any bytes |
| StorageUrls.SlashIsRaw | backend/app/core/storage.py:242 | a slash in an encoded key is a slash of the key |
| StorageUrls.KeptExactly | backend/app/core/storage.py:242-254 | which bytes are written as they are, and which digits are read in which case |
| StorageUrls.NothingToUnquote | backend/app/core/storage.py:254 | text without an escape is read as it is, lone percent signs included |
| StorageUrls.PublicUrlForms | backend/app/core/storage.py:241-246 | the first two forms, whatever slashes stand at their ends |
| StorageUrls.PathStyleIsRead | backend/app/core/storage.py:259-263 | a URL of any other host is read behind the bucket |
| StorageUrls.AwsFormLosesTheKey | backend/app/core/storage.py:247-263 | in the third form the key never comes back |
| StorageUrls.ConfiguredFormsRoundTrip | backend/app/core/storage.py:241-258 | in the other two it always does |
| StorageUrls.UrlRoundTripExactly | backend/app/core/storage.py:241-263 | so exactly when a base or an endpoint is configured |
| Signing.SignMany | backend/app/core/storage.py:165-193 | every key is signed or failed, in order, and the reason |
| Signing.SignBatch | backend/app/core/storage.py:195-230 | the distinct keys split in signed and failed; only valid keys reach the client; a reason exactly when some failed |
| Signing.ValidExactly | backend/app/core/storage.py:41-44 | a key is valid exactly when it is not empty, does not start with a slash and has no two dots alone between slashes |
| Signing.StepKeeps | backend/app/core/storage.py:81-99 | every step of every thread keeps the cache invariant |
| Signing.OneClientPerEndpoint | backend/app/core/storage.py:81-99 | in every interleaving one construction per endpoint, and all callers get its client |
| Signing.FailedBuildLeavesCache | backend/app/core/storage.py:84-86 | a failed construction changes nothing and lets go of the lock |
| Signing.CachedNeedsNoLock | backend/app/core/storage.py:89-92 | a cached client is handed out without the lock |
| Signing.LookupsEnd | backend/app/core/storage.py:81-99 | every move brings its thread nearer to its end, and while one has not ended some thread can move |
| Signing.ClientsForEverybody | backend/app/core/storage.py:81-99 | in every run without a failed construction everybody gets a client |
| Reloads.MatchEndpoint | frontend/e2e/observations.ts:146-158 | the loop refines `Match` |
| Reloads.MatchIsLongest | frontend/e2e/observations.ts:141-158 | the first endpoint with the longest covering prefix, and none exactly when none covers |
| Reloads.CoveringBasesAgree | frontend/e2e/observations.ts:146-158 | ties are spellings of one path |
| Reloads.CoversExactly | frontend/e2e/observations.ts:136-158 | an endpoint covers its own path and what is a slash further down, never a path that only starts alike |
| Reloads.KindExactly | frontend/e2e/observations.ts:196-232 | what a request counts as, from the covering endpoints and the time since the connection |
| Reloads.IsDuplicateReload | frontend/e2e/observations.ts:171-180 | true exactly when two requests are in the window |
| Reloads.ClassifyReloads | frontend/e2e/observations.ts:196-257 | the counts, per endpoint and in all; attributable + duplicates = in window; duplicates exactly when some endpoint's share has one |
| Reloads.MatchedAreConserved | frontend/e2e/observations.ts:207-232 | every matched request is in exactly one count |
| Reloads.OrderIsIrrelevant | frontend/e2e/observations.ts:207-232 | the order of the requests changes no count |
| StatusLog.StatusModel.Sample | frontend/e2e/statusObserver.ts:53-57 | records changes only |
| StatusLog.StatusModel.Observe | frontend/e2e/statusObserver.ts:58-61 | records always |
| StatusLog.StatusModel.FirstChangeAfter | frontend/e2e/statusObserver.ts:68-73 | the loop refines `FirstChange` |
| StatusLog.CountTransitions | frontend/e2e/observations.ts:366-374 | the loop refines `Transitions` |
| StatusLog.TransitionsAreChanges | frontend/e2e/observations.ts:366-374 | the count is the number of places where the status is another one than before |
| StatusLog.StutterInsensitive | frontend/e2e/statusObserver.ts:48-62 | the recorded log changes as often as everything that was visible |
| StatusLog.FirstChangeIsEarliest | frontend/e2e/statusObserver.ts:68-73 | the earliest of the recorded changes, and none exactly when there is none |
| StatusLog.LogTellsExactly | frontend/e2e/statusObserver.ts:40-44 | the log answers like the full stream, whatever is called from the bound on, exactly when nothing else than the status asked about was showing |
| StatusLog.ChangeIsReal | frontend/e2e/statusObserver.ts:40-44 | then the first change it holds is the first there was |
| StatusLog.RepeatsAreMissed | frontend/e2e/statusObserver.ts:53-57 | witness: about another status it can answer nothing |
| Verdict.PassedExactly | frontend/e2e/runModel.ts:206-260 | a view passes exactly when test and artifact passed inside the limit |
| Verdict.OutcomeExactly | frontend/e2e/runModel.ts:206-260 | when a view is missing, invalid, broken or misbehaving, from its status, artifact and duration |
| Verdict.OmissionTells | frontend/e2e/runModel.ts:238-243 | without a test that ran to its end the cause alone tells why |
| Verdict.CauseTells | frontend/e2e/runModel.ts:245-260 | the artifact's own cause is passed on, and without one the cause alone tells what test and artifact said |
| Verdict.WorstIsGreatest | frontend/e2e/runModel.ts:374-388 | the order of outcomes behind the chain of branches |
| Verdict.Decided | frontend/e2e/runModel.ts:374-391 | the chain of branches gives the worst view, then the flow, then the clock |
| Verdict.BuildRunSummary | frontend/e2e/runModel.ts:341-408 | views, the exit code of `CodeExactly`, reasons without repetition, cause and missing views |
| Verdict.GreenExactly | frontend/e2e/runModel.ts:326-341 | 0 exactly when setup, views, flow and clock all went well |
| Verdict.CodeExactly | frontend/e2e/runModel.ts:326-391 | each of the codes 3, 2 and 1 exactly, from statuses, artifacts and durations: views first, then the flow, then the clock |
| Verdict.SetupTells | frontend/e2e/runModel.ts:315-324 | what a failed setup gives as its cause |
| Verdict.ReasonsExactly | frontend/e2e/runModel.ts:348-373 | the reasons are exactly the setup's failure, or what every failed view and flow gives under its name |
| Verdict.JoinFromTheFront | frontend/e2e/runModel.ts:393 | how reasons are joined to a cause |
| Verdict.WorstViewDecides | frontend/e2e/runModel.ts:376-391 | otherwise the worst view decides, before flow and clock |
| Verdict.SilentArtifactLeavesNoCause | frontend/e2e/runModel.ts:206-260 | witness: a passed test whose artifact says behavioral and not why |
| Verdict.UnspokenExactly | frontend/e2e/runModel.ts:363-393 | when exactly a run that is not green has no cause |
| Heartbeat.Worker.Beat | backend/app/workers/outbox.py:133-139 | the file is written when due and writable, and remembered only then |
| Heartbeat.RecordIsCurrent | backend/app/workers/outbox.py:133-139 | whatever the clock does, a lap that can write leaves a record of less than ten seconds before it and never after |
| Heartbeat.HealthAfterALap | backend/app/workers/heartbeat.py:37-60 | after such a lap the worker looks healthy for 80 seconds, and for no more than 90 |
| Heartbeat.AgeIsBounded | backend/app/workers/outbox.py:126-144 | the file is younger than the interval, a lap for each failed attempt and one more |
| Heartbeat.EightySecondsAreHealthy | backend/app/workers/heartbeat.py:37-60 | laps of at most 80 seconds never look unhealthy |
| Heartbeat.StallIsNoticed | backend/app/workers/heartbeat.py:37-48 | a lap of more than 90 seconds always does |
| Heartbeat.LongLapCanLookStalled | backend/app/workers/heartbeat.py:37-60 | between 80 and 90 a lap can look unhealthy |
| Heartbeat.LongLapsCanStayHealthy | backend/app/workers/heartbeat.py:37-60 | and need not |

## Left out

- JSON text, PGP, HMAC and the digest of rate limit keys: values that are encoded and decoded, or parameters.
- Redis and PostgreSQL themselves: stream identifiers only grow, a script runs atomically, row locks last to the
  end of their transaction and keep others from moving a locked row, time to live runs out at its instant;
  `window` is taken to be positive.
- The order of a claim and `SKIP LOCKED`: a claim may offer any claimable rows, at most 20.
- Which rooms a RESYNC reaches; `emit_gap_resync` swallows every failure, so it never stops a cycle.
- The run id as text of `INFO`, the retry pause of the relay loop and its announcement at start.
- The defaults filled in before a verdict: the limits and the expected views are given.
- Segment and player locks, advisory locks, and what the callers do under the locks.
- Row level security, roles, and the text of log and error messages.
- The store's public list: the same code without an organization.
- Error texts of the store.
- Seeds: the shuffle of a round robin is any permutation, the seeded numbers of a Swiss draw are given; so are
  the standings order and the bye order. The dates and the code texts of fixtures.
- Group draws, elimination brackets, the thread pool and timeout around the Swiss draw.
- Splitting a lockfile into documents, the branch for two documents, regular expressions over it and
  package.json as text. White space is that of ASCII.
- The URL parser of `key_from_url`: a parameter that gives the path of an `https` URL back when its host is made of
  letters, digits, hyphens and dots and its path is percent-encoded.
- States, transitions and reloads inside a view summary, which are copied through.
- Browser events as such: the gate's records of method, URL and status, its trace, its navigations, and the wait
  for a number of connections.
- The wall clock and the monotonic clock of the heartbeat are taken to run alike.
