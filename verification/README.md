# Models and proofs of the order protocol and the trust graph

A Dafny project about the parts of the repository that hold its guarantees: the trust-graph scores and the collection and
authoring of attestations (`extension/tg`), the order state, its two storage backends and the session restore, the message
codecs and the encrypted transport, and the small stateful protocols around them (`src/protocol`).

Run `dafny verify dfyconfig.toml`, with a resource limit of 2,000,000 if one is wanted.

What is modelled how:

- Code that updates fields or buffers is a class or a method with loops: the rank iteration over arrays, the best-first path
  search, the graph collection, both stores, the attestation cache, the message router, the first-seen ledger, the key cache.
  Each method is proved against a function of its inputs or of the old state, and the properties are proved about that function.
- Numbers of scores, weights and amounts are exact `real`s. Cryptography is a record of functions with the usual laws stated as
  a predicate: a signature verifies, decryption undoes encryption, both sides derive one conversation key. JSON values are a
  datatype whose objects remember the order of their names; parsing undoes printing by law.
- A relay, a clock, randomness and the acceptance of a publication are parameters: functions of the moment, or arguments.

Modules: `Sums`, `Markov`, `Ppr`, `TrustPath`, `TrustScore`, `Metrics` (scores); `OrderedMaps`, `Revisions`, `Attestations`,
`Layers`, `FetchGraph` (collection); `Attest`, `Authoring`, `TrustGraphs`, `AuthoringRuns` (authoring); `Messages`, `StateMachine`, `Store`, `Sqlite`, `Idb`,
`KeyOrder`, `Handles`, `Backends`, `Applicator`, `Restore` (orders); `Json`, `Wire`, `MessageCodec`, `Transport` (codecs); `Text`, `Encoding`, `Token`,
`OrderBook`, `Binding`, `Invoice`, `FirstSeen`, `DmRouter`, `Encryption`. `Wrappers`, `Sequences`, `Sorting` and `Graph` are shared.

## Where a plain claim is false of the code

Each of these has a lemma that says exactly when the code meets the claim, and most have a concrete case beside it.

- A restore writes the reported status, and "dispute" after it, past the guard (`RestoreRespectsGuard`, `RestoreReopens`,
  `RestoreDisputesFinished`).
- In SQL a reservation without a user row stores nothing (`ReserveTwice`); in IndexedDB an upsert without an index erases the
  stored one (`NullUpsertLosesIndex`, `UpsertThenReserve`, `NullUpsertRepeatsIndex`; `UpsertsAgree` says when both backends agree).
- A snapshot message makes an order without trade keys unreadable in a store with an encryptor, so the order of messages can matter
  and later ones are lost (`SnapshotMayBlock`, `DmOrderDoesNotMatter`, `SnapshotStopsPayment`), and every listing of active orders
  fails from then on (`OneRowFailsAll`, `BlockedRowFailsListing`). A client that tracks a taken order without storing it, as it does
  when a hold or bond invoice is asked for (src/protocol/client.ts:434-449), starts without such keys.
- The two backends list active orders each in their own order (`ListedInKeyOrder`, `ListsDiffer`), and messages with one timestamp
  either way round (`ListingIsDetermined`).
- The envelope of the empty text cannot be opened (`DecryptUndoesEncrypt`, `EmptyKeysBecomeUnreadable`).
- A cache write never compares times (`OverwriteAgrees`, `StaleRevisionWins`), and a revocation without a hint is skipped where
  hints are required (`RevocationTakesEffect`).
- Contexts with colons are not read back from addresses (`ContextRoundTrip`), so revoking everything misses edges of such contexts
  (`RevocationHits`). Two edges can share an address only if a trustee has a colon too, which public keys never have
  (`TrusteesApart`, `CollisionNeedsColons`, `ColonsCollide`; `CollidesExactlyWithColons` speaks of arbitrary trustees).
- A minimum weight drops revocations, and copies from several relays fill the list of a truster (`NewestDecides`,
  `LightRevocationIsLost`; `Strongest`, `RoomyIfFew`, `CopiesFillList`).
- Two tracked keys that share sixteen characters share one order (`KeysKeepOrders`, `SecondKeyTakesEntry`).
- A later, lower time of an order is not taken over into the claims it holds (`CheckKeepsCurrent`, `NoteKeepsCurrent`,
  `OtherKeyLeavesClaimBehind`, `LoweredHolderLoses`); on equal times the later order takes the key, although the comment speaks of
  a genuinely earlier one.
- The expiry scan stops 104 characters before the end, so it reads six characters of the signature (`ExpiryIsFirstField`,
  `PhantomExpiry`).
- Newlines outside the base make challenges collide (`ChallengeIsExact`, `NewlinesCollide`).

Where code and comments differ the code is modelled: the collector does not report a stop at the hop limit as truncation,
although its result type says so; the router never calls its general callback without an order, although its option type allows
it; the second character of a field length in an invoice may be foreign when the first one is not `q`.

## Model

| member | source | states |
|---|---|---|
| `Ppr.NumberNodes` | extension/tg/ppr.ts:35-49 | every node of the graph and the root gets exactly one number, the root the first |
| `Ppr.NormaliseRows` | extension/tg/ppr.ts:51-64 | the buffers hold, for each node, its positive out-weight and the shares of its positive edges |
| `Ppr.KernelIsStochastic` | extension/tg/ppr.ts:51-87 | with dangling mass sent to the root, every adjacency list gives a row-stochastic kernel, whatever its weights |
| `Ppr.Push` | extension/tg/ppr.ts:76-83 | pushing along the edge lists plus the collected dangling mass is one step of that kernel |
| `Ppr.Restore` | extension/tg/ppr.ts:84-87 | dangling mass and teleport go to the root alone, completing the mathematical round |
| `Ppr.Round` | extension/tg/ppr.ts:74-91 | one pass of the loop yields the next vector of the walk and its L1 distance to the old one |
| `Ppr.PowerIterate` | extension/tg/ppr.ts:73-92 | the vector is the iterate of the walk at the first change below the tolerance, or at the cap |
| `Ppr.ComputePpr` | extension/tg/ppr.ts:26-97 | scores for exactly the nodes of the graph and the root, equal to the iterate at which the exit or the cap stopped |
| `Ppr.ScoresAreDistribution` | extension/tg/ppr.ts:69-92 | after any number of rounds the scores are non-negative and sum to one |
| `Markov.Contraction` | extension/tg/ppr.ts:73-92 | one round shrinks the L1 distance of two distributions by the factor alpha |
| `Markov.FixedPointUnique` | extension/tg/ppr.ts:73-92 | a walk has at most one fixed point |
| `Ppr.ScoresNearExact` | extension/tg/ppr.ts:73-92 | the result is within alpha/(1-alpha) times the last measured change of any exact solution |
| `Ppr.ScoresNearLater` | extension/tg/ppr.ts:73-92 | however many rounds more were run, the scores would move no farther than alpha/(1-alpha) times the last measured change |
| `Ppr.ExactScoresUnique` | extension/tg/ppr.ts:73-92 | exact scores, if any, are unique |
| `Ppr.DefaultChangeAt128` | extension/tg/ppr.ts:31-33 | with damping 0.8 the change made by round 128 is below 1e-12 on every graph |
| `Ppr.DefaultScores` | extension/tg/ppr.ts:26-97 | with the defaults the tolerance exit fires within 128 rounds, so the cap of 200 never decides; the scores are within 4e-12 of what any number of further rounds gives, and of any exact solution |
| `Ppr.UnreachableScoresDecay` | extension/tg/ppr.ts:73-92 | nodes the root cannot reach hold together at most alpha^k after k rounds |
| `Ppr.FarmScoreBounded` | extension/tg/ppr.ts:73-92 | a root-free set, however wired inside, holds at most alpha^k plus alpha/(1-alpha) times the largest inflow over its boundary |
| `Markov.PathBoundsScore` | extension/tg/ppr.ts:73-92 | a node at the end of an L-step walk scores at least (1-alpha) alpha^L times the probability of the walk from round L+1 on |
| `TrustScore.PathScoreBoundsPpr` | extension/tg/api.ts:426-444 | the score of the trust path bounds the random-walk score of the identity from below |
| `TrustPath.StrongestPath` | extension/tg/api.ts:407-445 | null exactly for an unreachable identity; otherwise a genuine path from the root whose score is its product, and no path has a larger product |
| `TrustPath.PickBest` | extension/tg/api.ts:416-419 | the frontier entry picked has the largest product |
| `TrustPath.Explore` | extension/tg/api.ts:415-434 | the loop ends although nodes are pushed repeatedly, and visited nodes have their best product |
| `TrustPath.Unwind` | extension/tg/api.ts:435-444 | following parents from a reached identity ends at the root and gives a path of the recorded product |
| `TrustPath.NoPathAboveOne` | extension/tg/api.ts:408 | no closed walk at the root beats the empty path |
| `Metrics.AverageRanks` | extension/tg/metrics.ts:68-76 | each entry of the sorted list gets the average rank of its tie group |
| `Metrics.RankSum` | extension/tg/metrics.ts:77-80 | the rank sum of the positives is half their square plus half their number plus their wins over the negatives |
| `Metrics.Auc` | extension/tg/metrics.ts:65-82 | the one-pass result is the share of pairs won by a positive score, ties counted half; one half when a class is empty |
| `Metrics.AucSwap` | extension/tg/metrics.ts:65-82 | it lies in [0,1], and swapping the classes gives one minus it |
| `Metrics.SortedDifferences` | extension/tg/metrics.ts:40-42 | the index-weighted sum of sorted values counts the difference of every pair |
| `Metrics.Gini` | extension/tg/metrics.ts:34-43 | the one-pass result is the sum of all pair differences over twice the count times the sum |
| `Metrics.GiniOrderFree` | extension/tg/metrics.ts:35 | it does not depend on the order in which the map lists its scores |
| `Metrics.GiniRange` | extension/tg/metrics.ts:34-43 | for non-negative scores with a positive sum it lies in [0, 1-1/n] |
| `Attestations.FindTag` | extension/tg/graph.ts:64-67 | the first tag of the name with a non-empty value |
| `Attestations.ParseAttestation` | extension/tg/graph.ts:69-86 | the attestation of an event, weight within 0..100, never local, from the author of the event; none without kind, trustee or address |
| `Attestations.NewestRevisions` | extension/tg/graph.ts:103-109 | the map kept is the newest accepted revision of every address |
| `Revisions.LatestIsNewest` | extension/tg/graph.ts:103-109 | exactly the addresses that occur are kept, each with a newest revision |
| `Revisions.LatestOrderFree` | extension/tg/graph.ts:103-109 | with no two revisions of an address stamped alike the order of the log does not matter |
| `Attestations.AdjacencyFromAttestations` | extension/tg/graph.ts:97-119 | the adjacency of the newest accepted, positive, unexpired revisions; all its weights are positive |
| `Attestations.GraphEdges` | extension/tg/graph.ts:110-118 | the edges of a truster are its live attestations in the order their addresses were first seen; a truster without any has no entry |
| `Attestations.RevocationTakesEffect` | extension/tg/graph.ts:105 | a newer revocation takes its edge down exactly when it is accepted; a hint-less one leaves the edge standing when hints are required |
| `FetchGraph.SeedWalk` | extension/tg/graph.ts:194-223 | the walk starts at the root and the seed trustees, each once; fair seeds have priorities in [0,1] |
| `FetchGraph.ChooseAuthors` | extension/tg/graph.ts:230-241 | of the unasked frontier exactly as many as the node budget leaves, the best ones, best first; trimmed and exhausted say when it left none or not all |
| `FetchGraph.Route` | extension/tg/graph.ts:243-257 | every author goes to exactly its first hint relays, or to the bootstrap relays when it has no hint |
| `FetchGraph.Ask` | extension/tg/graph.ts:259-282 | each relay is asked once; answers for others, malformed and hint-less ones are dropped; whatever a relay that serves an author holds of that author has come in, unless the deadline passed |
| `FetchGraph.Strongest` | extension/tg/graph.ts:298-300 | the kept entries of a truster are within the cap and the minimum; an entry of sufficient weight, copies counted, is dropped only for a full list of entries at least as strong |
| `FetchGraph.CopiesFillList` | extension/tg/graph.ts:298-300 | copies from two relays fill a list of cap two, and a second edge is lost |
| `FetchGraph.Expand` | extension/tg/graph.ts:284-322 | only trusters with a full list lose edges of sufficient weight, and no stronger ones than they keep; the next frontier is exactly the unasked trustees of the kept edges; hints known are the old ones and theirs; priorities stay in [0,1] |
| `FetchGraph.Hop` | extension/tg/graph.ts:225-327 | one hop keeps every budget, asks the best of the frontier, and leaves some out only with the node budget used up; it is cut only by a passed deadline or that budget; if not cut, with no list full, it fetches all its authors published and moves on to exactly what that points at |
| `FetchGraph.Fetch` | extension/tg/graph.ts:173-336 | over every relay behaviour: each author is asked in one hop only and once per relay, within the node budget, at most maxOutDegree entries a truster, all from asked authors, priorities in [0,1]; truncated means a passed deadline or exactly maxNodes asked; with any budgets, if nothing was truncated and no list is full, exactly the nodes within maxHop-1 steps were asked and exactly their edges of enough weight fetched, provided bootstrap relays and hints serve whom they stand for |
| `FetchGraph.RoomyIfFew` | extension/tg/graph.ts:286-300 | no list is full if the distinct edges of each truster, times the copies that came of one, stay below the cap |
| `FetchGraph.NewestDecides` | extension/tg/graph.ts:298-335 | then the newest published revision of an edge decides it in the result exactly when its weight reaches the minimum |
| `FetchGraph.LightRevocationIsLost` | extension/tg/graph.ts:298-300 | under a positive minimum a revocation is dropped and the older edge stands |
| `Layers.NextBall` | extension/tg/sim.ts:219-223 | a hop ball grows by the nodes one step away from it |
| `Layers.HopRestrict` | extension/tg/sim.ts:216-231 | exactly the nodes within the hops of the root stay, with exactly the edges between them |
| `Attest.ContextRoundTrip` | extension/tg/attest.ts:18-26 | the context is read back from an edge address exactly when it is non-empty and colon-free |
| `Attest.DTagInjective` | extension/tg/attest.ts:18-20 | colon-free contexts give different edges different addresses |
| `Attest.TrusteesApart` | extension/tg/attest.ts:18-20 | colon-free trustees, as public keys are, give different edges different addresses, whatever the contexts |
| `Attest.CollisionNeedsColons` | extension/tg/attest.ts:18-20 | two edges share an address only with a colon in the longer context and in the other trustee |
| `Attest.ColonsCollide` | extension/tg/attest.ts:18-20 | with a colon in one context and in the other trustee two edges share an address |
| `Attest.CollidesExactlyWithColons` | extension/tg/attest.ts:18-20 | among arbitrary trustees an edge shares its address with no edge of a colon-free context exactly when its own context has no colon |
| `Attest.ParseUndoesBuild` | extension/tg/attest.ts:43-62 | reading a built event gives its truster, trustee, rounded and clamped weight, address, time, hint and expiry; without a trustee nothing |
| `TrustGraphs.MutualEdges` | extension/tg/api.ts:197-206 | an edge stays exactly when the reverse edge exists |
| `TrustGraphs.MutualIsSymmetric` | extension/tg/api.ts:197-206 | what is left is mutual |
| `TrustGraphs.FilteredEdges` | extension/tg/api.ts:209-232 | an edge survives exactly when it is heavy enough, not crowded out by a full list of edges at least as heavy, and in strict mode answered by an edge that survives both; the cap holds, and strict mode leaves a mutual graph |
| `TrustGraphs.TrustGraph.constructor` | extension/tg/api.ts:290-297 | the cache is the stored list with later entries overwriting earlier ones, and replays its own values |
| `TrustGraphs.TrustGraph.ApplyEvent` | extension/tg/api.ts:447-450 | an attestation overwrites its address; the cache then agrees with the newest-wins replay exactly when it was newer, or the same |
| `TrustGraphs.OverwriteAgrees` | extension/tg/api.ts:333 | an overwrite without a look at times agrees with the replay exactly when it brings something newer or nothing new |
| `TrustGraphs.StaleRevisionWins` | extension/tg/api.ts:592 | a stale revision arriving late displaces the newer one |
| `TrustGraphs.TrustGraph.NextCreatedAt` | extension/tg/api.ts:452-455 | not before the clock, and after the revision it replaces |
| `TrustGraphs.TrustGraph.PublishAttestation` | extension/tg/api.ts:467-486 | accepted exactly with relay approval and a valid hint for a live edge; cache and log grow by exactly the accepted event, stamped after what it replaces; the cache remains the replay of the log and the adjacency is rebuilt from it |
| `TrustGraphs.TrustGraph.RevokeAttestation` | extension/tg/api.ts:489-499 | the event asked for is sent; once accepted its address holds weight zero, nothing else changed, and the log grew by exactly that; else nothing changes |
| `TrustGraphs.TrustGraph.PublishAll` | extension/tg/api.ts:521-541 | one event an edge, in order and up to the first refused one, which aborts; cache and log grow by exactly the accepted ones, and the cache remains the replay of the log |
| `TrustGraphs.TrustGraph.RevokeAll` | extension/tg/api.ts:502-518 | one revocation for each own edge of the context that the cache held, stamped after it; cache and log grow by exactly the accepted ones; for the root key and canonical addresses exactly the edges stay whose revocation was not accepted |
| `TrustGraphs.TrustGraph.Recompute` | extension/tg/api.ts:341-361 | the adjacency is the filtered adjacency of the whole accepted log |
| `TrustGraphs.CacheAdjacency` | extension/tg/api.ts:342 | the last-writer cache and the whole log give the same adjacency |
| `TrustGraphs.EdgeIsLastAccepted` | extension/tg/api.ts:447-541 | an edge exists exactly when the last accepted revision of some address has positive weight and is unexpired |
| `Authoring.RevocationHits` | extension/tg/api.ts:508 | a revocation built from a stored edge goes to the address of that edge exactly when its context is non-empty and colon-free |
| `AuthoringRuns.Perform` | extension/tg/api.ts:467-541 | each of the four calls attempts exactly its own edges, cache and log grow by the accepted ones, the cache remains the replay, and the adjacency is that of the whole log unless the call ended early; only revokeAll needs the own edges at the addresses their contexts give |
| `AuthoringRuns.LastAttemptDecides` | extension/tg/api.ts:447-541 | after a run an edge stands exactly when its last accepted attempt has positive rounded weight and is unexpired, or as before if there was none; trustees, or contexts, without colons |
| `AuthoringRuns.EdgesExplained` | extension/tg/api.ts:447-541 | the edges of the root after a run are exactly those whose last accepted attempt at their address is live and the old ones at addresses the run did not touch |
| `AuthoringRuns.Run` | extension/tg/api.ts:447-541 | over every sequence of publishAttestation, revokeAttestation, publishAll and revokeAll by the root the log is the old one and exactly the accepted events, increasing along each address, gives the adjacency of the cache, and has exactly those edges, whatever the trustees and contexts; with a revokeAll, own edges must be at the addresses their contexts give |
| `TrustGraphs.TrustGraph.FindTrustPath` | extension/tg/api.ts:407-445 | on the rebuilt adjacency the strongest path is found, and none exactly for unreachable identities |
| `StateMachine.TerminalIsSticky` | src/protocol/stateMachine.ts:67-99 | a terminal status other than success never changes |
| `StateMachine.SuccessIsLeftOnlyByReopening` | src/protocol/stateMachine.ts:67-99 | success is left only by add-invoice carrying settled-hold-invoice |
| `StateMachine.RankNeverDrops` | src/protocol/stateMachine.ts:32-99 | with the kind known the phase rank never drops, unless by that reopening |
| `StateMachine.FinalRankIsMaximum` | src/protocol/stateMachine.ts:32-99 | with nothing terminal on offer the final rank is the maximum of the initial and the offered ranks |
| `StateMachine.DeliveryOrderDoesNotMatter` | src/protocol/stateMachine.ts:32-99 | so late, repeated or reordered messages end in the same rank |
| `Applicator.ApplyTradeDm` | src/protocol/applicator.ts:95-183 | on either backend: the store after one message, and the reported status, dispute, solver and upsert; an unreadable row stops the message without effect |
| `Applicator.DmIsGuarded` | src/protocol/applicator.ts:104-153 | a message moves a known status exactly as the guard allows, whichever of the two write paths it takes |
| `Applicator.RunIsGuarded` | src/protocol/applicator.ts:95-183 | over every run with the order kind kept the stored status is the guarded run of the delivered offers |
| `Applicator.TerminalOrderIsFrozen` | src/protocol/applicator.ts:95-183 | over every run a stored terminal status other than success stays, even if snapshots change the kind |
| `Applicator.SuccessIsReopenedOnlyByAddInvoice` | src/protocol/applicator.ts:113-121 | a message takes an order out of success only by add-invoice with settled-hold-invoice |
| `Applicator.DmRankNeverDrops` | src/protocol/applicator.ts:95-183 | with the kind kept no run of messages lowers the stored phase rank, but for the reopening |
| `Applicator.SnapshotMayBlock` | src/protocol/applicator.ts:122-146 | a message makes a readable, or missing, row unreadable exactly when it carries a snapshot and there are no trade keys in a store with an encryptor |
| `Applicator.DmRunDelivers` | src/protocol/applicator.ts:95-183 | a run ends unreadable exactly when such a row meets a snapshot; then the messages after the first snapshot are lost, else all are delivered |
| `Applicator.DmRunStatus` | src/protocol/applicator.ts:95-183 | on a readable order the status is the guarded run of the messages that arrive: all, or on a keyless row under an encryptor those up to the first snapshot |
| `Applicator.DmOrderDoesNotMatter` | src/protocol/applicator.ts:95-183 | the same messages, late, twice or in another order, leave the stored order in the same phase exactly unless the row is keyless under an encryptor and some snapshot alone falls short of all messages |
| `Applicator.SnapshotStopsPayment` | src/protocol/applicator.ts:146 | on a keyless active order a taken-order snapshot and then fiat-sent ends in phase 3, the other way round in phase 4 |
| `Applicator.BlockedRowFailsListing` | src/protocol/applicator.ts:146 | the row such a snapshot leaves fails every listing of active orders that meets it, unless its status is terminal |
| `Sqlite.SqliteStore.UpsertUser` | src/protocol/sqlite.ts:131-139 | the row is inserted, or its index raised to the maximum: one step of the abstract store |
| `Sqlite.SqliteStore.GetUser` | src/protocol/sqlite.ts:141-146 | some stored row, none exactly on an empty table |
| `Sqlite.SqliteStore.ReserveNextTradeIndex` | src/protocol/sqlite.ts:148-157 | one more than the stored index, stored; without a row nothing is stored |
| `Sqlite.SqliteStore.SaveOrder` | src/protocol/sqlite.ts:159-200 | inserts, or updates all but the columns the statement leaves alone, as the abstract store does |
| `Sqlite.SqliteStore.UpdateOrderStatus` | src/protocol/sqlite.ts:202-204 | only the status of this row changes |
| `Sqlite.SqliteStore.GetOrder` | src/protocol/sqlite.ts:206-211 | the decrypted row, none, or a failure on an unreadable column |
| `Sqlite.SqliteStore.GetActiveOrders` | src/protocol/sqlite.ts:213-225 | the rows with trade keys and a non-terminal status in the order of their first insertion, or a failure if one is unreadable |
| `Sqlite.SqliteStore.UpdateLastSeenDmTs` | src/protocol/sqlite.ts:227-233 | the later of the stored and the given time |
| `Sqlite.SqliteStore.UpdateDisputeId` | src/protocol/sqlite.ts:235-237 | only the dispute id of this row changes |
| `Sqlite.SqliteStore.UpdateSolverChat` | src/protocol/sqlite.ts:239-244 | the solver and the encrypted chat key of this row change |
| `Sqlite.SqliteStore.SaveChatMessage` | src/protocol/sqlite.ts:246-260 | an event id already stored is ignored |
| `Sqlite.SqliteStore.GetChatMessages` | src/protocol/sqlite.ts:262-270 | the messages of the conversation oldest first, each once |
| `Sqlite.SqliteStore.Wipe` | src/protocol/sqlite.ts:272-276 | every table is empty |
| `Idb.IdbStore.UpsertUser` | src/protocol/idb.ts:136-149 | as the abstract store when both indices are given |
| `Idb.IdbStore.ReserveNextTradeIndex` | src/protocol/idb.ts:155-170 | one more than the stored index, stored; a missing row is created |
| `Idb.IdbStore.SaveOrder` | src/protocol/idb.ts:172-201 | reads the old row and puts the merged one, as the abstract store does |
| `Idb.IdbStore.GetOrder` | src/protocol/idb.ts:211-215 | the decrypted row, none, or a failure on an unreadable column |
| `Idb.IdbStore.GetActiveOrders` | src/protocol/idb.ts:217-228 | the rows with trade keys and a non-terminal status in the order of their ids, or a failure if one is unreadable |
| `Idb.IdbStore.UpdateSolverChat` | src/protocol/idb.ts:249-258 | the solver and the encrypted chat key of this row change |
| `Idb.IdbStore.SaveChatMessage` | src/protocol/idb.ts:265-268 | the message under the event id is replaced |
| `Idb.IdbStore.GetChatMessages` | src/protocol/idb.ts:270-276 | the messages of the conversation oldest first, each once |
| `Idb.IdbStore.Wipe` | src/protocol/idb.ts:278-283 | every object store is empty |
| `Store.ListingUnique` | src/protocol/sqlite.ts:262-270 | with distinct timestamps a conversation has one listing, whatever order a backend scans in |
| `Store.ListingIsDetermined` | src/protocol/sqlite.ts:262-270 | a conversation has only one listing exactly when no two of its messages share a timestamp |
| `Store.ActiveRows` | src/protocol/sqlite.ts:213-225 | filtering raw rows and then decrypting gives the active rows as a caller sees them |
| `Store.OneRowFailsAll` | src/protocol/sqlite.ts:213-225 | the listing fails exactly when some active row it meets is unreadable |
| `Store.ReadAfterWrite` | src/protocol/encryption.ts:13-47 | an encrypted column reads back what the text decoder makes of what was written, except that an empty mandatory text becomes unreadable |
| `KeyOrder.OrderIsUnique` | src/protocol/idb.ts:217-219 | there is one list of given keys in key order |
| `Backends.RunBoth` | src/protocol/idb.ts:104-283 | every proper sequence of calls leaves equal contents on both backends and gets equal replies, listings of messages in equal order; active orders come in equal order exactly when they were first inserted in the order of their ids |
| `Backends.ListedInKeyOrder` | src/protocol/sqlite.ts:213-225 | the SQL list of active orders is the IndexedDB one exactly when a row is unreadable, which fails both, or the active orders were first inserted in the order of their ids |
| `Backends.ListsDiffer` | src/protocol/idb.ts:217-228 | orders b and a saved in this order leave equal contents and are listed as b, a and as a, b |
| `Backends.UpsertsAgree` | src/protocol/idb.ts:136-149 | the two upserts write the same row exactly when no index is lost to a null |
| `Backends.NullUpsertLosesIndex` | src/protocol/idb.ts:140-147 | an upsert keeps the stored index at least as high exactly when it brings an index or the stored one is zero |
| `Backends.UpsertThenReserve` | src/protocol/idb.ts:136-170 | a reservation after an upsert is above the stored index exactly when the upsert brought an index or the base reaches the stored one |
| `Backends.NullUpsertRepeatsIndex` | src/protocol/idb.ts:140-147 | on a new store an upsert without an index makes the second reservation 2 after the first was 8 |
| `Backends.ReserveTwice` | src/protocol/sqlite.ts:148-157 | two reservations in a row differ exactly when the user row exists |
| `Backends.EmptyKeysBecomeUnreadable` | src/protocol/encryption.ts:158-160 | an order becomes unreadable exactly when empty trade keys are saved under an encryptor or its chat key already was |
| `Backends.CallsAreIndexSteps` | src/protocol/sqlite.ts:131-157 | reservations and upserts on the one row are steps of the index |
| `Backends.IndexNeverDrops` | src/protocol/sqlite.ts:131-157 | over every run the index never goes down |
| `Backends.ReservationIsFresh` | src/protocol/restore.ts:93-110 | a reserved index is at least 1 and above every index reserved, upserted or reported before it |
| `Restore.AdvanceIndex` | src/protocol/restore.ts:93-110 | the stored index becomes the largest of itself, the reported ones and the one of the daemon |
| `Restore.RestoreSession` | src/protocol/restore.ts:93-170 | on either backend: index first, then orders, then disputes; a failed read stops with what is written so far; the counters add up |
| `Restore.RunIndexCalls` | src/protocol/restore.ts:93-110 | on either backend, over every run of reservations, upserts and restores on one row reserved indices increase, are at least 1, and exceed every index an earlier restore reported |
| `Restore.RestoreLeaves` | src/protocol/restore.ts:112-167 | afterwards an order has status dispute if disputed, else the last reported status, else its old one; unnamed orders are untouched |
| `Restore.RestoreCompletes` | src/protocol/restore.ts:112-167 | with readable rows and non-empty trade secrets nothing fails and every row stays readable |
| `Restore.RestoreRespectsGuard` | src/protocol/restore.ts:112-167 | a stored order the data names ends where the status guard would have left it exactly when the guard accepts the last status written: "dispute" if disputed, else the last one reported |
| `Restore.RestoreReopens` | src/protocol/restore.ts:119 | a finished order can be put back to active |
| `Restore.RestoreDisputesFinished` | src/protocol/restore.ts:152-159 | a finished order reported as success and disputed ends in dispute, where the guard keeps success |
| `Restore.DecodedIsIndexed` | src/protocol/wire.ts:425-453 | restore data from the decoder has non-negative whole indices |
| `Wire.SmallOrderRoundTrip` | src/protocol/wire.ts:108-134 | an order is read back exactly when currency and payment texts are within the limit |
| `Wire.DisputeRoundTrip` | src/protocol/wire.ts:140-167 | a dispute report is read back exactly when its mandatory texts are within the limit |
| `Wire.RestoreRoundTrip` | src/protocol/wire.ts:169-174 | restore data is read back exactly when lists, texts and indices are within the limits |
| `Wire.PeerRoundTrip` | src/protocol/wire.ts:100-106 | a peer is read back exactly when its key is within the limit |
| `Wire.LockProofRoundTrip` | src/protocol/wire.ts:180-192 | a lock proof is read back exactly when its mandatory texts are within the limit |
| `Wire.ProofSignatureRoundTrip` | src/protocol/wire.ts:194-196 | a proof signature is read back exactly when its texts are within the limit |
| `Wire.PartsAreLawful` | src/protocol/wire.ts:312-502 | every part is read back as written exactly on good values, and nothing else is ever read |
| `Json.EachInverts` | src/protocol/wire.ts:455-467 | a list is read back exactly when every element is |
| `MessageCodec.BodyRoundTrip` | src/protocol/wire.ts:55-98 | each of the seventeen payload bodies is read back as it was written, exactly when its parts are good |
| `MessageCodec.KindRoundTrip` | src/protocol/wire.ts:231-252 | a message body is read back exactly when its ids, indices and payload are within the limits |
| `MessageCodec.MessageRoundTrip` | src/protocol/wire.ts:207-229 | decoding undoes encoding exactly on the messages within the limits, and refuses the others |
| `MessageCodec.DecodedIsWellFormed` | src/protocol/wire.ts:202-229 | whatever is decoded is within the limits, so it survives another round |
| `MessageCodec.WireCodecIsLawful` | src/protocol/wire.ts:33-229 | encoding and decoding of messages obey the law the transport is built on |
| `Transport.UnwrapUndoesWrap` | src/protocol/transport.ts:140-278 | the receiver gets the same message, the trade key as sender, the proven identity, and a signature exactly when signing was on; it is refused exactly when beyond the limits or lacking a required signature |
| `Transport.MessageTravels` | src/protocol/transport.ts:140-278 | over the wire codec every message within the limits arrives unchanged |
| `Transport.OpenedIsAuthentic` | src/protocol/transport.ts:240-278 | whatever opens is within the limits, its signature verifies under the sender, and a foreign identity has a proof naming the sender and the message text |
| `Token.SplitOfJoined` | extension/tg/token.ts:57-66 | splitting undoes joining exactly for non-empty, comma-free segments |
| `Token.ExtractUndoesInsert` | extension/tg/token.ts:133-144 | token and canonical base come back exactly when the text had no token of its own |
| `Token.BaseIsCanonical` | extension/tg/token.ts:61-66 | a canonical base is its own canonical base and holds no token |
| `Token.TokenIsFound` | extension/tg/token.ts:133-144 | a token behind any canonical base is found again with that base |
| `Encoding.Base64RoundTrip` | extension/tg/token.ts:88 | unpadded base64url decodes to the encoded bytes |
| `Encoding.Base64IsCanonical` | extension/tg/token.ts:74 | only the text an encoder writes decodes |
| `Encoding.HexRoundTrip` | extension/tg/token.ts:111 | lower-case hexadecimal decodes to the encoded bytes |
| `Token.ParseUndoesPrint` | extension/tg/token.ts:68-80 | parsing undoes printing exactly for a non-empty nonce and a 64-byte signature |
| `Token.PrintUndoesParse` | extension/tg/token.ts:68-80 | a token that parses has only this spelling |
| `Binding.ChallengeInjective` | extension/tg/token.ts:87-100 | the challenge determines every field and the nonce, even if the base holds newlines, provided the other fields do not |
| `Binding.ChallengeIsExact` | extension/tg/token.ts:87-100 | exactly an order whose other fields are single lines is told apart by its challenge from every other such order |
| `Binding.NewlinesCollide` | extension/tg/token.ts:87-100 | a newline in another field lets two orders share a challenge |
| `Binding.BuiltTokenVerifies` | extension/tg/token.ts:103-130 | a built token verifies against its fields exactly when the nonce is not empty |
| `Binding.BuiltBindingIsAccepted` | extension/tg/api.ts:42-104 | the binding a maker builds is accepted from the published order, with the canonical base |
| `Binding.ReadingsAgree` | extension/tg/api.ts:74-135 | on well-formed integer tags the parsed order gives the same verdict as the event |
| `OrderBook.OrderFromTags` | src/protocol/orderbook.ts:43-116 | the order the tags spell, later tags overruling earlier ones |
| `OrderBook.AggregateLatestOrdersById` | src/protocol/orderbook.ts:136-151 | each order id keeps its newest snapshot |
| `OrderBook.PendingOrdersForBook` | src/protocol/orderbook.ts:191-207 | exactly the pending orders in the wanted currencies, each once, newest first |
| `Invoice.HrpSplitsAtLastOne` | src/protocol/invoice.ts:43 | the pattern splits a request with bech32 data at its last 1 |
| `Invoice.AmountIsExact` | src/protocol/invoice.ts:51-74 | the amount is the exact millisatoshi value; a pico amount is rounded by at most a half, and exact only for multiples of ten |
| `Invoice.Timestamp` | src/protocol/invoice.ts:77-96 | the number the first seven data characters spell, none for a foreign character |
| `Invoice.TimestampIsRead` | src/protocol/invoice.ts:77-96 | every time below 2^35 is read back from its seven characters |
| `Invoice.ExpirySeconds` | src/protocol/invoice.ts:110-144 | the scan ends on every input and finds what the field list says |
| `Invoice.ExpiryIsFirstField` | src/protocol/invoice.ts:110-144 | the first expiry field is returned; without one the result is what the first six signature characters are taken for, none exactly when they do not read as a field |
| `Invoice.PhantomExpiry` | src/protocol/invoice.ts:117 | a signature beginning xqq gives a request without expiry field the expiry zero |
| `FirstSeen.FirstSeenTracker.Check` | extension/tg/firstSeen.ts:23-42 | the earliest time of the order is kept, and ledger and verdict follow from it |
| `FirstSeen.FirstSeenTracker.ImportState` | extension/tg/firstSeen.ts:49-51 | imported claims overrule the held ones |
| `FirstSeen.FirstSeenTracker.NoteOrder` | extension/tg/firstSeen.ts:54-57 | the earlier of the known and the given time is kept |
| `FirstSeen.ObserveOrder` | extension/tg/api.ts:304-310 | an order is judged at the time given, else its noted birth, else the present, an earlier birth prevailing; that time becomes its birth |
| `FirstSeen.Transfer` | extension/tg/firstSeen.ts:45-51 | export and import into a new tracker reproduce the ledger |
| `FirstSeen.KeyIsInjective` | extension/tg/firstSeen.ts:31 | different identities or nonces have different keys |
| `FirstSeen.LedgerHoldsEarliest` | extension/tg/firstSeen.ts:23-42 | with fixed times the ledger holds, for exactly the keys asked for, an order of the least time so far |
| `FirstSeen.VerdictIsExact` | extension/tg/firstSeen.ts:37-41 | an order is refused exactly when one with a strictly smaller time asked before it |
| `FirstSeen.HolderIsOrderFree` | extension/tg/firstSeen.ts:23-42 | with distinct times the final holder does not depend on the order of arrival |
| `FirstSeen.KeysDoNotInterfere` | extension/tg/firstSeen.ts:31-41 | other keys have no influence |
| `FirstSeen.Replay` | extension/tg/firstSeen.ts:23-42 | a new tracker run over a list of checks with fixed times ends with the ledger of the run and refuses exactly the forestalled orders |
| `FirstSeen.CheckKeepsCurrent` | extension/tg/firstSeen.ts:28-37 | every claim stays the own time of its holder exactly when the check does not undercut a claim its order holds, under any key |
| `FirstSeen.NoteKeepsCurrent` | extension/tg/firstSeen.ts:54-57 | noting an order keeps that up under the same condition |
| `FirstSeen.OtherKeyLeavesClaimBehind` | extension/tg/firstSeen.ts:28-57 | a lower time noted, or given under another key, leaves the claim of the first key behind |
| `FirstSeen.LoweredHolderLoses` | extension/tg/firstSeen.ts:37 | an order seen at 10 and then at 5 loses its key to one seen at 7 |
| `DmRouter.DmRouter.SubscribePubkey` | src/protocol/dmRouter.ts:183-199 | a public key is subscribed at most once |
| `DmRouter.DmRouter.WaitForDm` | src/protocol/dmRouter.ts:155-164 | a new waiter queues behind the others |
| `DmRouter.DmRouter.TrackOrder` | src/protocol/dmRouter.ts:167-181 | a key already tracked keeps its order; a new one is subscribed and takes the entry of its shortened id |
| `DmRouter.KeysKeepOrders` | src/protocol/dmRouter.ts:172-198 | every tracked key keeps its order exactly when no two of them share the first sixteen characters of the public key |
| `DmRouter.RoutedExactly` | src/protocol/dmRouter.ts:259-268 | then an event is routed exactly when some tracked key opens it |
| `DmRouter.SecondKeyTakesEntry` | src/protocol/dmRouter.ts:179 | of two keys with one shortened id the first loses its order: an event only it opens is reported to nobody |
| `DmRouter.DmRouter.HandleEvent` | src/protocol/dmRouter.ts:206-257 | foreign, unsigned and own events change nothing; an accepted one resolves exactly the waiters it opens for, leaves the others in order, and reaches each callback at most once, the search after an unrouted event finding nothing |
| `DmRouter.StillDistinct` | src/protocol/dmRouter.ts:224-237 | no waiter is resolved twice or both waiting and resolved |
| `DmRouter.HandleAll` | src/protocol/dmRouter.ts:206-257 | over a run of deliveries a waiter is gone once an accepted event opens it, and callbacks are made for every delivery |
| `DmRouter.HandleTwice` | src/protocol/dmRouter.ts:206-257 | an event delivered twice reaches no further waiter, but each callback twice |
| `DmRouter.UnroutedOpensNowhere` | src/protocol/dmRouter.ts:246-268 | nothing is routed exactly when no tracked key opens the event |
| `DmRouter.WrappedMessageOpens` | src/protocol/dmRouter.ts:295-308 | a message wrapped for a trade key opens with it, as the same message |
| `DmRouter.ReplayTradeDms` | src/protocol/dmRouter.ts:328-370 | exactly the messages that pass the checks, oldest first |
| `Encryption.Concat` | src/protocol/encryption.ts:182-191 | the new buffer holds the parts one behind another |
| `Encryption.SameBytes` | src/protocol/encryption.ts:211-219 | true exactly for equal contents |
| `Encryption.UnpackUndoesPack` | src/protocol/encryption.ts:149-166 | the parts come back from their places, unless the ciphertext is no longer than its tag |
| `Encryption.DecryptUndoesEncrypt` | src/protocol/encryption.ts:90-101 | a text comes back exactly when it is not empty |
| `Encryption.DecryptAfterEncrypt` | src/protocol/encryption.ts:90-101 | a text comes back as the decoder renders its bytes, unless it is empty |
| `Encryption.LazyEncryptor.KeyFor` | src/protocol/encryption.ts:73-88 | the key used is the derivation of the salt asked for, and becomes the cached one |
| `Encryption.LazyEncryptor.EncryptUtf8` | src/protocol/encryption.ts:90-95 | as an encryptor without a cache would, with the cached or a drawn salt |
| `Encryption.LazyEncryptor.DecryptToUtf8` | src/protocol/encryption.ts:97-101 | as an encryptor without a cache would, whatever the cache holds |
| `Encryption.Run` | src/protocol/encryption.ts:70-116 | over every run of encrypting, decrypting and closing each reply is independent of the cache, and envelopes open to their text |
| `Encryption.StoreMayUseIt` | src/protocol/encryption.ts:63-67 | such an encryptor, whatever salts its cache goes through, obeys the law the stores rely on, and every proper non-empty secret comes back as stored |
| `Encryption.RawDecryptUndoesEncrypt` | src/protocol/encryption.ts:123-142 | raw-key envelopes open to their text exactly when it is not empty |
| `Encryption.RawEncryptor.constructor` | src/protocol/encryption.ts:123-127 | the key is copied; the buffer of the caller is not kept |
| `Encryption.RawEncryptor.Close` | src/protocol/encryption.ts:138-140 | the copy is zeroed |

## Left out

- Ppr.ScoresNearExact: speaks of any exact solution; that one exists follows from `Ppr.ScoresNearLater` by completeness of the reals,
  which is not available here.
- Floating point: scores, weights, amounts and numbers on the wire are exact; rounding and numbers beyond 2^53 are not modelled.
- The random walk lists nodes in any order, where the program uses the insertion order of its map.
- FetchGraph.Fetch: relays and trusters of a hop are taken in any order, which covers every interleaving of the concurrent queries; hop and
  hint limits are natural numbers.
- Attestation addresses and edge keys are joined with a newline as in the program; `DropNonMutual` keeps pairs as pairs.
- Applicator.DmOrderDoesNotMatter: stored trade keys are empty or come back as they are when read and written again, as every text
  without a leading byte order mark does; messages keep the order kind and do not end the trade.
- Expirations of attestations are whole seconds; the printed form of other numbers is not modelled.
- The scorer, live subscriptions, telemetry, percentile and badges of the trust graph facade, and its persistence store.
- Status, kind and action names are strings with abstract parsers; `lower` in SQL folds ASCII letters only, which is a parameter.
- Backends.RunBoth: a SQL scan without an order meets rows as they were first inserted; ids are compared by characters.
- FetchGraph.Fetch: what was published and which relay serves whom is a pair of predicates that the answers agree with
  (`FetchGraph.Matches`), not a set of signed events; what is found when some truster's list is full is stated hop by hop only.
- AuthoringRuns.Run: only runs with a revokeAll need that own edges, loaded ones included, are at the addresses their contexts give and
  that live edges have non-empty, colon-free contexts; `RevocationHits` says why. The events are the root's own. Events received from
  others (`applyEvent` on a subscription) are not part of these runs; `OverwriteAgrees` says what one of them does.
- Trade keys derived for a reserved index are not modelled; derivation fails beyond 2^31-1.
- Restore: the two round trips that fetch the data, their timeouts and authentication; the index of the daemon is a whole number.
- Overlapping asynchronous calls inside one store, encryptor, router or trust graph: a call is one atomic step. A tracked order is
  registered at once, not in the next turn of the event loop.
- Wire.PartsAreLawful: that nothing else is ever read holds of the modelled decoder; fields that the program casts without a check
  may hold values of another type there.
- MessageCodec.DecodedIsWellFormed: likewise leaves out messages with such fields of another type.
- Wire: fields that the decoder casts without a check are refused when they have another type, since the typed message cannot
  hold them; error messages are not modelled; `rating` of an order occurs on public events only.
- JSON text and UTF-8: parsing undoes printing for values whose numbers the program can hold, and decoding undoes encoding for texts without a leading byte order mark.
- Transport.UnwrapUndoesWrap: assumes that encryption accepted the text; its length limit belongs to the library.
- Invoice: functions take the trimmed, lower-cased text; classification, payload building and reply handlers are omitted.
- OrderBook: maker ratings, relay queries and the filter variant that lists all statuses.
- DmRouter: sending, relay pools and the identity of promises beyond their number; `closed` is always false in the program.
- Encryption: zeroing of the cached passphrase key on close, since keys are values here; the raw key is an array and is zeroed.
- Protocol verification of built messages, response handlers, simulation generators, scripts and the user interface.
