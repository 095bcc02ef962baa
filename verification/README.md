# The gateway's core, verified

The server stands between coding clients and a pool of upstream accounts. It decides which account
serves a principal, moves accounts between a direct and a warp route as the upstream pushes back,
replicates what it decides to followers, carries conversations from one account to the next, and
retells streamed responses as chat completions. This project models that core in Dafny and proves
what holds of it over every input, every run and every interleaving.

`dafny verify dfyconfig.toml` checks the whole project.

## How it is put together

| file | what it models |
|---|---|
| `CfState.dfy`, `Router.dfy` | route state and cooldown ladder of an account; the rendezvous pair and its scoring |
| `Bus.dfy` | the replicated store, the messages, and the side that applies them |
| `AccountOps.dfy`, `Selection.dfy`, `Memory.dfy`, `Threads.dfy` | what each operation does to the store and what it sends |
| `AppState.dfy` | the same operations as they run: a leader that edits its runtime in place and enqueues messages |
| `SelectionTheorems.dfy`, `Runs.dfy`, `Replication.dfy`, `LeaseSafety.dfy`, `ConversationRuns.dfy` | what selections promise, and what whole runs keep |
| `Utf8.dfy`, `Summaries.dfy` | how many bytes a text takes and where it can be cut; the summaries of archived turns |
| `Lossy.dfy`, `SseFraming.dfy`, `StreamRelay.dfy`, `SseRecord.dfy` | reading chunks of bytes as text, cutting a chunked stream into records, holding it back, relaying it, reading a record |
| `ChatAdapter.dfy`, `ChatInvariants.dfy`, `ToolMoves.dfy`, `ChatCompletion.dfy`, `ChatRefinement.dfy`, `ChatEndToEnd.dfy`, `ChatPipeline.dfy`, `ChatExample.dfy` | the streaming translator, the translator of finished responses, why they agree from chunks to client, and a family of streams to which that applies |
| `Reconstruction.dfy`, `Collector.dfy` | rebuilding a finished response from its stream, and the collector that does so chunk by chunk |
| `Upstream.dfy`, `RetryLoop.dfy`, `FailureHandling.dfy` | the retry loop of a responses request and what a failure does to its account |
| `ExecutionGuard.dfy` | the guard that lets one request at a time onto a sole account |
| `Witnesses.dfy`, `CompactionWitnesses.dfy`, `LeaseWitnesses.dfy` | inputs at which the code does less than one might expect |
| `CanonicalJson.dfy`, `WindowId.dfy` | member-order-free JSON; window identifiers |
| `Prelude.dfy`, `Text.dfy`, `Json.dfy`, `Models.dfy` | shared vocabulary |

Code that edits state in place is a class whose methods are proved against specification functions;
the theorems are lemmas about those functions. Code that only computes is functions. Each operation
of the leader is one atomic step; the execution guard is modelled step by step, with tasks
interleaving freely.

What the environment supplies is a parameter: clock readings, fresh identifiers, the order in which
a hash map is iterated (any order that lists its keys once), the rendezvous hash (any function), the
classification of records and reasons (any predicate), the wording of texts kept with conversations,
and, for the retry loop, everything the upstream may answer.

## Where the code does less than one might expect

Each of these is a theorem with its exact condition, and the witness files give inputs on its far side wherever one is not plain from the statement.

- A route event of an unknown kind that ejects an account from warp tells no follower (`Replication.StepBridgesExactly`).
- Summaries are cut by bytes, and a cut within a character fails when the archived turns are already taken out: they are lost without a summary, and no follower hears of it (`Summaries.FoldsExactly`, `Memory.CompactBridgesExactly`, `Memory.RecordTurnBridgesExactly`) until the conversation is next published (`Memory.NextPublishHeals`).
- Selection publishes only routes whose mode changed; that suffices exactly while expired entries are in warp mode (`Runs.ResolveBridgesExactly`), which the leader's invariant guarantees, so this one never shows.
- A lease taken away takes its generation along (`LeaseSafety.LeaseLostExactly`, `LeaseSafety.FreshGenerationExactly`, `LeaseSafety.EvictionRestartsGenerations`), and a later failover overwrites a quota deadline (`LeaseSafety.FailoverOverwritesRest`).
- A link to another parent may break the forest (`Threads.UpsertThreadKeepsForestExactly`).
- Records left in the preflight buffer are lost if no chunk follows (`StreamRelay.HandledInFullExactly`).
- Bytes are decoded and CRLF is normalised chunk by chunk (`SseFraming.ChunkingIsInvisibleExactly`, `Lossy.ByteChunkingIsInvisibleExactly`); a character split between chunks comes out as replacements (`Lossy.CutShowsExactly`).
- A last record without its blank line is read by the collector and dropped by streaming (`Collector.BothWaysAgreeExactly`).
- A final arguments value that does not extend the fragments sent is sent whole, on top of them (`ChatRefinement.FragmentsSpellArgumentsExactly`).
- A selection failure in mid-loop leaves the pending turn in place (`RetryLoop.PassLeavesTurnPendingExactly`, `RetryLoop.PendingTurnLeftExactly`), and a chat request that compacts finds no lease (`RetryLoop.ChatRetryLosesLeaseExactly`).
- Deleting an account that a task queues for, is permitted to or guards admits a second guard (`ExecutionGuard.DeletionDoublesExactly`).

## Model

| member | source | states |
|---|---|---|
| `CfState.RouteCell.Reconcile` | services/server/src/scheduler/cf_state.rs:72-81 | An account that entered warp 72 hours ago or more goes back to direct with its streaks cleared; any other is untouched |
| `CfState.RouteCell.RegisterCfHit` | services/server/src/scheduler/cf_state.rs:14-50 | A hit writes exactly the next route state; it switches to warp on the third direct hit in a row and asks for failover exactly in warp mode |
| `CfState.RouteCell.RegisterSuccess` | services/server/src/scheduler/cf_state.rs:52-66 | A success writes exactly the next route state, reconciling included |
| `CfState.RouteInvAlways` | services/server/src/scheduler/cf_state.rs:14-81 | Over every run of events: warp exactly when an entry time is set, direct streak at most 2, level at most 7 |
| `CfState.ReconciledWarpIsYoung` | services/server/src/scheduler/cf_state.rs:72-81 | After any run from import, a reconciled account in warp entered less than 72 hours ago |
| `CfState.WarpHitsClimb` | services/server/src/scheduler/cf_state.rs:39-49 | n warp hits from level L end at level min(7, L + n) with the deadline of that level counted from the last hit |
| `CfState.WarpHitsNeverShortenTheRest` | services/server/src/scheduler/cf_state.rs:39-49 | On a clock that does not run back, further warp hits never bring the deadline forward |
| `CfState.SuccessesRecover` | services/server/src/scheduler/cf_state.rs:52-66 | Closed form of the level after k successes on any streak |
| `CfState.ClearedByExactly` | services/server/src/scheduler/cf_state.rs:52-66 | From a broken streak a level L > 0 is cleared by 19 + L successes and by no fewer |
| `Router.SelectDualCandidates` | services/server/src/scheduler/router.rs:6-45 | The in-place selection returns the specified pair |
| `Router.PairOf` | services/server/src/scheduler/router.rs:6-45 | With distinct ids and no ties: first is best by one salt, second best of the others by the other salt |
| `Router.OrderIndependent` | services/server/src/scheduler/router.rs:6-45 | The pair does not depend on the order of the list |
| `Router.PairIsDistinct` | services/server/src/scheduler/router.rs:6-45 | Two candidates are two different accounts when there are two |
| `Router.AddingDisturbsLittle` | services/server/src/scheduler/router.rs:6-45 | Adding an account gives a pair inside the old pair plus the new account |
| `Router.RemovingUnchosenChangesNothing` | services/server/src/scheduler/router.rs:6-45 | Removing an account that was not chosen changes nothing |
| `Router.AffinityOutweighs` | services/server/src/scheduler/router.rs:47-79 | Among accounts alike in every signal the one the lease is bound to scores higher whatever the routes |
| `Bus.ApplyAllConcat` | services/server/src/bus.rs:114-141 | Applying messages in order composes |
| `Bus.Prepend` | services/server/src/bus.rs:228-235 | The new entry comes first, the old ones follow in order as far as the capacity allows |
| `Bus.Runtime.EvictLeases` | services/server/src/state.rs:3524-3535 | Drops exactly the leases bound to the account and hands back exactly those |
| `Bus.Runtime.DeleteAccount` | services/server/src/bus.rs:163-188 | Account, credential, route state and leases of the account go, nothing else |
| `Bus.Runtime.UpsertRouteState` | services/server/src/bus.rs:198-214 | The route state is replaced and the account takes its mode |
| `Bus.Runtime.InsertIncident` | services/server/src/bus.rs:228-235 | A known incident changes nothing; a new one goes first, at most 128 kept |
| `Bus.Runtime.UpsertThreadEdge` | services/server/src/bus.rs:257-267 | A known link changes nothing; a new one is added at the end |
| `Bus.Runtime.InsertRequestLog` | services/server/src/bus.rs:269-276 | A known entry changes nothing; a new one goes first, at most 512 kept |
| `Bus.Runtime.ApplyMessage` | services/server/src/bus.rs:114-141 | Each message kind edits the runtime to the state the message stands for |
| `AppState.Leader.ImportAccount` | services/server/src/state.rs:1681-1747 | Account, fresh route state and credential are entered and sent in order |
| `AppState.Leader.DeleteAccount` | services/server/src/state.rs:2408-2453 | Unknown accounts change nothing; a known one goes from the store with its leases, whose deletions are sent first |
| `AppState.Leader.IsSoleAccount` | services/server/src/state.rs:2264-2283 | True exactly when the account is known and its tenant has exactly one account with a credential, be it this one or another |
| `AppState.Leader.RecordRouteEvent` | services/server/src/state.rs:2560-2632 | State and messages after a hit, a success or an unknown kind; eviction exactly on a warp hit of an account that is not alone |
| `AppState.Leader.FailoverAccount` | services/server/src/state.rs:2670-2732 | Cooldown, incident, eviction and messages, with a sole account spared unless its quota is gone |
| `AppState.Leader.MarkQuotaExhausted` | services/server/src/state.rs:2764-2824 | Deadline, reason, incident, eviction and messages of a quota mark |
| `AppState.Leader.ReconcileDrift` | services/server/src/state.rs:2877-2915 | Every route is reconciled; exactly the routes whose mode changed are published, then their accounts |
| `AppState.Leader.ResolveLease` | services/server/src/state.rs:2870-3166 | The in-place selection yields the specified verdict, warm-up decision included, state and messages for some order of the tables |
| `AppState.Leader.BeginTurn` | services/server/src/state.rs:3168-3196 | The pending turn is entered in the conversation and published |
| `AppState.Leader.DiscardTurn` | services/server/src/state.rs:3198-3215 | Only a pending turn is dropped, and only then is anything published |
| `AppState.Leader.CompactThread` | services/server/src/state.rs:1253-1307 | State and messages of a compaction, and whether it completes: if the archived turns cannot be summarised they are gone all the same and nothing is sent |
| `AppState.Leader.ThreadOf` | services/server/src/state.rs:1243-1251 | Finds a thread of the principal exactly when there is one |
| `AppState.Leader.RecordTurn` | services/server/src/state.rs:3468-3509 | State and messages of recording a turn, with the compaction it may fire and whether that completes |
| `AppState.Leader.UpsertThread` | services/server/src/state.rs:1085-1179 | State and messages of a thread upsert, placeholder parent and edge included |
| `AppState.Leader.UpsertNamedThread` | services/server/src/state.rs:1085-1104 | Identifiers are normalised before the upsert |
| `AppState.Leader.AppendThreadEdge` | services/server/src/state.rs:1223-1241 | An edge is added and sent only if its link is new |
| `AppState.Leader.ForkThread` | services/server/src/state.rs:894-981 | Refuses unknown parents and other tenants without a change; otherwise child, edge and inherited conversation |
| `AppState.Leader.ForkNamedThread` | services/server/src/state.rs:894-981 | A fork as requested by names: unknown tenants are refused first, identifiers normalised, a missing child named afresh and a missing source filled in |
| `AppState.Leader.RecordRequestLog` | services/server/src/state.rs:2477-2495 | Log and derived metrics are replaced and sent |
| `Selection.TallyAccounts` | services/server/src/state.rs:2970-3007 | One pass counts who is held back, keeps the two earliest deadlines and the candidates |
| `Selection.ResolveWrites` | services/server/src/state.rs:2870-3166 | Beyond reconciled routes a selection writes one lease and perhaps the metrics |
| `SelectionTheorems.TallyRight` | services/server/src/state.rs:2970-3007 | The totals are right: each account counted once, minima attained and least |
| `SelectionTheorems.ExhaustedExactly` | services/server/src/state.rs:3009-3089 | Exhaustion exactly when no lease is reusable and no account is eligible |
| `SelectionTheorems.ExplainedExactly` | services/server/src/state.rs:3059-3121 | The reported kind is the only one that describes the pool, so the fallback branches are never taken |
| `SelectionTheorems.CountsAddUp` | services/server/src/state.rs:2950-2969 | Quota, cooldown and candidates make up the attempted; attempted, capability and unavailable make up the tenant |
| `SelectionTheorems.FreshPlacementIsSound` | services/server/src/state.rs:3091-3145 | A fresh lease has the tenant, credential, model and no active cooldown, and mirrors its account |
| `SelectionTheorems.PlacedIsBest` | services/server/src/state.rs:3091-3108 | The placed account is one of the pair and scores at least as high as the other |
| `SelectionTheorems.VerdictIgnoresListingOrder` | services/server/src/state.rs:2917-3121 | The verdict does not depend on the order of the account table: the same lease if there are no ties, the same kind, counts, times and attempted accounts if the pool is exhausted |
| `SelectionTheorems.ReuseIsSound` | services/server/src/state.rs:3009-3057 | A reused lease keeps account and generation, and its account is usable and not resting |
| `SelectionTheorems.RetryTimeIsLeast` | services/server/src/state.rs:2976-3005 | The retry time is the least deadline of all serving accounts, lies ahead and is no later than any reset |
| `SelectionTheorems.RetryingThenSucceeds` | services/server/src/state.rs:2870-3166 | Selecting again at the reported time on otherwise unchanged state succeeds |
| `SelectionTheorems.ReconcilingKeepsInv` | services/server/src/state.rs:2877-2907 | Reconciling keeps the invariant and the set of accounts |
| `AccountOps.ImportKeeps` | services/server/src/state.rs:1681-1747 | Importing keeps every record under its key, routes sound and leases on known accounts of their tenant |
| `AccountOps.DeleteKeeps` | services/server/src/state.rs:2408-2453 | Deleting keeps the same |
| `AccountOps.RouteEventKeeps` | services/server/src/state.rs:2560-2632 | Route events keep the same |
| `AccountOps.FailoverKeeps` | services/server/src/state.rs:2670-2732 | Failovers keep the same |
| `AccountOps.QuotaKeeps` | services/server/src/state.rs:2764-2824 | Quota marks keep the same |
| `AccountOps.ImportBridges` | services/server/src/state.rs:1725-1745 | The messages of an import rebuild it |
| `AccountOps.DeleteBridges` | services/server/src/state.rs:2440-2451 | The messages of a deletion rebuild it, in whatever order leases are listed |
| `AccountOps.RouteEventBridgesExactly` | services/server/src/state.rs:2560-2632 | The messages of a route event rebuild it exactly when its kind is known or it ejected nothing |
| `AccountOps.FailoverBridges` | services/server/src/state.rs:2670-2732 | The messages of a failover rebuild it |
| `AccountOps.QuotaBridges` | services/server/src/state.rs:2764-2824 | The messages of a quota mark rebuild it |
| `Runs.ResolveBridgesExactly` | services/server/src/state.rs:2877-2915 | Publishing only changed modes is enough exactly when every expired warp entry is still in warp mode |
| `Replication.StepKeeps` | services/server/src/state.rs:2408-3509 | Every operation keeps the whole invariant of the leader |
| `Replication.StepBridgesExactly` | services/server/src/state.rs:1253-3509 | What an operation sends rebuilds what it did, except exactly an unknown route event that ejects from warp, and a compaction that cannot summarise what it archives |
| `Replication.NextKeepsBridgeExactly` | services/server/src/bus.rs:114-141 | One step, by the leader or by delivery, keeps the queue a bridge from follower to leader under the same exact condition |
| `Replication.FollowerCatchesUp` | services/server/src/bus.rs:114-276 | After every interleaving of published operations and deliveries the queue bridges follower to leader, and an empty queue means equal states |
| `Replication.DrainedFollowerEqualsLeader` | services/server/src/bus.rs:114-276 | From the empty start, draining the queue after any such run reproduces the leader |
| `LeaseSafety.RunKeepsInv` | services/server/src/state.rs:2408-3509 | Every run keeps the whole invariant: records under their keys, sound routes, leases and links, and conversations of successful turns with a summary at most in front |
| `LeaseSafety.ReachableLeasesAreSound` | services/server/src/state.rs:2870-3166 | In every reachable store a lease is filed under its principal, on a known account of its tenant |
| `LeaseSafety.StepSucceeds` | services/server/src/state.rs:3123-3148 | One operation keeps a held lease with its account or replaces it by the next generation |
| `LeaseSafety.GenerationsRise` | services/server/src/state.rs:3123-3148 | While held, a generation never falls, and equal generations mean the same account |
| `LeaseSafety.OnlySelectionWrites` | services/server/src/state.rs:3524-3535 | No operation but a selection writes a lease, and leases go exactly when one of the four evicting operations takes effect, all of its account and no others |
| `LeaseSafety.LeaseLostExactly` | services/server/src/state.rs:3524-3535 | A held lease is gone after an operation exactly when the operation evicts the account it is bound to |
| `LeaseSafety.FreshGenerationExactly` | services/server/src/state.rs:3123-3148 | In every reachable store a fresh lease has generation 1 exactly when its principal holds none |
| `LeaseSafety.EvictionRestartsGenerations` | services/server/src/state.rs:3123-3126 | After any of the four evicting operations, and any run in which the principal goes without, its next lease has generation 1 |
| `LeaseSafety.QuotaShield` | services/server/src/state.rs:2764-2824 | From a quota mark to its deadline nobody holds or is given the account, over any run that does not rewrite its cooldown |
| `LeaseSafety.FailoverOverwritesRest` | services/server/src/state.rs:2683-2692 | A later failover keeps a deadline exactly when it writes the same one and does not spare the account |
| `FailureHandling.FailureRestsExactly` | services/server/src/http/data.rs:3499-3598 | After any failure, hidden or rejected, of any kind, or a missing credential (lines 277-284), the account rests at a given time exactly as told before: until the deadline of that failure, as before, or not at all when it is spared |
| `FailureHandling.EligibleAgainExactly` | services/server/src/http/data.rs:3499-3598 | The account that failed is eligible at a given time exactly when it can serve and does not then rest |
| `FailureHandling.RetryAvoidsFailedAccount` | services/server/src/http/data.rs:3499-3598 | Once a failure is handled, a missing credential included, no selection yields the account while it rests |
| `Memory.BuildStructuredReplay` | services/server/src/state.rs:3370-3392 | The loop builds the specified replay, and none when a turn kept no input |
| `Memory.CompactKeeps` | services/server/src/state.rs:1253-1307 | After compaction, completed or not, all turns are successful and a summary stands only at the front |
| `Memory.RecordTurnKeepsSuffix` | services/server/src/state.rs:3468-3509 | Recording adds exactly one turn; or keeps exactly the last four, behind one summary exactly if the others can be summarised |
| `Memory.RecordTurnStaysBounded` | services/server/src/state.rs:3502-3508 | A thread-backed conversation of at most twelve turns stays there |
| `Memory.CompactedReplay` | services/server/src/state.rs:1253-1307 | Replay of compacted turns is the summary item and then the replay of the kept suffix |
| `Memory.ReplayAfterCompaction` | services/server/src/state.rs:3223-3267 | After recording fires compaction, the next failover plan replays the four newest turns, behind the summary item exactly if the others could be summarised |
| `Summaries.FoldsExactly` | services/server/src/state.rs:4311-4328 | Turns can be folded into a summary exactly when what is to be cut at byte 480, and behind an older summary at byte 960, is short enough or has a character end there |
| `Summaries.SummaryIsBounded` | services/server/src/state.rs:4311-4328 | However often a thread is compacted, its summary stays within 963 bytes |
| `Utf8.TruncatedExactly` | services/server/src/state.rs:4321-4328 | A text is cut exactly when it is short enough or a character ends at the length; what is left is the whole text, or exactly that many of its bytes and three dots |
| `Memory.ContinuationReplaysAsFailover` | services/server/src/state.rs:3223-3307 | A continuation retry drops the previous response id and replays the items that a failover to a later generation replays; the texts sent beside them agree exactly when there are none |
| `Memory.CompactBridgesExactly` | services/server/src/state.rs:1253-1307 | The messages of a compaction rebuild it exactly when it has nothing to archive or can summarise it |
| `Memory.RecordTurnBridgesExactly` | services/server/src/state.rs:3468-3509 | The messages of recording a turn rebuild it exactly when it fires no compaction, or one that completes |
| `Memory.NextPublishHeals` | services/server/src/state.rs:1253-1307 | After a compaction that failed, the next message about the conversation makes the follower whole |
| `Threads.NormalizeTwice` | services/server/src/state.rs:4254-4256 | Normalising an identifier twice is normalising it once |
| `Threads.UpsertThreadKeepsLinks` | services/server/src/state.rs:1085-1241 | Parents and edge ends are known threads, no link is doubled, every parent link has its edge |
| `Threads.UpsertThreadKeepsForestExactly` | services/server/src/state.rs:1085-1179 | Every chain still ends at its recorded root exactly when the written link is safe, judged before the write |
| `Threads.UnsafeLinkBreaksForest` | services/server/src/state.rs:1116-1130 | An unsafe link always breaks the forest |
| `Threads.SameParentIsSafe` | services/server/src/state.rs:1116-1130 | Writing the parent already on file is always safe |
| `Threads.UpsertThreadBridges` | services/server/src/state.rs:1085-1241 | The messages of an upsert rebuild it |
| `Threads.ForkThreadBridges` | services/server/src/state.rs:894-981 | The messages of a fork rebuild it |
| `ConversationRuns.StepKeepsForestExactly` | services/server/src/state.rs:1085-1241 | Any operation keeps the forest exactly when the link it writes, if any, is safe |
| `ConversationRuns.RunKeepsForest` | services/server/src/state.rs:1085-1241 | Safely linked runs keep all links known and every chain ending at its root |
| `ConversationRuns.PlainRunKeepsForest` | services/server/src/state.rs:1085-1241 | So do runs that only repeat parents, or give one to a thread without children that is not its own ancestor |
| `ConversationRuns.UpsertKeepsShortExactly` | services/server/src/state.rs:1085-1179 | Thread conversations stay at twelve turns or fewer exactly when no thread is attached to a longer one |
| `ConversationRuns.RunKeepsShort` | services/server/src/state.rs:3468-3509 | The same over whole runs |
| `SseFraming.SseBuffer.TakeRecord` | services/server/src/http/data.rs:4963-4968 | Takes exactly the text before the first blank line and the blank line, or nothing when there is none |
| `SseFraming.SseBuffer.Feed` | services/server/src/http/data.rs:3104-3122 | Normalises and appends a chunk and takes every record then complete |
| `SseFraming.FrameChunks` | services/server/src/http/data.rs:3418-3420 | Feeding chunks one by one frames their normalised concatenation |
| `SseFraming.FrameConcat` | services/server/src/http/data.rs:4963-4968 | Text that arrives later never disturbs records already complete |
| `SseFraming.FramingLosesNothing` | services/server/src/http/data.rs:4963-4968 | Records and residue spell out the text |
| `SseFraming.RelayReframesExactly` | services/server/src/http/data.rs:3077 | Relayed records are framed again unchanged exactly when none holds a blank line or ends in a line feed |
| `SseFraming.RelayIsFaithful` | services/server/src/http/data.rs:3077 | A client frames the relayed text into the records the gateway framed |
| `SseFraming.ChunkingIsInvisibleExactly` | services/server/src/http/data.rs:3419 | A chunking yields the records and residue of the whole text exactly when it splits no CRLF |
| `SseFraming.ChunkingsAgree` | services/server/src/http/data.rs:3104 | Two such chunkings of a text agree |
| `Lossy.CutShowsExactly` | services/server/src/http/data.rs:3419 | Decoding two parts one by one gives the text of the whole if no character straddles the cut, and more replacement characters if one does |
| `Lossy.ByteChunkingIsInvisibleExactly` | services/server/src/http/data.rs:3104-3122 | Every chunking of the bytes yields the records and residue of the whole exactly when it splits no character and no CRLF |
| `Lossy.EncodedIsDecoded` | services/server/src/http/data.rs:3419 | Well formed bytes are decoded to the characters they encode |
| `StreamRelay.Preflight` | services/server/src/http/data.rs:3398-3439 | Reads no further than the deciding chunk; the verdict is that of the first record that stops it |
| `StreamRelay.Relay` | services/server/src/http/data.rs:3080-3136 | Passes on what was held and then all that arrives up to the first failure |
| `StreamRelay.Deliver` | services/server/src/http/data.rs:3039-3136 | Every guarded stream: where the preflight stopped, why it refused, and exactly what is handed on of what arrived, be it healthy, broken off or failing late; always a prefix of the framing without blank held records |
| `StreamRelay.PassThrough` | services/server/src/http/data.rs:3080-3136 | Every unguarded stream: what arrived up to the first failure in disguise is handed on, always a prefix, all of it if the stream is healthy |
| `StreamRelay.HandledInFullExactly` | services/server/src/http/data.rs:3428-3439 | What Deliver hands on of a healthy stream is everything exactly when a chunk follows the preflight or its buffer holds no complete record |
| `SseRecord.ParseRecord` | services/server/src/http/data.rs:5356-5371 | The loop reads the specified event name and data |
| `SseRecord.BlankIsNoEvent` | services/server/src/http/data.rs:3425-3427 | A blank record is no event, so dropping it loses nothing |
| `SseRecord.WrittenIsRead` | services/server/src/http/data.rs:5356-5371 | A record written as an event line and data lines reads back as that event and the joined data |
| `Reconstruction.StreamCapture.Record` | services/server/src/http/data.rs:4572-4593 | Captures first id, items by index and the completed response as specified |
| `Reconstruction.StreamCapture.Finish` | services/server/src/http/data.rs:4595-4630 | Makes up the specified response |
| `Reconstruction.ValuesInOrder` | services/server/src/http/data.rs:4623-4627 | Reads an ordered map out in ascending order of its keys |
| `Reconstruction.SortedIsUnique` | services/server/src/http/data.rs:4610-4627 | There is one ascending order |
| `Reconstruction.CapturedIsLastWrite` | services/server/src/http/data.rs:4572-4593 | Each index holds what the last event that wrote it put there |
| `Reconstruction.CompletedResponse` | services/server/src/http/data.rs:4572-4630 | Ending in a completed response: its own items first, further streamed items behind them in ascending order, its id or the first seen, all else unchanged |
| `Reconstruction.OutputIsOwnExactly` | services/server/src/http/data.rs:4610-4627 | The rebuilt output is the completed one exactly when nothing was streamed beyond it |
| `ChatAdapter.ChatStreamAdapter.EnsureToolCall` | services/server/src/http/data.rs:4892-4944 | Finds a call by id, then by output index, else enters it; relabels as specified |
| `ChatAdapter.ChatStreamAdapter.TranslateRecord` | services/server/src/http/data.rs:4970-5293 | One record edits the adapter and yields the chunks of the specification |
| `ChatAdapter.ChatStreamAdapter.TranslateFailure` | services/server/src/http/data.rs:5309-5355 | Terminal reasons finish the message, other failures end in an error |
| `ChatInvariants.ChunksAreWellOrdered` | services/server/src/http/data.rs:4970-5307 | Over every event sequence: one role chunk at most and before all talk; each call opened once, counting up, before its arguments |
| `ChatRefinement.FragmentsSpellArgumentsExactly` | services/server/src/http/data.rs:5109-5227 | Over every event sequence: fragments spell the stored arguments at every index exactly when final values only ever extend |
| `ToolMoves.LedgerNoLess` | services/server/src/http/data.rs:5109-5227 | The same on the calls alone; a client never has less than is stored |
| `ToolMoves.IndicesAreStable` | services/server/src/http/data.rs:4892-4944 | With consistent labels each output index keeps one place of its own for the whole stream |
| `ToolMoves.CallsAccounted` | services/server/src/http/data.rs:4892-5227 | Each call is made of the events labelled with its output index and no others |
| `ToolMoves.PlainSpeechArrives` | services/server/src/http/data.rs:5134-5146 | What was sent for a call is what is stored exactly when its final values extend |
| `ChatRefinement.OpenStreamStands` | services/server/src/http/data.rs:4970-5293 | At any point before the end the client has heard every delta, behind a first whole message, and filed every call |
| `ChatRefinement.StreamingMatchesExactly` | services/server/src/http/data.rs:4970-5293 | A stream folds to the translation of its completed response exactly when the text heard is empty or the response's and the calls are the response's |
| `ChatEndToEnd.CallsStandAt` | services/server/src/http/data.rs:4738-4758 | The calls of a response are its call items in order of their positions |
| `ChatEndToEnd.StreamingRefinesUnary` | services/server/src/http/data.rs:4670-4776 | Every well formed stream folds to the content, tool calls and finish reason of the translated response |
| `ChatExample.StreamIsWellFormed` | services/server/src/http/data.rs:4970-5293 | Every stream of some text and a call told in pieces is well formed, into however many fragments its arguments are cut |
| `ChatEndToEnd.ChunksAreSigned` | services/server/src/http/data.rs:4670-4700 | Every chunk of a stream whose response is announced bears the id and model of the translated response |
| `Collector.CollectResponse` | services/server/src/http/data.rs:3441-3497 | The collector answers as specified on every stream: hidden failures, broken reads and an unterminated last record included |
| `Collector.HealthyAnswer` | services/server/src/http/data.rs:3441-3497 | Of every healthy stream the answer is the response its events make up, those of an unterminated last record included; if it is cut at no CRLF, whatever the chunks |
| `Collector.BothWaysAgreeExactly` | services/server/src/http/data.rs:3224-3497 | Chunks in, client view out: what the streaming server sends and what the collector answers tell the client the same exactly when an unterminated last record hides no failure and is no event, or a completion with nothing left to say |
| `ChatEndToEnd.StreamingRefinesCollecting` | services/server/src/http/data.rs:3441-3497 | The streamed and the collected way of serving a chat request tell the client the same |
| `ChatPipeline.TranslateRecords` | services/server/src/http/data.rs:3271-3284 | Parsing and translating record by record is translating the events among them |
| `ChatPipeline.ServeChat` | services/server/src/http/data.rs:3224-3343 | What is sent is the translation of the records delivered and a closing; if the stream is healthy, cut at no CRLF and handed on in full, its own output folds to the translated completion |
| `ChatPipeline.HandledDecodes` | services/server/src/http/data.rs:3224-3343 | What is delivered of a healthy stream, guarded or not, decodes to the events of its whole framing if a chunk follows the preflight or nothing was left |
| `ChatPipeline.AnyChunkingTells` | services/server/src/http/data.rs:3224-3343 | However a well formed stream is chunked without splitting a CRLF, what is delivered of it makes the client end with the translated completion |
| `RetryLoop.Request.Pass` | services/server/src/http/data.rs:249-684 | One pass does what the specification says, exit or retry |
| `RetryLoop.Request.Serve` | services/server/src/http/data.rs:246-684 | The loop runs as specified against any rounds |
| `RetryLoop.RetriesAreBounded` | services/server/src/http/data.rs:246-684 | At most one continuation retry, one compaction and max(1, budget) other retries but for quota |
| `RetryLoop.AttemptsAreBounded` | services/server/src/http/data.rs:246-684 | At most 3 + max(1, budget) attempts, not counting retries after quota failures |
| `RetryLoop.BoundIsReached` | services/server/src/http/data.rs:246-684 | Some upstream makes a request take all of them |
| `RetryLoop.LeaseIsAlwaysAtHand` | services/server/src/http/data.rs:249-260 | The exit for a missing lease is never taken |
| `RetryLoop.PassLeavesTurnPendingExactly` | services/server/src/http/data.rs:452-476 | A failed pass leaves the turn pending exactly when a retry was due and no lease is offered |
| `RetryLoop.PendingTurnLeftExactly` | services/server/src/http/data.rs:246-684 | A failed request leaves its turn pending exactly when that holds of the last round it used |
| `RetryLoop.RetryKeepsLeaseExactly` | services/server/src/http/data.rs:405-475 | Continuation and compaction retries stay on the lease, others take the one offered |
| `RetryLoop.PreviousIdStaysGone` | services/server/src/http/data.rs:405-447 | The previous response is named exactly until the first such retry |
| `RetryLoop.ChatRetryLosesLeaseExactly` | services/server/src/http/data.rs:1555-1705 | The chat loop finds no lease exactly after it went round for compaction, and leaves the turn pending |
| `ExecutionGuard.InflightTable.CountIn` | services/server/src/state.rs:2234-2237 | Entering counts the account up |
| `ExecutionGuard.InflightTable.CountOut` | services/server/src/state.rs:118-128 | Leaving counts it down and removes an entry that falls to zero |
| `ExecutionGuard.StepKeepsExactly` | services/server/src/state.rs:2214-2242 | Every step, the cancelling of a queued request included, keeps the invariant of permits, gates, holders and counts, except exactly the deletion of an account somebody is attached to |
| `ExecutionGuard.GuardIsExclusive` | services/server/src/state.rs:2214-2242 | In every interleaving without deletions one task at most guards an account and its entry is absent or 1 |
| `ExecutionGuard.DeletionDoublesExactly` | services/server/src/state.rs:2433-2438 | From a sound state, a deletion and then steps without deletions can end in two guards of the account exactly when a task is queued at, permitted to or guarding it |
| `ExecutionGuard.ReachableDeletionDoublesExactly` | services/server/src/state.rs:2433-2438 | The same after every interleaving without deletions |
| `ExecutionGuard.DeletionForgetsCountExactly` | services/server/src/state.rs:2433-2438 | A deletion loses the in-flight count exactly when somebody guards the account |
| `Witnesses.UnpublishedEventIsReachable` | services/server/src/state.rs:2560-2632 | Import, three direct hits and an unknown event 72 hours on: a legal run whose last change no follower hears of |
| `Witnesses.UnsafeLinkIsReachable` | services/server/src/state.rs:1085-1179 | Two upserts, the second of which gives a thread with a child a parent, leave a chain that misses its root |
| `Witnesses.PreflightTailIsLost` | services/server/src/http/data.rs:3428-3439 | One chunk with two records, of which only the first is handed on |
| `Witnesses.SplitCrlfShows` | services/server/src/http/data.rs:3419 | Two chunks that split a CRLF frame differently from their text |
| `Witnesses.FragmentsDisagree` | services/server/src/http/data.rs:5134-5146 | Any fragment with a final value that does not begin with it leaves the client with other arguments than are stored |
| `Witnesses.TurnIsLeftPending` | services/server/src/http/data.rs:452-476 | One generic failure with no lease on offer leaves the turn pending |
| `Witnesses.UnterminatedCompletionIsDropped` | services/server/src/http/data.rs:3471-3486 | A completion without its blank line: the collector answers with its text, the streaming client never hears it |
| `Witnesses.ChatLosesItsLease` | services/server/src/http/data.rs:1555-1705 | A compaction in the chat loop is followed by a pass without a lease |
| `Witnesses.GuardedAccountIsReachable` | services/server/src/state.rs:2214-2242 | Three steps from the empty state reach an account whose deletion admits a second guard |
| `CompactionWitnesses.TurnsAreLost` | services/server/src/state.rs:1253-1307 | Thirteen requests of at least 147 three-byte characters: the thirteenth answer loses nine turns without a summary, and no follower hears of it |
| `LeaseWitnesses.FailoverShortensRest` | services/server/src/state.rs:2683-2692 | Import, a quota mark for an hour and a failure: a run after which the account rests for 45 seconds |
| `LeaseWitnesses.GenerationFalls` | services/server/src/state.rs:3123-3148 | Two selections, a deletion and a third selection take a principal from generation 2 to generation 1 |
| `LeaseWitnesses.PairIsReachable` | services/server/src/state.rs:1681-1747 | Two imports lead to the store from which that run starts |
| `CanonicalJson.CanonicalTwice` | services/server/src/http/data.rs:3989-4001 | Canonical form is idempotent |
| `CanonicalJson.CanonicalEqualExactly` | services/server/src/http/data.rs:3989-4001 | Two documents without repeated keys have equal canonical forms exactly when they differ in member order only, at every depth |
| `CanonicalJson.SortLooksUp` | services/server/src/http/data.rs:3992-3998 | Sorting members changes no value |
| `WindowId.CanonicalSpellingIsStable` | services/server/src/http/data.rs:5509-5535 | The canonical spelling parses to the same window and to itself |

## Left out

- HTTP, WebSocket, Redis and Postgres: upstream results are arbitrary, the bus is a lossless first-in first-out queue, and snapshots are not loaded.
- Timers, sleeps, heartbeats and logging, including the waiting loop around selection.
- Several leaders at once, and races inside one operation: each operation is atomic and reads the clock once, so the second reading in `should_reuse_lease` is the first.
- Decoding of bytes to text is modelled in `Lossy`; from the framing on, chunks are texts.
- Parsing of JSON texts, and names of event kinds: both are parameters (`SseRecord.Codec`); events carry their kind as an enumeration.
- The words by which failures, finish reasons and hidden failures are recognised: they are predicates, fixed but arbitrary.
- SHA-256, UUIDs and floating point: the rendezvous score is an arbitrary function into the reals, identifiers are fresh, and ratios are exact, so rounding and NaN do not occur.
- Width of counters: streaks, generations and indices are unbounded naturals.
- The layout of the texts sent beside a replay: they are represented by what they are made from.
- `AccountOps.ImportKeeps`: describes importing an account with a ready credential template; managed login, token refresh, behaviour profiles and browser recovery are foreign to the store modelled here.
- `Replication.FollowerCatchesUp`: covers the operations of `Runs.Op`; batch refreshes of models or rate limits, and user and key administration, publish one record per change in the same way and would add nothing.
- `ChatEndToEnd.StreamingRefinesUnary`: compares content, tool calls and finish reason, and `ChatEndToEnd.ChunksAreSigned` ids and models; timestamps and token counts are not compared.
- `Bus.Runtime.DeleteAccount`: the gate and in-flight entry that go with an account are the Delete step of `ExecutionGuard`; its refresh token and browser sessions lie outside the store.
- `AppState.Leader.DeleteAccount`: leaves out the same four tables.
- `StreamRelay.Relay`: says what is passed on and how the stream ended; the failure record appended when a relayed stream breaks, and heartbeats between records, are not modelled.
- `RetryLoop.AttemptsAreBounded`: retries after quota failures are bounded only by the upstream, as in the code.
- Request payload assembly, replayed tool calls, usage accounting, pricing, dashboards and alerts: easy members only.
- The web application and the shared contracts are not part of this model.
