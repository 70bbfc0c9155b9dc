# Verified model of the strategy server's deterministic core

This Dafny project models the parts of the server whose correctness is hardest to see from one body
of code and proves what they promise:

- the world codec and the world hash (`Js`, `EngineTypes`, `PlayerRegistry`, `WorldFormat`,
  `WorldReader`, `WorldWriter`, `WorldCodecProofs`, `WorldCodecTheorems`, `WorldHash`);
- the order pipeline from the network queue to phase 0 of a tick (`Utf16Order`, `StableSort`,
  `Orders`, `OrderPipeline`, `PipePhase`, `PhaseZeroRuns`);
- fog of war: sensor ranges, masks and the redacted player view (`Horizon`, `PlayerView`);
- the matchmaker with its lifecycle, forfeits, rematches and sweeps (`MatchModel`, `MatchInvariant`,
  `MatchSteps`, `MatchRematch`, `MatchRuns`, `MatchTheorems`, `Matchmaker`);
- networking structures: the replay buffer, the token bucket, skip-send broadcasts (`Resync`,
  `TokenBucket`, `Broadcast`);
- bit and board arithmetic: identity packing, the sfc32 generator, spawn bands and city symmetry
  (`PlayerIdPacking`, `Sfc32`, `CityLayout`).

`dafny verify dfyconfig.toml` checks the whole project.

Code that updates objects in place is modelled by classes and loops, each proved against a
specification function; the properties are then lemmas about those functions. Clock readings, fresh
ids and tokens, random bytes, the outcome of starting an engine and the engine's count of living
players are parameters. Exceptions are `Result` values; the matchmaker's throws for an
illegal transition, a leave without outcome, and a session or seat missing from a rematch set a `crashed`
flag that is proved never to be set.

## What the code does that its comments do not say

- `serializeWorld` accepts ticks of 2^32 and more and writes them modulo 2^32, and it accepts two
  cities on one cell, which `deserializeWorld` refuses. The round trip holds exactly on the worlds
  `Canonical` describes.
- The order comparator is a preorder, not a total order: two reserve orders of one player for one
  cell keep their staging order, so reserves, unlike pipe masks, can depend on it.
- The generator's outputs are signed 32-bit numbers, although documented as unsigned.
- `joinMatch`'s `match_not_joinable` branch, described as unreachable, is reached by a match
  collected before it filled.
- A limiter clock that steps back mints tokens: the bound of capacity plus rate times elapsed time
  holds on every window exactly when the clock never steps back.
- With two or four players the half-turn carries spawn bands onto their partners only on boards
  whose split sides are even.

## Model

| member | source | states |
|---|---|---|
| WorldCodecTheorems.DecodeUndoesEncode | packages/engine/src/serialize.ts:211-240 | Every world the encoder accepts and the layout can represent is read back equal in every field, slot order and owner bytes included. |
| WorldCodecTheorems.EncodeUndoesDecode | packages/engine/src/serialize.ts:716-952 | Whatever buffer decodes, encoding the result gives exactly that buffer; the result is encodable and canonical. |
| WorldCodecTheorems.LosslessIffCanonical | packages/engine/src/serialize.ts:382-600 | For every accepted world the round trip returns it if and only if it is canonical: square, row-major, 32-bit tick and seeds, cities on distinct cells, a registry its own ids rebuild. |
| WorldCodecTheorems.CodecIsInjective | packages/engine/src/serialize.ts:211-240 | No two buffers decode to one world, and no two canonical worlds share a buffer. |
| WorldCodecTheorems.ImageSeesTickModulo32Bits | packages/engine/src/serialize.ts:515 | Two worlds whose ticks agree modulo 2^32 and which agree elsewhere are written identically. |
| WorldCodecTheorems.LongTickIsTruncated | packages/engine/src/serialize.ts:392 | A concrete accepted world with tick 2^32 is read back with tick 0. |
| WorldCodecTheorems.DuplicateCityIsLost | packages/engine/src/serialize.ts:480-496 | A concrete accepted world with two cities on a cell is not read back. |
| WorldCodecTheorems.PayloadRead | packages/engine/src/serialize.ts:716-952 | Reading the payload of any well-formed image returns that image. |
| WorldCodecTheorems.PayloadCanonical | packages/engine/src/serialize.ts:716-952 | A payload that is read is the payload of what was read, so no second spelling is accepted. |
| WorldCodecProofs.PermutationMeans | packages/engine/src/serialize.ts:969-985 | The slot check reports no defect exactly when the values are a rearrangement of 0..count-1: right length, in range, no repeats. |
| WorldCodecProofs.PermutationCovers | packages/engine/src/serialize.ts:969-985 | Values without a defect hit every index. |
| WorldReader.PayloadReader.U32 | packages/engine/src/serialize.ts:649-714 | The cursor advances past four bytes and yields their little-endian value, or fails without enough bytes. |
| WorldReader.DeserializeWorld | packages/engine/src/serialize.ts:233-240 | The loop-based decoder over a moving cursor computes exactly the specification `Decode`, errors included. |
| WorldReader.FindPermutationProblem | packages/engine/src/serialize.ts:969-985 | The scan with its seen-set finds the defect the specification names. |
| WorldWriter.SerializeWorld | packages/engine/src/serialize.ts:211-225 | The array-filling encoder succeeds exactly on encodable worlds and then returns `Bytes(w)`. |
| WorldWriter.ResolveIdentityLayout | packages/engine/src/serialize.ts:319-380 | The identity table and slot order are produced exactly when players and registry are consistent. |
| WorldWriter.ValidateCellFields | packages/engine/src/serialize.ts:611-638 | Cell fields pass exactly when every count, owner, mask and percentage is encodable. |
| WorldHash.Fnv1a32Hex | packages/engine/src/serialize.ts:1037-1045 | The hash loop returns the eight characters of the padded lower-case hex string of FNV-1a, 32 bit (section 2 of draft-eastlake-fnv). |
| WorldHash.PaddedIsDigits | packages/engine/src/serialize.ts:1043-1044 | Conversion to base 16 and padding with zeros give exactly the low digits of the word, most significant first. |
| WorldHash.RoundIsInjective | packages/engine/src/serialize.ts:1037-1045 | One round is injective in the state for a given byte and in the byte for a given state. |
| WorldHash.OneByteChangesHash | packages/engine/src/serialize.ts:252-255 | Equal-length buffers that differ in exactly one byte never collide. |
| WorldHash.PipeChangeChangesHash | packages/engine/src/serialize.ts:252-255 | Changing one cell's pipe mask always changes the world hash. |
| Utf16Order.CompareUtf16 | packages/engine/src/playerRegistry.ts:81-90 | The loop computes the code-unit comparison. |
| Utf16Order.ZeroOnlyOnEqual | packages/engine/src/playerRegistry.ts:81-90 | The comparison is zero exactly on equal strings. |
| Utf16Order.Antisymmetric | packages/engine/src/playerRegistry.ts:81-90 | Swapping the arguments negates the comparison. |
| Utf16Order.Transitive | packages/engine/src/playerRegistry.ts:81-90 | The comparison is transitive. |
| PlayerRegistry.CreatePlayerRegistry | packages/engine/src/playerRegistry.ts:168-238 | The constructor loops compute the specification: the error of the first bad entry, or the sorted registry. |
| PlayerRegistry.AcceptsExactly | packages/engine/src/playerRegistry.ts:168-205 | A registry is made exactly from 2 to 4 distinct canonical ids. |
| PlayerRegistry.LookupsInvert | packages/engine/src/playerRegistry.ts:213-238 | Index of id and id at index are inverse, and unknown ids and indices have no answer. |
| PlayerRegistry.OrderIndependent | packages/engine/src/playerRegistry.ts:168-238 | Any two arrangements of the same ids give the same registry. |
| PlayerRegistry.AscendingIsUnique | packages/engine/src/playerRegistry.ts:81-90 | Two strictly ascending id lists with the same members are equal. |
| PlayerRegistry.AscendingIsKept | packages/engine/src/playerRegistry.ts:168-238 | An already ascending list is kept as it is. |
| StableSort.SortStable | packages/engine/src/tick.ts:435-447 | Sorting keeps the order of ties (section 23.1.3.30 of ECMA-262). |
| StableSort.StableSortUnique | packages/engine/src/tick.ts:435-447 | A sorted, stable rearrangement is unique. |
| StableSort.FinerSortAbsorbs | packages/networking/src/match-channel.ts:299-309 | Sorting by a key that refines an earlier stable sort's key forgets that earlier sort. |
| Orders.EngineOrder | packages/engine/src/tick.ts:435-488 | The engine comparator orders by player, then kind name, coordinates and direction, and ties exactly on equal keys. |
| Orders.EngineIsConsistent | packages/engine/src/tick.ts:449-471 | The engine comparator is a consistent total preorder. |
| Orders.DrainIsConsistent | packages/networking/src/match-channel.ts:299-309 | So is the network drain's. |
| Orders.EngineRefinesDrain | packages/networking/src/match-channel.ts:299-309 | Orders the engine puts in order are not out of order for the drain. |
| Orders.StageableIsStatic | packages/engine/src/validate.ts:99-147 | Validity of a non-surrender order does not depend on surrenders staged before it. |
| Orders.StagingFilters | packages/engine/src/applyCommand.ts:82-116 | Staging a batch appends exactly its valid non-surrender orders, in order. |
| Orders.StageableIsInBounds | packages/engine/src/validate.ts:307-327 | A staged order targets a cell of the board and belongs to a registered player. |
| Orders.DrainOrderIsInvisible | packages/networking/src/orders.ts:157-169 | Whether the drain's order or the arrival order is staged, the engine sorts the same sequence. |
| Orders.FloorIsRoundedUpShare | packages/engine/src/validate.ts:367-379 | The reserve floor is the reserved tenths of the stack, rounded up, between one and the whole stack. |
| OrderPipeline.AcceptOrder | packages/networking/src/orders.ts:61-134 | An order is queued exactly from a joined player connection, with a canonical player equal to the connection's identity; the first failing check names the rejection, in the source's order, and a rejected order leaves the queue unchanged. |
| OrderPipeline.MatchChannel.EnqueueOrder | packages/networking/src/match-channel.ts:285-290 | The order is appended to the queue of its seat. |
| OrderPipeline.MatchChannel.DrainOrdersForTick | packages/networking/src/match-channel.ts:299-309 | The drain empties the queue and returns it stably sorted. |
| OrderPipeline.StagingTable.WithPendingOrders | packages/engine/src/applyCommand.ts:67-70 | The side table changes for the given world object only. |
| OrderPipeline.StagingTable.ApplyCommand | packages/engine/src/applyCommand.ts:82-116 | A command stages, surrenders or is refused as specified; only a surrender makes a new world object, and no other world's queue changes. |
| OrderPipeline.ApplyOrdersAtTickBoundary | packages/networking/src/orders.ts:157-169 | After the boundary the queue is empty, each order's outcome is reported in drain order with its sequence number, and the staged orders sort as if submitted in arrival order. |
| PipePhase.ApplyStagedOrders | packages/engine/src/tick.ts:134-142 | The phase-0 loop computes the fold of the sorted orders. |
| PipePhase.PlayerMaskBits | packages/engine/src/tick.ts:515-560 | Bit by bit, one player's orders leave the last exclusive direction, else the old mask (zero if cleared) minus clears plus sets. |
| PipePhase.PipesAfterPhaseZero | packages/engine/src/tick.ts:134-142 | After phase 0 every cell holds the closed form taken player by player in UTF-16 order. |
| PipePhase.PipesIgnoreStagingOrder | packages/engine/src/tick.ts:134-142 | Pipe masks depend only on the multiset of staged orders. |
| PipePhase.ReservesAfterPhaseZero | packages/engine/src/tick.ts:515-560 | A cell's reserve setting is the percentage staged last by the greatest player who staged one. |
| PipePhase.ReservesIgnoreStagingOrderIff | packages/engine/src/tick.ts:449-471 | Reserves ignore staging order exactly when the greatest player staged no two different percentages for the cell. |
| PhaseZeroRuns.ArrivalOrderLeavesPipes | packages/networking/src/orders.ts:157-169 | From the network queue to the masks: two arrival orders of the same orders, drained, validated, staged, sorted and played, leave the same pipe masks. |
| PhaseZeroRuns.StageableIsPlayable | packages/engine/src/validate.ts:307-327 | Whatever the validator lets into the queue is on the board and by a player of the registry, as phase 0 needs. |
| PhaseZeroRuns.ReservesDependOnStagingOrder | packages/engine/src/tick.ts:449-471 | In a world the encoder accepts, two reserve orders the validator accepts leave the percentage staged last, whichever it is. |
| Horizon.ToSigned32IsToInt32 | packages/fog/src/visibleSet.ts:62-71 | The radius conversion is ToInt32 (section 7.1.6 of ECMA-262). |
| Horizon.DiskMembers | packages/fog/src/range.ts:41-107 | A disc holds exactly the board cells within Chebyshev distance. |
| Horizon.CellsInRange | packages/engine/src/read.ts:99-114 | The engine's loops return the disc, row by row, after the 32-bit conversion and the clamp at zero. |
| Horizon.ChebyshevDisk | packages/fog/src/range.ts:77-107 | The fog package's loops return the same disc, or refuse a negative radius or an empty board. |
| Horizon.FogMask.MarkVisible | packages/fog/src/mask.ts:79-86 | Marks the one cell and no other; cells off the board are ignored. |
| Horizon.FogMask.IsVisible | packages/fog/src/mask.ts:102-109 | Answers whether the cell is marked, false off the board. |
| Horizon.UnionMasks | packages/fog/src/mask.ts:133-150 | In place, a cell is visible where either mask marked it, one mask passed twice included; masks of different sizes are refused unchanged. |
| Horizon.MarkHorizons | packages/fog/src/visibleSet.ts:149-180 | Pass 1 leaves marked exactly the cells in range of a living own stack. |
| Horizon.ComputeVisibleSet | packages/fog/src/visibleSet.ts:149-198 | The two passes compute the declared union of discs. |
| Horizon.VisibleCellsExact | packages/fog/src/visibleSet.ts:149-198 | The visible list holds exactly the cells in range, strictly increasing in row-major order. |
| PlayerView.FilterTickEvents | packages/fog/src/eventsFilter.ts:171-241 | Both shortcuts that return the input agree with the filter. |
| PlayerView.DecodeCells | packages/engine/src/read.ts:39-78 | The loop decodes the cells in order, or fails with the first failing cell's error. |
| PlayerView.ComputePlayerView | packages/fog/src/playerView.ts:122-185 | The method computes the specified view for spectators, unknown players and seated players. |
| PlayerView.ViewIgnoresHiddenState | packages/fog/src/playerView.ts:122-185 | Noninterference: worlds that agree on the player's stacks and inside the horizon, with fights, captures, applied orders and errors differing only where they name a hidden cell or another player's order, give the same view. |
| PlayerView.ViewExistsIff | packages/fog/src/playerView.ts:122-185 | A view succeeds exactly when what it shows can be read: the whole board for spectators, the cells in range of a board with an extent for the seated, nothing for others. |
| PlayerView.EncodableIsViewable | packages/fog/src/playerView.ts:122-185 | Every world the encoder accepts, with a cell for every board position, can be viewed by everyone. |
| PlayerView.ViewShowsExactlyTheHorizon | packages/fog/src/playerView.ts:122-185 | A seated player's view shows every cell in sensor range, correctly decoded, and no other. |
| PlayerView.CombatShownIffVisible | packages/fog/src/eventsFilter.ts:198 | A fight on the board is reported exactly when its cell is in sensor range. |
| PlayerView.CaptureShownIffVisible | packages/fog/src/eventsFilter.ts:199 | So is a capture. |
| PlayerView.AppliedOrderShownIffOwnAndVisible | packages/fog/src/eventsFilter.ts:203-208 | An applied order is reported exactly to its own player and only with every cell it names in range. |
| PlayerView.ErrorShownIffVisible | packages/fog/src/eventsFilter.ts:215-221 | An error is reported exactly when every cell named by its order and its reason is in range, whoever ordered. |
| MatchRuns.StepKeepsInv | packages/matchmaking/src/matchmaker.ts:850-1384 | Every admissible operation keeps the matchmaker's invariant. |
| MatchRuns.RunKeepsInv | packages/matchmaking/src/matchmaker.ts:850-1384 | So does every run. |
| MatchRuns.NeverCrashes | packages/matchmaking/src/matchLifecycle.ts:205-291 | From the empty store, over every run, no guard of a start, finish or collect transition fires, no leave ends without an outcome, and a rematch finds every session and the caller's seat. |
| MatchRuns.SeatsAndSessionsCorrespond | packages/matchmaking/src/matchLifecycle.ts:108-185 | Over every run, seats of non-collected matches and bound sessions correspond: same match, index, token and player. |
| MatchRuns.OneSeatPerSession | packages/matchmaking/src/matchLifecycle.ts:157-185 | Over every run, no session sits in two seats of live matches. |
| MatchRuns.RunningIsComplete | packages/matchmaking/src/matchmaker.ts:564-647 | Over every run, a running match has an engine and exactly seats 0..n-1 with pairwise distinct players. |
| MatchRuns.ReplayIsChain | packages/matchmaking/src/matchLifecycle.ts:68-79 | A log that replays is a chain of legal edges, each starting where the match's previous event ended. |
| MatchRuns.LogAndCountersFaithful | packages/matchmaking/src/matchmaker.ts:391-396 | Over every run the event log alone yields each match's status, the counters equal the records counted, and live matches never exceed the cap. |
| MatchRuns.CollectedIsFinal | packages/matchmaking/src/matchLifecycle.ts:272-291 | No operation changes a collected record. |
| MatchRuns.CollectedIsFinalForever | packages/matchmaking/src/matchLifecycle.ts:272-291 | No run does. |
| MatchSteps.CollectKeeps | packages/matchmaking/src/matchmaker.ts:704-709 | Collecting a live match keeps the invariant and frees one slot of the cap. |
| MatchSteps.ExpireCases | packages/matchmaking/src/forfeit.ts:123-224 | The expiry policy acts exactly on an unforfeited seat of a filling or running match, and how. |
| MatchSteps.ExpireKeeps | packages/matchmaking/src/forfeit.ts:123-224 | Its outcome, with a teardown counted by the caller, keeps the invariant. |
| MatchSteps.LeaveKeeps | packages/matchmaking/src/matchmaker.ts:1081-1184 | Leaving keeps the invariant in every phase of a match. |
| MatchSteps.RollBackUndoes | packages/matchmaking/src/matchmaker.ts:1043-1062 | A failed start restores the store but for the seed and the activity time. |
| MatchRematch.SweepsSpareOpenWindow | packages/matchmaking/src/matchmaker.ts:723-845 | Sweeps at the clock reading of a vote leave the match being voted on untouched. |
| MatchRematch.EverySeatVoted | packages/matchmaking/src/rematch.ts:113-120 | As many votes as original participants means a vote from every seat. |
| MatchRematch.BoundRematch | packages/matchmaking/src/matchLifecycle.ts:337-379 | Rebinding the sessions and closing the original keeps seats and sessions in correspondence. |
| MatchRematch.NothingReleased | packages/matchmaking/src/matchLifecycle.ts:455-462 | The identity guard keeps the rebound sessions when the original is collected. |
| MatchRematch.AcceptKeeps | packages/matchmaking/src/matchmaker.ts:1237-1336 | An accepting vote keeps the invariant, whether refused at the cap, counted or last. |
| MatchRematch.CompleteIs | packages/matchmaking/src/matchmaker.ts:1290-1336 | After the last vote the caller's seat is found in the successor, at its old index. |
| MatchTheorems.AcceptOutcome | packages/matchmaking/src/matchmaker.ts:1237-1336 | Below the cap an admitted vote creates the rematch exactly when every other seat holder has accepted; everyone is then seated at the same index with the same player and session, the caller is told that seat with its new token, and the original is collected. |
| MatchTheorems.RematchesAreUnanimousAndUnique | packages/matchmaking/src/rematch.ts:63-139 | Over every run a match has at most one rematch, only with every seat's acceptance, no forfeit and no decline, and no two matches share one. |
| MatchTheorems.LeaveOutcome | packages/matchmaking/src/matchmaker.ts:1081-1184 | Leaving frees exactly the leaver's seat while filling (collecting the match with its last seat), forfeits it while running (tearing the match down when nobody is left alive), and changes nothing afterwards; other matches are untouched. |
| MatchTheorems.WindowAnchoredAtFinish | packages/matchmaking/src/rematch.ts:63-78 | The first request opens a window over exactly the seat holders whose deadline counts from the finish; past the deadline none opens. |
| MatchTheorems.JoinReplies | packages/matchmaking/src/matchmaker.ts:966-1025 | Each reply to a join with the exact state that draws it; the seat given is the lowest free one. |
| MatchTheorems.TakeSeatOutcome | packages/matchmaking/src/matchmaker.ts:1027-1079 | A join starts the match exactly when it fills it, the start-up works and all players are distinct; a failed start changes only seed and activity time. |
| MatchTheorems.CollectedMatchWithFreeSeat | packages/matchmaking/src/matchmaker.ts:1021-1025 | A concrete run after which a join draws the "not joinable" reply. |
| Matchmaker.Service.SweepMatches | packages/matchmaking/src/matchmaker.ts:723-816 | A sweep loop over a snapshot collects exactly the matches due, in store order. |
| Matchmaker.Service.EnforceCapacity | packages/matchmaking/src/matchmaker.ts:835-845 | Sweeps, counts the live matches and refuses exactly at the cap. |
| Matchmaker.Service.CreateMatch | packages/matchmaking/src/matchmaker.ts:850-942 | Refines the specified step and keeps the invariant. |
| Matchmaker.Service.AutoStart | packages/matchmaking/src/matchmaker.ts:564-647 | Succeeds exactly for a filling match with every seat taken, distinct players and a working start-up; the seed stays on the record either way. |
| Matchmaker.Service.JoinMatch | packages/matchmaking/src/matchmaker.ts:944-1079 | Refines the specified step and keeps the invariant. |
| Matchmaker.Service.ReconnectSeat | packages/matchmaking/src/matchmaker.ts:977-1006 | Answers with the seat the token opens, or the non-leaking errors. |
| Matchmaker.Service.HandleSeatExpired | packages/matchmaking/src/forfeit.ts:123-224 | Refines the expiry policy, no-ops included. |
| Matchmaker.Service.LeaveMatch | packages/matchmaking/src/matchmaker.ts:1081-1184 | Refines the specified step and keeps the invariant. |
| Matchmaker.Service.OnSeatExpired | packages/matchmaking/src/matchmaker.ts:468-481 | Refines the bridge handler with its counters and keeps the invariant. |
| Matchmaker.Service.OnMatchTerminal | packages/matchmaking/src/matchmaker.ts:684-702 | Refines the terminal handler and keeps the invariant. |
| Matchmaker.Service.RequestRematch | packages/matchmaking/src/matchmaker.ts:1195-1235 | Refines the specified step and keeps the invariant. |
| Matchmaker.Service.AcceptRematch | packages/matchmaking/src/matchmaker.ts:1237-1336 | Refines the specified step and keeps the invariant. |
| Matchmaker.Service.DeclineRematch | packages/matchmaking/src/matchmaker.ts:1338-1380 | Refines the specified step and keeps the invariant. |
| Matchmaker.Service.Stats | packages/matchmaking/src/matchmaker.ts:1382-1430 | Sweeps first, then reports the matches of each status, the joinable ones, the seated sessions and the counters; live matches are within the cap and live plus collected are the matches ever created. |
| Matchmaker.StatisticsAgree | packages/matchmaking/src/matchmaker.ts:1388-1430 | In every state of the invariant the statistics counted from the store agree with the running counters. |
| Matchmaker.ReleaseMatchSessions | packages/matchmaking/src/matchLifecycle.ts:455-462 | In any order of the seats, exactly the sessions still bound to the match go. |
| Matchmaker.SeatParticipants | packages/matchmaking/src/matchLifecycle.ts:337-379 | The loop re-seats every participant at the old index and rebinds exactly their sessions. |
| Resync.BufferRefinesHistory | packages/networking/src/resync.ts:69-91 | Over every run of increasing ticks, gaps allowed, and overwrites of retained ticks, the buffer is exactly the last min(n, 16) entries of the history with their latest views. |
| Resync.EvictionFindsMinimum | packages/networking/src/resync.ts:74-81 | The gap-skipping loop ends on the least tick kept. |
| Resync.PushOverwrites | packages/networking/src/resync.ts:69-91 | Re-pushing a retained tick replaces its view in place. |
| Resync.SinceIsSuffix | packages/networking/src/resync.ts:100-110 | A read is the ascending suffix of the retained history above the given tick. |
| Resync.IsSinceUnique | packages/networking/src/resync.ts:100-110 | The specification of a read determines it. |
| Resync.ResyncBuffer.Push | packages/networking/src/resync.ts:69-91 | The method with its eviction loop, for any tick whatever, computes the specified new state. |
| Resync.ResyncBuffer.GetSince | packages/networking/src/resync.ts:100-110 | Gathering in any map order and sorting yields the specified read. |
| TokenBucket.Connection.TakeToken | packages/networking/src/connection.ts:430-443 | Refills and consumes as specified and says whether a token was granted. |
| TokenBucket.LevelStaysInRange | packages/networking/src/connection.ts:430-443 | After every run, whatever the clock does, the level stays between zero and the capacity. |
| TokenBucket.GrantedIsPaidFor | packages/networking/src/connection.ts:430-443 | Tokens granted plus the level left never exceed the level at the start plus what the run earned. |
| TokenBucket.WindowBound | packages/networking/src/connection.ts:189-196 | Over any window of any run, whatever the clock does, tokens granted are at most the capacity plus what the window earned. |
| TokenBucket.EarnedInWindowTime | packages/networking/src/connection.ts:430-443 | With a clock that never steps back a window earns the rate times its length. |
| TokenBucket.EarnedIsProportional | packages/networking/src/connection.ts:430-443 | With any clock it earns the rate times the sum of the forward moves. |
| TokenBucket.LaterWindowBound | packages/networking/src/connection.ts:189-196 | With a clock that never steps back, tokens granted over any window of any run are at most the capacity plus the rate times the seconds it spans. |
| TokenBucket.BoundIffClockNeverStepsBack | packages/networking/src/connection.ts:430-443 | That bound holds for every sound bucket on every window of a clock exactly when the clock never steps back. |
| TokenBucket.RunBoundIffClockNeverStepsBack | packages/networking/src/connection.ts:430-443 | The same for the buckets connections reach, over all rates, bursts and starting times. |
| TokenBucket.ClockStepBackBreaksWindowBound | packages/networking/src/connection.ts:430-443 | A concrete run of a one-token bucket whose clock steps back and returns, granting more than the bound. |
| Broadcast.ViewsEqual | packages/networking/src/broadcast.ts:136-190 | The field-by-field loops decide equality up to the view's own tick and the contents of its events. |
| Broadcast.SetsEqual | packages/networking/src/broadcast.ts:63-73 | Equal size and inclusion decide set equality, in any order of the elements. |
| Broadcast.EquivalentIsEquivalence | packages/networking/src/broadcast.ts:136-190 | The comparison is reflexive, symmetric and transitive. |
| Broadcast.EquivalentIsExactIff | packages/networking/src/broadcast.ts:136-190 | Views that compare equal are equal in everything but the tick exactly for a view without events. |
| Broadcast.MatchChannel.BuildTickBroadcast | packages/networking/src/broadcast.ts:247-284 | Every live connection gets an entry: skip exactly when its last view is equivalent to the fresh one, else the fresh view with the channel's tick. |
| Broadcast.MatchChannel.SendTickBroadcast | packages/networking/src/broadcast.ts:301-324 | Exactly the non-skip entries are delivered, remembered and counted. |
| Broadcast.SentToExactly | packages/networking/src/broadcast.ts:301-324 | A connection with a payload ends with that view; every other keeps what it had. |
| Broadcast.MatchChannel.Tick | packages/networking/src/server.ts:500-510 | After every tick each live connection holds the fresh view unless it was skipped, else the view it had, equivalent to the fresh one; it holds the fresh events exactly when it was not skipped or already held them. |
| Broadcast.SameCountHidesNewEvent | packages/networking/src/broadcast.ts:163-177 | Two views with different single fights count as equal. |
| PlayerIdPacking.EncodePlayerId | packages/core/src/player-id.ts:379-397 | The bit-reservoir loop yields the same number written in base 64 (the grouping of section 4 of RFC 4648), never outgrowing 32 bits. |
| PlayerIdPacking.UnpackUndoesPack | packages/core/src/player-id.ts:63-78 | No two 9-byte strings share an identity, and every identity produced is canonical. |
| PlayerIdPacking.PackUndoesUnpack | packages/core/src/player-id.ts:63-78 | Every canonical identity encodes some nine bytes. |
| PlayerIdPacking.GeneratePlayerId | packages/core/src/player-id.ts:421-444 | Returns the first draw that is not active within the budget, or the error that stopped it. |
| Sfc32.Rng.Next | packages/core/src/rng.ts:91-131 | One call replaces the four words by the specified step and returns the output word as a signed number. |
| Sfc32.UnstepUndoesStep | packages/core/src/rng.ts:91-131 | Every state is recovered from its successor. |
| Sfc32.StepUndoesUnstep | packages/core/src/rng.ts:91-131 | Every state is the successor of some state. |
| Sfc32.StatesNeverMerge | packages/core/src/rng.ts:87-131 | Distinct states stay distinct after any number of calls. |
| Sfc32.NoEarlyRepeat | packages/core/src/rng.ts:117 | No state recurs within fewer than 2^32 calls anywhere in a run. |
| Sfc32.OutputIsSigned | packages/core/src/rng.ts:127-130 | Outputs lie in the signed 32-bit range, are the word itself exactly when its top bit is clear, and can be negative. |
| CityLayout.BandsPartition | packages/terrain/src/city-band.ts:51-89 | On every board size the bands partition the board: each cell lies in exactly one slot's band. |
| CityLayout.BandsRotateIff | packages/terrain/src/city-band.ts:51-89 | The half-turn carries every band onto its partner's: always with three players, with two or four exactly on boards whose split sides are even. |
| CityLayout.PartnerIsInvolution | packages/terrain/src/city-symmetry.ts:54-78 | The partner of a city's partner is the city exactly on valid slots. |
| CityLayout.EnforceCitySymmetry | packages/terrain/src/city-symmetry.ts:96-131 | The loops compute the placement followed by its missing partners. |
| CityLayout.SymmetryEnforced | packages/terrain/src/city-symmetry.ts:96-131 | The input is kept, nothing is duplicated, the result holds exactly the cities and their partners and is closed under the half-turn. |
| CityLayout.SymmetryIsIdempotent | packages/terrain/src/city-symmetry.ts:96-131 | A second pass changes nothing. |

## Left out

- Non-integral, infinite and NaN numbers, except where the token bucket and the radius conversion need them.
- Error message texts, logging, and the distinction between the decoder's exceptions beyond version mismatch, format version mismatch and malformed data.
- The resolution phases 1 to 8 of a tick (production, paratroop, gun, flow, combat, capture, decay, terminal) and the reserve-floor and fed-flag loops around them: most of their files are not part of this model.
- OrderPipeline.AcceptOrder: of the order's shape only the canonical player is checked, because a missing field or an unknown kind or direction has no value of type `Order`.
- The matchmaker's handles, display names, settings beyond the player count, join links, listeners, lobby listing and `close`; request validation is taken as passed.
- Matchmaker records are values in a map that the methods replace, so aliasing between a held record and the store is not captured; seats are visited in index order where the original snapshots insertion order.
- Network registration, attachment and spectator calls of the start-up, which appear only through their success or failure.
- Connection states, sequence stamping, heartbeats, the reconnect table, seat attachment, WebSocket and HTTP plumbing, and wire schema checks.
- The broadcast's per-tick view cache, absent config or events in views, and seats whose resync buffer grows while disconnected.
- Seed hashing (`xmur3`, `hashSeed`) and the wrappers around the generator.
- World creation, board generation and city placement before symmetry.
- Matchmaker.Service.CreateMatch: request validation, join links and the minting of identities are not modelled; the request is taken as valid and the ids as given.
- Matchmaker.Service.JoinMatch: the same, for name validation, join links and identities.
- Matchmaker.Service.AutoStart: map generation, engine construction and registration are one success flag.
- Matchmaker.Service.HandleSeatExpired: the surrender submitted to the engine appears as the number left alive, the detached seat not at all.
- TokenBucket.Connection.TakeToken: exact reals stand for IEEE doubles, so the rounding of the level is not modelled.
- TokenBucket.GrantedIsPaidFor: over exact reals, as TakeToken is.
- TokenBucket.WindowBound: over exact reals.
- TokenBucket.EarnedInWindowTime: over exact reals.
- TokenBucket.EarnedIsProportional: over exact reals.
- TokenBucket.LaterWindowBound: over exact reals.
- TokenBucket.BoundIffClockNeverStepsBack: over exact reals.
- TokenBucket.RunBoundIffClockNeverStepsBack: over exact reals.
- Bit shifts and masks are written as arithmetic on the bits they keep.
