# Egressa in Dafny

Egressa moves a client's tunnel between access and egress gateways without letting two
gateways act for one session. This project models the parts that make that safe and proves
what they promise, for every input, every interleaving and every run.

The layers, bottom up:

- **Ownership.** `Ownership`, `Store`, `Ledger` and `SetIfNewer`: who owns a session, at which
  epoch, in a store with compare-and-swap. `Failover` and `Handoff` build the two writers on top:
  controllers that fail over from a cache, and cutovers that consume an armed standby;
  `FailoverRequests` follows what is asked of the former to what is stored.
- **Fencing.** `SessionId` and `Fencing`: epochs travel from the store through polls to gateways
  and clients, and stamp every datagram. `Polls` is what a poll result means.
- **Controller.** `Controller`: addresses, first paths, opening, switching and migrating sessions;
  `ControllerRequests`: what each undisturbed request comes to.
- **Gateway.** `GatewayPlan` computes what a gateway should be configured with, `GatewayApply`
  brings the host there.
- **Client.** `Extended`, `Cost`, `FlapGuard` and `Decider` decide when to move; `P2Quantile` and
  `Rib` are the measurements' quantile estimator and prefix table.
- **Data plane and IPsec.** `Wire` is the header and the in-place receive path, `Reorder` the
  cutover receiver, `Routes`, `Bypass`, `IpsecClient`, `IpsecSecrets`, `IpsecRoundTrip`,
  `IpsecWalk` and `IpsecClosing` the IPsec client's kernel state.

`Words` has the machine words.

Code that updates fields becomes a class whose methods are proved against functions on values;
protocols become state machines with one event per atomic access, a disabled event changing
nothing, and theorems over `Run` of every sequence of events. History variables (ledgers, owners,
traces) are fields of the machine that no step reads.

Network, kernel, IKE daemon and store calls may fail at any point, except that the calls an IPsec
teardown or rollback makes succeed; failures are event arguments or arbitrary choices. Clocks,
random IDs and requests are arguments. Arithmetic on measurements is over reals extended with the
infinities and not-a-number; the logarithm and square root are parameters, of which only sqrt(0) = 0
and sqrt(x) > 0 for x > 0 are used. Where the code wraps (64-bit epochs and sequence numbers, the
32-bit epoch in the header) so does the model.

## Where the promise does not hold

Each of these is a lemma with a concrete case and one with the exact condition, or one lemma that
states exactly when it happens.

- The pair (global, local) of a failover cache, ordered by `LocalEpoch.Less`, can drop
  (`Failover.PairCanDrop`, `PairDropsExactly`); its global part cannot.
- Fencing stops passing current packets once an epoch no longer fits 32 bits
  (`Fencing.LargeEpochIsDropped`, `CurrentStampPassesExactly`).
- The fence map need not decide as the gate if an ID is not the canonical text of its number
  (`Fencing.FenceNeedsCanonicalIds`, `FenceDecidesExactly`); with the IDs the controller makes it
  does, in every run (`FenceIsGate`).
- A client poll can return a version and a session record older than it
  (`Polls.EarlyReadCanMissItsVersion`, `ReflectsExactly`), and a half-failed write is never announced
  (`Polls.SilentWriteIsMissed`, `UnchangedVersionMeansCurrent`).
- A backend switch that loses to another writer records the backend all the same and can leave an
  access that does not serve it (`Controller.SwitchDoesStrand`, `SwitchServesExactly`). So can a
  migration whose client authenticated before it switched (`MigrationDoesStrand`,
  `MigrationServesExactly`).
- Advancing the reorder receiver's epoch leaves stale packets buffered (`Reorder.StaleCanBeDelivered`,
  `StaleExactly`), and the largest window takes nothing (`LargestWindowTakesNothing`,
  `NextIsTakenExactly`).
- Undoing a failed route change can drop a foreign route (`Routes.UndoCanDropForeignRoute`,
  `RestoredExactly`).
- An IPv4-mapped prefix of 96 bits or more walks past the address bits in `AddPrefix`
  (`Rib.MappedPrefixOverruns`, `AnswerIs`); the code indexes out of range there.
- From a gated path, `Decide` can settle on a bound that is not a number and miss a good path
  (`Decider.GoodPathCanBeHidden`, `ClearingPathFoundExactly`).
- A failed IPsec `Add` frees its name before it rolls back, and the rollback can unload the secret of
  an add of the same name (`IpsecSecrets.ReAddCanLoseItsSecret`, `StartSafeExactly`).
- A Promote whose withdrawal fails leaves a peer that carries the routes and can be removed
  (`IpsecClient.CarrierKeptExactly`).
- `Direction` has 256 values and one bit on the wire (`Wire.DecodeEncode`).

`FileStore.CompareAndSwap` (internal/controller/filestore.go, lines 98 to 104) can commit and
still report an error; `SetIfNewer` has an event for it.

For fewer than five observations `p2Quantile.Value` is documented to interpolate
(internal/measurement/p2quantile.go, lines 107 to 111); it picks an observation, and so does the
model.

An apply forgets what it could not remove from the gateway's host, and no later one looks for it.
`GatewayApply.Agent.Apply` says what can stay behind, and exactly what does when nothing fails.

## Model

| member | source | states |
|---|---|---|
| Store.PutIsFresh | internal/control/store.go:46-54 | a write stores the value under a revision no key has had before, and touches no other key |
| Store.MemStore.Put | internal/control/store.go:46-54 | the store becomes the old one with that write |
| Store.MemStore.Get | internal/control/store.go:56-64 | returns the stored value, or none |
| Store.MemStore.Revision | internal/control/store.go:117-125 | returns the entry's revision, or 0 and not found |
| Store.MemStore.CompareAndSwap | internal/control/store.go:127-145 | writes exactly when the revision is the expected one (0 for a missing key), and otherwise changes nothing |
| SetIfNewer.ReturnIsAtomic | internal/control/ownership_service.go:89-123 | in every interleaving of any number of callers, split at Revision, Get and CompareAndSwap, a call that returns has exactly the effect of an atomic "write if newer" at that step |
| SetIfNewer.CommitRaisesEpoch | internal/control/ownership_service.go:89-123 | every commit, however it is reported, strictly raises its session's stored epoch and leaves every other session alone |
| SetIfNewer.AppliedAtMostOnce | internal/control/ownership_service.go:89-123 | each (session, epoch) is committed at most once, its record is unique, and at most one call reports having applied it |
| SetIfNewer.StoreIsLedger | internal/control/ownership_service.go:67-124 | in every reachable state the stored record of a session is the newest one ever committed |
| SetIfNewer.EpochsNeverDrop | internal/control/ownership_service.go:67-124 | over the rest of any run the history only grows and no stored epoch drops |
| SetIfNewer.FailedSwapMeansRaised | internal/control/ownership_service.go:109-122 | a swap that fails means the session's epoch has risen since the call read the revision |
| SetIfNewer.SwapCommitsExactly | internal/control/ownership_service.go:109-122 | in every run a swap commits its record exactly when the epoch stored is still the one stored when the call read the revision; otherwise the call starts over and nothing changes |
| SetIfNewer.ErrorMeansFailure | internal/control/ownership_service.go:67-124 | in every run a call ends in an error only by an invalid record, a failing access, or a swap whose save fails |
| SetIfNewer.FailureEnds | internal/control/ownership_service.go:89-123 | in every run a failing access ends its call, unless that has returned, and changes nothing else |
| SetIfNewer.OthersLeaveSessions | internal/control/store.go:46-54 | in every run writers of other keys leave every session's record alone |
| SetIfNewer.UndisturbedSets | internal/control/ownership_service.go:89-123 | after any run, a valid record's call that nobody disturbs and no access fails returns, having written exactly when the record is newer than the stored one; the session then holds it, and every other what it held |
| SetIfNewer.AttemptsBounded | internal/control/ownership_service.go:89-123 | under every schedule a call swaps at most `rec.epoch + 1` times, so the retry loop ends |
| SetIfNewer.OwnershipService.SetIfNewer | internal/control/ownership_service.go:67-124 | the loop itself, with other writers acting before every store access: what it returns is true of the store, it reports an error exactly when an access failed, and the attempts are bounded |
| SetIfNewer.OwnershipService.Get | internal/control/ownership_service.go:13-23 | returns what the store holds for the session, or that the access failed, exactly when it did |
| Failover.CachesTrackStore | internal/control/cache.go:37-66 | for any number of controllers over one store: a cached global epoch never exceeds the stored one; with no local failovers the cache holds exactly the record committed at that epoch, otherwise it differs in the egress only |
| Failover.GlobalNeverDrops | internal/control/cache.go:37-66 | no cached global epoch ever drops |
| Failover.OneProposalWins | internal/control/failover.go:72-102 | of all controllers that propose from one epoch of a session at most one commits, counting commits that were reported as errors |
| Failover.WinRaisesByOne | internal/control/failover.go:40-102 | a proposal that commits, reported as such or as an error, raises the stored epoch by exactly one |
| Failover.PairDropsExactly | internal/control/cache.go:8-45 | the pair (global, local) drops on a refresh exactly when the cache failed over and the store has not moved since |
| Failover.PairCanDrop | internal/control/cache.go:8-45 | a concrete failover and refresh that takes the pair from (1, 1) back to (1, 0) |
| Failover.FailoverController.Refresh | internal/control/failover.go:20-30 | the cache takes on the stored record, if there is one; a failed access changes nothing |
| Failover.FailoverController.AttemptPlannedMigration | internal/control/failover.go:40-58 | applied: the store took the next epoch's record and it is cached; refused: the store is at that epoch or beyond, and the cache took on what it holds unless that read failed; deferred or not cached: nothing changed |
| Failover.FailoverController.EmergencyFailover | internal/control/failover.go:60-70 | gives the cached record the new egress and counts one local failover; session, access and epoch stay, and so does every other entry |
| Failover.FailoverController.Reconcile | internal/control/failover.go:72-102 | a newer stored record is cached; otherwise nothing happens without local failovers, and with them the failed-over record is proposed, with the same three answers |
| FailoverRequests.WinIsWhatWasAsked | internal/control/failover.go:40-102 | in every run a proposal that commits, reported as such or not, writes the egress asked for: the one a planned migration names, or for Reconcile the one the controller's last emergency failover of the session named; the access stays and the epoch rises by one |
| FailoverRequests.RefreshCaches | internal/control/failover.go:20-30 | after any run, an undisturbed refresh caches what is stored |
| FailoverRequests.PlannedMigrationMoves | internal/control/failover.go:40-58 | after any run, an undisturbed planned migration from a current cache moves the session to the egress named, in the store and in the cache |
| FailoverRequests.FailoverReconciles | internal/control/failover.go:60-102 | after any run, an emergency failover from a current cache and an undisturbed Reconcile do the same |
| FailoverRequests.ReconcileCatchesUp | internal/control/failover.go:76-86 | after any run, an undisturbed Reconcile of a cache behind the store caches what is stored |
| FailoverRequests.RefusalCatchesUp | internal/control/failover.go:46-57 | after any run, a proposal the store has moved past is refused, and the controller caches what is stored |
| FailoverRequests.RefusalKeeps | internal/control/failover.go:46-57 | or, if it cannot read that, keeps what it has |
| FailoverRequests.WritesExactly | internal/control/failover.go:40-102 | in every run an action of a controller writes the store exactly when it is a proposal that commits, and then what was proposed |
| FailoverRequests.OthersAct | internal/control/failover.go:16-18 | a controller joins with an empty cache, and other writers write what is newer than what is stored |
| Handoff.StandbyArmer.Prepare | internal/handoff/armer.go:70-98 | arms exactly when the state is valid, is the session's and no higher epoch is armed; preparing again for a ready epoch keeps it ready |
| Handoff.StandbyArmer.MarkReady | internal/handoff/armer.go:100-114 | marks exactly the arm prepared for that epoch |
| Handoff.StandbyArmer.ConsumeReady | internal/handoff/armer.go:116-125 | hands out and removes the arm exactly when it is ready for that epoch |
| Handoff.StandbyArmer.Reset | internal/handoff/armer.go:127-131 | removes the session's arm and no other |
| Handoff.CutoverCommitsOnCurrent | internal/handoff/cutover.go:37-68 | in every run a cutover's write, reported as done or as an error, commits exactly when it takes effect and the store still holds the record the cutover read; then it changes the access only and raises the epoch by exactly one, and otherwise the store stays |
| Handoff.CutoverConsumedReadyArm | internal/handoff/cutover.go:37-68 | every cutover past consuming, however its write ended, consumed an arm marked ready for the session and epoch it writes, and no arm has two consumers; what it committed, reported or not, is in the history |
| Handoff.UndisturbedCutsOver | internal/handoff/cutover.go:37-68 | after any run, a standby prepared for what follows the stored record and marked ready lets an undisturbed cutover move the session: new access, same egress, next epoch, and the state the standby was prepared with |
| Handoff.ArmsStand | internal/handoff/armer.go:70-131 | in every run a standing arm has a valid state of its session, and its target only rises until it is consumed or reset |
| Handoff.ConsumesExactly | internal/handoff/cutover.go:37-47 | in every run a cutover consumes exactly if an arm ready for its epoch stands, and is told so otherwise; it then has that arm's state, and the arm is gone |
| Handoff.OvertakenLoses | internal/handoff/cutover.go:48-60 | in every run a write another writer overtook is lost, and leaves what that one stored |
| Handoff.ReadyArmWasPrepared | internal/handoff/armer.go:70-131 | an arm is marked ready only while it stands prepared for that epoch |
| Handoff.CutoverController.Cutover | internal/handoff/cutover.go:37-68 | the code path over a live armer and store: not ready exactly when no matching arm stands, and then nothing changes; superseded: the store is at the epoch or beyond; an invalid record fails without touching the store; done: the record was committed and the result reports it; failed: the record is invalid or a store access failed |
| SessionId.FormatDenotes | internal/controller/server.go:606-617 | the decimal text of a number parses back to it and is canonical |
| SessionId.FormatOfValue | internal/gateway/agent.go:284-300 | formatting the value of a canonical text gives that text back |
| SessionId.RoundTrip | internal/gateway/agent.go:284-300 | on the IDs the controller makes, parsing and formatting undo each other both ways |
| Fencing.EpochGate.Update | internal/control/epochgate.go:14-20 | a session's known epoch becomes the greater of the two; no other changes |
| Fencing.EpochGate.Admit | internal/control/epochgate.go:22-30 | admits unknown sessions and epochs at least the known one |
| Fencing.EpochGate.AdmitAndAdvance | internal/control/epochgate.go:32-43 | admits as Admit and then knows the epoch it admitted |
| Fencing.GatewayFence.Apply | internal/gateway/agent.go:520-524 | every session of the plan raises the gate, and the fence map matches the gate afterwards |
| Fencing.GatewayFence.UpdateFence | internal/gateway/agent.go:284-300 | the published map holds, for each numeric session, the gate's epoch |
| Fencing.GatewayFence.Admit | internal/gateway/agent.go:271-278 | the packet path decides by the published map alone; session 0 is never fenced |
| Fencing.FenceDecidesExactly | internal/gateway/agent.go:282-300 | whichever map a rebuild leaves, it decides every packet of a session number as the gate would, exactly when all IDs of that number have the epoch of its canonical one |
| Fencing.FenceDecidesAsGate | internal/gateway/agent.go:271-300 | so with the IDs the controller makes the fence map decides every packet as the gate would |
| Fencing.FenceNeedsCanonicalIds | internal/gateway/agent.go:284-300 | with the ID "07" it need not |
| Fencing.NobodyAheadOfStore | internal/gateway/agent.go:520-524 | over every run of commits, polls assembled piecemeal and delivered late or repeatedly, applies, adopts and packets, no gateway, client or packet is ahead of the store |
| Fencing.FenceIsGate | internal/gateway/agent.go:271-300 | in every run, gate updates and map publication being separate steps, every gateway's map decides as its gate did at publication, which is never ahead of the gate |
| Fencing.GateNeverDrops | internal/control/epochgate.go:14-20 | neither a gate nor what is published of it ever drops |
| Fencing.PollReads | internal/controller/server.go:555-594 | in every run a poll of a session gives its stored epoch, which a new client starts with |
| Fencing.GatewayLearns | internal/gateway/agent.go:520-524 | in every run a gateway told an epoch knows the greater of it and its own |
| Fencing.GatewayPublishes | internal/gateway/agent.go:284-300 | in every run what a gateway publishes is what it knows |
| Fencing.ClientFollows | internal/client/agent.go:459-494 | in every run a client takes on the epoch of a state it adopts unless its own is higher, and stamps its own, cut to 32 bits, on what it sends |
| Fencing.NeverAdmitsOlder | internal/gateway/agent.go:271-300 | a gateway that published epoch e never again admits a packet stamped below e, however late it arrives |
| Fencing.CurrentStampPassesExactly | internal/client/agent.go:459-494 | a packet stamped at the stored epoch passes a gateway exactly when the epoch fits the header's 32 bits, or the gateway has published nothing of the session above what is left of it |
| Fencing.LargeEpochIsDropped | internal/gateway/agent.go:271-278 | a run in which a session reaches epoch 2^32, is published and sends: its only packet is current, stamped 0 and dropped |
| Polls.PollReflectsItsVersion | internal/controller/server.go:555-594 | a poll result with version v reflects, for each key read after the version, every completed write whose bump gave a version at most v |
| Polls.UnchangedVersionMeansCurrent | internal/controller/server.go:529-594 | while the version stands and no write is in progress, what was read equals the store, exactly for the keys without a silent write since |
| Polls.EarlyReadReflectsItsTime | internal/controller/server.go:292-307 | a key read before the version reflects what was done when it was read |
| Polls.ReflectsExactly | internal/controller/server.go:529-594 | read early or late, an entry reflects its poll's version exactly when no announced write of its key was stored between the two reads |
| Polls.EarlyReadCanMissItsVersion | internal/controller/server.go:789-823 | so a client poll, whose own existing record is read while authenticating and then rewritten, can return a version and miss a write of that version |
| Polls.SilentWriteIsMissed | internal/controller/server.go:761-787 | a rewrite that fails half-way is not announced: version, idle server and stale poll at once |
| Controller.Allocate | internal/controller/server.go:425-433 | the lowest free address that is neither of the first two nor the last, or failure exactly when there is none |
| Controller.LowestFreeUnique | internal/controller/server.go:425-433 | that determines the answer |
| Controller.PickPath | internal/controller/server.go:622-653 | the egress asked for or the first live one; the same gateway as access if it can serve the backend, else the first live one that can; each failure exactly when nothing fits |
| Controller.ChosenServes | internal/controller/server.go:622-653 | a chosen access can serve the backend |
| Controller.AddressesDistinct | internal/controller/server.go:437-495 | over every run of registering, opening, switching and migrating, with store writes that fail before or after taking effect, virtual and node IPs are pairwise distinct, also from each other when the subnets are disjoint, in their subnets, never the first two or the last address |
| Controller.AddressesNeverChange | internal/controller/server.go:655-787 | and never change |
| Controller.MigrationCommitsExactly | internal/controller/server.go:825-897 | a migration commits exactly when the store still holds the record it started from and the write takes effect, reported or not; then the epoch rises by exactly one; it is announced exactly when it commits without an error; otherwise nothing changes |
| Controller.SwitchCommitsExactly | internal/controller/server.go:761-787 | a switch that must move the session commits its move in the same cases, raising the epoch by exactly one, keeping the egress, to an access that serves the backend; otherwise the record stays |
| Controller.SwitchServesExactly | internal/controller/server.go:761-787 | a switch that recorded the backend leaves an access that serves it exactly when its move committed or the record that stands serves it anyway |
| Controller.SwitchCanStrand | internal/controller/server.go:772-779 | overtaken by a move of another process to an access that cannot serve the backend, it leaves a session that is not served |
| Controller.SwitchDoesStrand | internal/controller/server.go:761-787 | a run from an empty store in which that happens |
| Controller.MigrationServesExactly | internal/controller/server.go:843-889 | a migration that commits leaves a session whose access serves its recorded backend exactly when that is WireGuard or the new access takes IPsec; one that does not commit leaves it as it was |
| Controller.MigrationDoesStrand | internal/controller/server.go:843-851 | a run in which a client authenticates, switches to IPsec, and then migrates with the backend read before to an access that cannot serve it |
| ControllerRequests.MigrateRecordsExactly | internal/controller/server.go:843-896 | in every run with nothing pending, an undisturbed migration gives the session the access and egress asked for at the next epoch, exactly when the client and its record at that epoch stand, the access takes the backend and the egress is registered; otherwise nothing changes |
| ControllerRequests.OpenRecordsExactly | internal/controller/server.go:703-748 | in every run with nothing pending, an open that can be served records the path at epoch 1 and then, unless that failed, the client; it is announced if both worked; otherwise nothing changes |
| ControllerRequests.RegisterRecordsExactly | internal/controller/server.go:437-495 | an undisturbed registration records the gateway as it describes itself, with its own address or the lowest free one, and has it seen; the version moves exactly when that changes something |
| ControllerRequests.RegisterFails | internal/controller/server.go:437-495 | a registration whose write fails changes the record if it took effect, and nothing else |
| ControllerRequests.AliveFollows | internal/controller/server.go:183-212 | a report has a registered gateway seen, a sweep has it no longer, and the version moves exactly when that changes something |
| ControllerRequests.SwitchRecordsExactly | internal/controller/server.go:761-787 | in every run with nothing pending, an undisturbed switch moves the session to the path's access, with its egress and the next epoch, exactly when its own access does not take the backend and the path's does; then, unless that failed, it records the backend, and announces it if that worked |
| Controller.OpenKeepsOthersExactly | internal/controller/server.go:719-756 | opening a session leaves every other session's record alone exactly when its random ID is new |
| Routes.RouteSet.Apply | internal/ipsec/routes.go:30-76 | for every pattern of failures: when a replace fails and the undo works, the kernel holds what undoing gives and the tracked set is unchanged; otherwise every wanted route is in place and the tracked set is exactly our routes still in the kernel, failed withdrawals and duplicates included; it reports success exactly when no call failed, and an undone change exactly for one failed call |
| Routes.RouteSet.Clear | internal/ipsec/routes.go:78-80 | withdraws everything tracked; what is left tracked is what could not be withdrawn; success exactly when no call failed |
| Routes.RouteSet.Undo | internal/ipsec/routes.go:40-51 | puts back our previous route at each destination, or removes it |
| Routes.RouteSet.Withdraw | internal/ipsec/routes.go:57-75 | removes what is tracked and no longer wanted, and tracks what could not be removed |
| Routes.RestoredExactly | internal/ipsec/routes.go:40-51 | undoing restores the kernel exactly when each changed destination held our own route, or none |
| Routes.UndoCanDropForeignRoute | internal/ipsec/routes.go:40-51 | otherwise a foreign route at a wanted destination is lost |
| Routes.WantedKeys | internal/ipsec/routes.go:57-60 | exactly the wanted destinations, each with a route that wants it |
| Routes.LastDuplicateCounts | internal/ipsec/routes.go:57-60 | of duplicate destinations the last counts |
| Reorder.Receiver.Receive | internal/reorder/receiver.go:72-108 | drops when closed, for a stale epoch, a duplicate or outside the window, in that order; else delivers the gap-free run that became ready |
| Reorder.Receiver.AdvanceEpoch | internal/reorder/receiver.go:64-70 | the epoch only rises; the buffer is untouched |
| Reorder.Receiver.Close | internal/reorder/receiver.go:131-155 | hands the buffered packets back in ascending order, once |
| Reorder.ReadyUnique | internal/reorder/receiver.go:95-108 | the packets delivered are the only gap-free run from the next number on |
| Reorder.DeliveredInOrder | internal/reorder/receiver.go:72-108 | over every run the delivered packets carry seed + 1, seed + 2, ... without gap or repetition |
| Reorder.EachAcceptedOnce | internal/reorder/receiver.go:64-155 | every accepted packet is in exactly one of delivered, buffered or handed back by Close |
| Reorder.BufferBounded | internal/reorder/receiver.go:72-108 | at most WindowSize packets are buffered |
| Reorder.DeliveredAsAccepted | internal/reorder/receiver.go:72-108 | over every run, the packet accepted under a number is the one delivered under it |
| Reorder.DeliveredWasAccepted | internal/reorder/receiver.go:72-108 | every packet taken in was accepted at some event |
| Reorder.StaleExactly | internal/reorder/receiver.go:64-108 | over every run, a delivered packet is below the epoch then current exactly when an advance past its epoch came between its acceptance and its delivery |
| Reorder.StaleCanBeDelivered | internal/reorder/receiver.go:64-108 | a packet below the current epoch that was buffered earlier is delivered |
| Reorder.LargestWindowTakesNothing | internal/reorder/receiver.go:72-93 | with the largest window the bound wraps to 0 and every packet is dropped |
| Reorder.NextIsTakenExactly | internal/reorder/receiver.go:72-108 | in every run, while open, the packet next in order and not below the epoch is taken and delivered at once exactly when the window is not the largest |
| Reorder.VerdictExactly | internal/reorder/receiver.go:72-94 | in every run, which packets are accepted and why others are dropped, in terms of the events so far, the numbers accepted and how many were delivered |
| Rib.RIB.AddPrefix | internal/measurement/rib.go:52-73 | the pointer trie takes in exactly the masked prefix; invalid prefixes are refused, and a walk past the address bits is reported |
| Rib.RIB.LoadPrefixes | internal/measurement/rib.go:75-85 | adds in order up to the first failure, and says how many were added |
| Rib.RIB.Lookup | internal/measurement/rib.go:87-112 | the longest installed prefix along the address, or none |
| Rib.LookupIsLongestLoaded | internal/measurement/rib.go:87-112 | in terms of the list loaded: the answer is one of its prefixes, masked, contains the address, and no longer one does; there is none exactly when none contains it |
| Rib.LoadedExactly | internal/measurement/rib.go:52-85 | a family holds exactly the masked prefixes of that family in the list |
| Rib.OrderDoesNotMatter | internal/measurement/rib.go:75-85 | lists with the same prefixes build the same base |
| Rib.PlaceDeterminesPrefix | internal/measurement/rib.go:52-73 | one node never stands for two prefixes |
| Rib.CoversExactly | internal/measurement/rib.go:52-105 | a prefix covers an address of its family exactly when the address, an IPv4 one also behind the mapped prefix, begins with the prefix's bits |
| Rib.MaskedExactly | internal/measurement/rib.go:33-44 | masking keeps the first bits and clears the rest |
| Rib.Is4In6Exactly | internal/measurement/rib.go:33-44 | the addresses treated as IPv4 inside IPv6 are those behind 80 zeros and 16 ones |
| Rib.AnswerIs | internal/measurement/rib.go:33-73 | a walk runs past its bits exactly for prefixes that masking leaves inside the IPv4-mapped range |
| Rib.MappedIsLong | internal/measurement/rib.go:33-44 | those are at least 96 bits long |
| Rib.MappedPrefixOverruns | internal/measurement/rib.go:52-73 | every IPv4-mapped address with a length of 96 or more is such a prefix |
| P2Quantile.Estimator.Observe | internal/measurement/p2quantile.go:31-57 | for every stream: positions stay strictly increasing whole numbers from 1 to the count, heights sorted with the exact minimum and maximum at the ends, desired positions at 1 + (count - 1) times their increment |
| P2Quantile.Estimator.Value | internal/measurement/p2quantile.go:112-123 | 0 for no observations; for fewer than five the observation of the quantile's rank; then the height of the middle marker, whose desired position is the quantile's and which starts as the third smallest of five; always between the least and the greatest observation |
| P2Quantile.RankInRange | internal/measurement/p2quantile.go:117-121 | the rank used for fewer than five is the greatest that has at most the quantile's share of the others below it |
| P2Quantile.MiddleMarker | internal/measurement/p2quantile.go:122 | the middle marker's desired position is the quantile's |
| P2Quantile.Estimator.Seed | internal/measurement/p2quantile.go:36-43 | the markers become the first five observations in order |
| P2Quantile.Estimator.FindCell | internal/measurement/p2quantile.go:61-77 | the interval an observation falls into, with the outer heights widened first |
| P2Quantile.CellHolds | internal/measurement/p2quantile.go:61-77 | that interval holds the observation, and only the outer heights widen |
| P2Quantile.ShiftsExactly | internal/measurement/p2quantile.go:47-53 | so the markers that move up are the last and the inner ones above the observation, and every desired position grows by its share |
| P2Quantile.Estimator.MaybeAdjust | internal/measurement/p2quantile.go:82-89 | moves a marker one step exactly when it is a whole step off and has room |
| P2Quantile.AdjustedExactly | internal/measurement/p2quantile.go:82-105 | a marker moves one step towards its desired position exactly if it is a whole step away and stays clear of its neighbour; its height is then the parabola's if strictly between the neighbours', else the line's |
| P2Quantile.ObservedIs | internal/measurement/p2quantile.go:47-57 | an observation shifts the markers and then adjusts the three inner ones in turn |
| P2Quantile.Estimator.Move | internal/measurement/p2quantile.go:95-105 | the parabolic height if it lies strictly between the neighbours, else the linear one |
| P2Quantile.ObservedTracks | internal/measurement/p2quantile.go:47-57 | one more observation keeps all of the above |
| P2Quantile.MovedBetween | internal/measurement/p2quantile.go:95-105 | a moved marker stays between its neighbours in position and height, by either formula |
| P2Quantile.ParabolicInterpolates | internal/measurement/p2quantile.go:95-97 | the formula is the parabola through the three markers, moved by d: on any three points of a parabola it gives that parabola's height |
| P2Quantile.LinearBetween | internal/measurement/p2quantile.go:100-103 | the linear formula does not leave the two heights |
| P2Quantile.SeededTracks | internal/measurement/p2quantile.go:36-43 | the first five observations establish the invariant |
| FlapGuard.ApprovedExactly | internal/measurement/flapguard.go:57-86 | with times that never go back, a tick is approved exactly when an unbroken run of ticks qualifying its candidate, begun after the previous approval, spans the confirmation window up to it, and the path has been in use for the residence and, after a migration, the cooldown |
| FlapGuard.ApprovalsApart | internal/measurement/flapguard.go:71-85 | any two approvals, n apart, are at least n residences and n cooldowns apart in time |
| FlapGuard.ApprovalsBounded | internal/measurement/flapguard.go:71-85 | until a given time the approvals times the residence fit into the time passed |
| FlapGuard.Guard.Evaluate | internal/measurement/flapguard.go:57-86 | the fields follow the run of ticks; what is approved is justified, even with times that go back |
| Cost.SegmentKinds | internal/measurement/decide.go:105-136 | a segment's bounds are finite and enclose its cost, or have an infinite end, or are both not a number, and which of these follows from its statistics |
| Cost.PlainCost | internal/measurement/cost.go:39-55 | without loss and tail a segment costs its median |
| Cost.TailCost | internal/measurement/cost.go:39-48 | a tail costs its weight for every microsecond above the median |
| Cost.LossCosts | internal/measurement/cost.go:50-55 | more loss costs strictly more, up to infinity at 1, and none costs nothing |
| Cost.MedianCostsExactly | internal/measurement/cost.go:39-48 | a higher median with the same 95th percentile is never cheaper exactly when the tail is weighted by at most 1 |
| Cost.UncertaintyShows | internal/measurement/decide.go:105-136 | where latencies vary, sound bounds leave room on both sides of the cost |
| Cost.PathKinds | internal/measurement/decide.go:144-161 | a path's bounds likewise: unbounded if some segment is, else not a number if some segment is, else finite and enclosing |
| Cost.AggregateBounds | internal/measurement/decide.go:144-161 | the loop computes those bounds |
| Cost.ScorePath | internal/measurement/cost.go:104-116 | capacity gate before loss gate, the first gated segment reported, infinite cost when gated |
| Cost.SegmentsGated | internal/measurement/cost.go:179-186 | whether some segment is at or over the loss gate |
| Cost.DifferingCost | internal/measurement/cost.go:168-177 | the sum of the costs, infinite when a segment is gated |
| Cost.ValidateDifferential | internal/measurement/cost.go:141-164 | the five refusals in order, and the differing prefixes |
| Cost.PathDifferential | internal/measurement/cost.go:130-136 | the difference of the prefixes' costs |
| Cost.SuffixCancelsExactly | internal/measurement/cost.go:118-136 | leaving a shared suffix out changes nothing exactly when the suffix costs finitely much or both prefixes cost infinitely much |
| Cost.DecideMigration | internal/measurement/decide.go:53-80 | the refusals, the estimate and the threshold |
| Cost.ApprovedExactly | internal/measurement/decide.go:53-80 | a migration is approved exactly when the candidate is ungated and measured, and the current path is gated, or measured and worse by more than the threshold at the pessimistic ends |
| Cost.ApprovedGains | internal/measurement/decide.go:53-80 | then upper >= point >= lower > threshold |
| Decider.Cheapest | internal/client/decide.go:94-107 | the first of the cheapest reachable ungated paths accepted, or none exactly when there is none |
| Decider.Surest | internal/client/decide.go:161-180 | the running best: the first of the greatest lower bounds, or the first path compared if its bound is not a number |
| Decider.SurestUnique | internal/client/decide.go:161-180 | that determines it |
| Decider.ComparedExactly | internal/client/decide.go:110-197 | the paths compared are the reachable ones to the current egress through another access, and none if no capacity may be used |
| Decider.SurestClearsExactly | internal/client/decide.go:161-188 | the path settled on clears the threshold exactly when some path does and the first bound is a number |
| Decider.ClearingPathFoundExactly | internal/client/decide.go:161-188 | so a clearing path is found whenever there is one, except exactly when the current path is gated and the first path compared is not measured |
| Decider.NotANumberExactly | internal/client/decide.go:161-180 | when a lower bound is not a number |
| Decider.GoodPathCanBeHidden | internal/client/decide.go:176-178 | from a gated path, a gated path listed first hides a good one |
| Decider.PathDecider.Decide | internal/client/decide.go:110-197 | the egress changes exactly when the current path is dead, no usable path to that egress is left and there is one to another. A dead path: the cheapest alternative, else another egress, else nothing, with the flap guard untouched; a live one: one tick of the flap guard, qualifying exactly when the surest path clears the threshold, and a move exactly when the guard approves. A move is always to a reachable path other than the current one |
| Decider.PathDecider.ShouldCutover | internal/handoff/deadgateway.go:12-17 | a dead gateway bypasses the guard |
| Decider.PathDecider.Reset | internal/client/decide.go:86 | the guard starts over |
| GatewayPlan.MakePlan | internal/gateway/plan.go:97-151 | the two loops compute the fold of the sessions over the other gateways' tunnels |
| GatewayPlan.RoutedExactly | internal/gateway/plan.go:133-148 | when a session's traffic is forwarded, when it is returned, and where to |
| GatewayPlan.PeersExactly | internal/gateway/plan.go:124-149 | the peers are exactly the public keys of the WireGuard sessions, at a gateway that takes clients, and none elsewhere |
| GatewayPlan.PeerAddress | internal/gateway/plan.go:124-149 | each with the address of the last session of that key |
| GatewayPlan.EpochsExactly | internal/gateway/plan.go:124-149 | epochs and paths are there for exactly the sessions of the state, wherever they lead |
| GatewayPlan.LastSessionCounts | internal/gateway/plan.go:124-149 | each that of the last session of the ID |
| GatewayPlan.LastGatewayCounts | internal/gateway/plan.go:108-122 | a backbone has the key and node IP of the last gateway of its ID |
| GatewayPlan.CountsExactly | internal/gateway/plan.go:127-132 | the access and egress counts are the numbers of sessions that come in and leave here |
| GatewayPlan.IpsecExactly | internal/gateway/plan.go:133-139 | the IPsec clients are exactly the IPsec sessions, at a gateway that takes clients, and the addresses here those of the ones that come in here |
| GatewayPlan.OnlySessions | internal/gateway/plan.go:124-149 | an address no session has is neither |
| GatewayPlan.HopsAreBackbones | internal/gateway/plan.go:108-148 | traffic is only sent over backbones the plan has |
| GatewayPlan.OneHop | internal/gateway/plan.go:97-151 | in the plans of one state a session's traffic, from whichever access gateway, is at its egress after at most one hop and goes no further; return traffic likewise at its access |
| GatewayPlan.AccessChangeMovesReturnOnly | internal/gateway/plan.go:97-151 | changing a session's access changes no gateway's peers, backbones or forwarding; the return route changes only at the egress, and only its own |
| GatewayApply.Agent.Apply | internal/gateway/agent.go:468-600 | whatever fails, what is tracked is on the host, and what else is there was untracked before or was to be removed; with no error, what is tracked is the plan, and what else is there is exactly what was untracked before, short of what the plan uses and of routes through closed backbones; an error exactly when a call failed or a wanted key does not decode |
| GatewayApply.Agent.SyncBackbones | internal/gateway/agent.go:477-488 | closes what is not wanted, with the routes through it, and opens what is missing |
| GatewayApply.Agent.SyncPeers | internal/gateway/agent.go:493-518 | peers, including keys that do not decode, and the peers that can stay behind |
| GatewayApply.Agent.SyncForward | internal/gateway/agent.go:527-553 | one rule per forwarded virtual IP, to its egress's table, and the rules that can stay behind |
| GatewayApply.Agent.SyncReturn | internal/gateway/agent.go:566-591 | one route per returned virtual IP, to its access's device, and the routes that can stay behind |
| GatewayApply.Agent.IndexOf | internal/gateway/agent.go:449-466 | every gateway keeps a number of its own |
| GatewayApply.Agent.Reconfigure | internal/gateway/agent.go:190 | from bookkeeping that matches the host, an error-free apply of a reported state makes peers, rules and return routes exactly the plan's |
| Bypass.BypassRoutes.AcquireBypass | internal/ipsec/client.go:359-379 | counts one more user, or installs the route and owns it exactly if it was not there |
| Bypass.BypassRoutes.ReleaseBypass | internal/ipsec/client.go:381-397 | counts one fewer, and deletes the route only with its last user and only if owned |
| Bypass.AcquireCounts | internal/ipsec/client.go:359-379 | acquiring keeps the counts those of the users |
| Bypass.AcquireExactly | internal/ipsec/client.go:357-397 | acquiring a route in use always works, another one exactly if a route can be copied and installed |
| Bypass.ReleaseCounts | internal/ipsec/client.go:381-397 | releasing keeps them |
| Bypass.NobodyLeft | internal/ipsec/client.go:381-397 | with no users left the kernel is as it was |
| Bypass.ForeignKept | internal/ipsec/client.go:355-397 | a route that was there before is never deleted |
| IpsecClient.NewRing | internal/ipsec/client.go:197-207 | a new client holds every controller's route, or gives all back when one cannot be had |
| IpsecClient.NothingWithoutAJob | internal/ipsec/client.go:267-353 | over every run of adds that fail anywhere or are overtaken, removes, promotes and closes: an interface for exactly the if_ids of jobs that have theirs, and no secret, connection or association without a job |
| IpsecClient.FieldsExact | internal/ipsec/client.go:267-316 | the peers, pending names and if_ids in use are exactly those of the jobs that are up, in flight, and not rolling back |
| IpsecClient.BypassCounts | internal/ipsec/client.go:331-397 | in every run bypass counts are exactly the controllers and jobs that hold them, and no route that was there before is deleted |
| IpsecClient.AllReturned | internal/ipsec/client.go:666-697 | in every run, after Close and all adds in flight, everything is as before the client |
| IpsecClient.CarrierKeptExactly | internal/ipsec/client.go:486-538 | the peer that Promote moved the routes to cannot be removed exactly when the withdrawal worked too or it was active already |
| IpsecSecrets.ResourcesExact | internal/ipsec/client.go:337-345 | over every run in which no add starts while a failed add of its name with another if_id still has its secret loaded, secrets and connections are exactly those of the jobs that loaded them |
| IpsecSecrets.PeersComplete | internal/ipsec/client.go:293-302 | over those runs a peer has its interface, secret, connection and bypass route, its own |
| IpsecSecrets.StartSafeExactly | internal/ipsec/client.go:293-311 | from any such state, an add may start with every peer keeping its secret, whatever follows short of another add, exactly when no failed add of its name with another if_id still has its secret loaded |
| IpsecSecrets.OverlapCanCostASecret | internal/ipsec/client.go:293-311 | otherwise some continuation makes it a peer without a secret |
| IpsecSecrets.SerialIsDisciplined | internal/ipsec/client.go:267-316 | a caller who adds a gateway only when no other add of it is running keeps to that condition |
| IpsecSecrets.ReAddCanLoseItsSecret | internal/ipsec/client.go:267-316 | on a new client, an add that fails after loading its secret, repeated under another if_id before its rollback, can become a peer without a secret |
| IpsecRoundTrip.AddCompletes | internal/ipsec/client.go:267-316 | after any run, an undisturbed add of a free name and if_id makes a peer with its interface, bypass route, secret, connection and association, and changes nothing else |
| IpsecRoundTrip.AddThenRemove | internal/ipsec/client.go:267-353 | and removing it undisturbed gives back the client as it was |
| IpsecRoundTrip.AdvanceFailsExactly | internal/ipsec/client.go:267-316 | exactly when the next step of an add fails, and that it then rolls back with host and bypass routes as they are |
| IpsecRoundTrip.PromoteRoutes | internal/ipsec/client.go:486-538 | after any run, promoting a peer routes through its interface and, if the old routes are withdrawn, makes it the active one |
| IpsecClosing.CloseReturnsAll | internal/ipsec/client.go:666-697 | after any run, some continuation that begins with Close leaves the host as it was before the client |
| Wire.DecodeEncode | pkg/wire/header.go:116-156 | decoding what was encoded gives the header back exactly for the two directions there are |
| Wire.EncodeDecode | pkg/wire/header.go:116-156 | encoding what was decoded gives the bytes back exactly when the reserved bits are zero |
| Wire.Layout | pkg/wire/header.go:116-134 | version, kind, direction and a zero byte, then session, epoch and sequence number, big-endian |
| Wire.EncodeTo | pkg/wire/header.go:116-134 | writes the header in place and nothing else; fails exactly for a short buffer, untouched |
| Wire.SessionBind.Send | internal/tunnel/sessionbind.go:84-103 | each payload is carried behind a header that decodes to a data packet upstream of the session, at the current epoch, with the next sequence number |
| Wire.SessionBind.SetEpoch | internal/tunnel/sessionbind.go:36 | the epoch of later datagrams |
| Wire.Receive | internal/tunnel/sessionbind.go:50-82 | compaction in place equals a pure filter and strip of the batch, with the headers reported in order |
| Wire.CopyDown | internal/tunnel/sessionbind.go:74-76 | the overlapping copy within one buffer keeps the bytes |
| Wire.EqualBuffersHoldAll | internal/tunnel/sessionbind.go:74-78 | with buffers of one length every delivery is whole |
| Wire.ReceivedIsSent | internal/tunnel/sessionbind.go:50-103 | receiving what was sent delivers exactly the payloads whose headers are admitted, with the headers they were sent with |
| Wire.NumbersRiseExactly | internal/tunnel/sessionbind.go:87-94 | sequence numbers rise exactly until the counter wraps |

## Left out

- HTTP, JSON, tokens, hashing, key derivation and random ID generation: requests are event arguments and IDs fresh values.
- The etcd store, the branch of SetIfNewer for stores without compare-and-swap, and MemStore.Watch, which may drop events by design.
- Telemetry, logging, status files, commands and deployment scripts.
- Rounding and overflow of floating point; signed zero.
- Store revisions are unbounded (the code uses int64), and so is the failover cache's local counter.
- Timestamps kept for reporting only (arming time, cache age, link ages), and saturation of time differences.
- Backbone endpoints, ports, keepalives and probe targets; the contents of the per-egress routing tables.
- A WireGuard peer taking an allowed address over from another peer: the host's peers are a map from keys to addresses.
- The gateway's side of IPsec, and of the client Advance, FenceBelow and the waits.
- The evaluations of every path that a decision reports for metrics.
- Routes of more than one table; a route is a destination and the rest of it.
- Wire.Receive: starts from a batch the socket delivered; a socket error is passed through before any of this.
- Wire.SessionBind.Send: one sender at a time; the atomic counter would also give concurrent senders distinct numbers.
- The netem scenarios, egress observer, passive tracker, flow tables and probe plumbing.
- Controller.AddressesDistinct: is about one controller; two that share a store allocate under locks of their own, and from the same records pick the same address (`LowestFreeUnique`).
- Controller.AddressesNeverChange: is about one controller too.
- Controller handlers are value steps under the server's lock, not methods on its fields; what runs outside the lock is split into events.
- Handoff.CutoverCommitsOnCurrent: is about a `current` the caller read from the store, as every caller does.
- Cost.SegmentKinds: does not compare the bounds before clamping with the cost, because the code clamps them to it.
- Bypass.BypassRoutes.AcquireBypass: the route to copy is found or not by choice of the caller; which underlay route it is, is not modelled.
- IpsecClient.NothingWithoutAJob: cleanup calls succeed; a failed one would leave its resource behind.
- IpsecSecrets.ResourcesExact: is about runs without the overlapping adds that `StartSafeExactly` shows to be harmful.
- GatewayApply.Agent.Apply: needs gateway IDs that are not empty, which registration checks, because a missing map entry reads as the empty ID.
