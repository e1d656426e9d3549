# Fleet control, verified model

Dafny models of the drone fleet platform's state machines and proofs about them. The
modules follow the program's components.

**Provisioning over three stores.** `addresses.dfy` (address text and temporary names),
`wireguard.dfy` (the kernel peer table under cryptokey routing: an address has at most one
owning key), `devices.dfy` (the device table with its two unique columns, and the Redis map
`drone:ip_map`), `ippool.dfy` (allocator, statistics, matrix), `provisioning.dfy`
(registration and rotation as a saga). Every outside call may fail; failures are parameters,
so a theorem that does not mention them holds for every failure pattern. `identity.dfy`,
`saga.dfy`, `startup.dfy`, `interleaving.dfy` and `ownership.dfy` hold the theorems: runs of
table changes, sequential registrations, the two start loops, and registrations that
interleave at every await. `races.dfy` shows what is lost without the conditions of the
concurrent theorems.

**Telemetry ingestion.** `models.dfy`, `aggregator.dfy`, `filter.dfy`, `publisher.dfy`,
`resolver.dfy` and `pipeline.dfy` (the event loop and sweep that wire them);
`publisherruns.dfy` and `liveness.dfy` hold the theorems over whole runs, and `execution.dfy`
shows that the classes go through exactly those runs; `wiring.dfy` carries the modules' own
theorems into the pipeline. One monotone clock
in whole milliseconds; readings are real numbers; the ground distance is an arbitrary
function.

**Satellites.** `fleetcache.dfy` (cached fleet listing with one shared fetch), `relay.dfy`
(focus book-keeping of the MAVLink relay), `codec.dfy` and `socketclient.dfy` (JSON and the
bridge's Socket.IO packets), `video.dfy` (adaptive bitrate hysteresis).

Objects the source updates in place are classes. Their methods follow the source step by
step, and each method's postcondition gives the whole new state through a function on values;
the lemmas are about that function, and say from outside what it does. `dafny verify dfyconfig.toml` checks everything.

## Where the code falls short of what it suggests

Each of these is stated with the exact condition under which the code does what it suggests,
or with a family of inputs on which it fails.

- The start loops miss agreement for some peer order exactly when a row named after an
  unheld assigned address holds another assigned address (`Startup.StartupTheorem`).
- A failed rotation with working rollback commands restores the kernel exactly when the row
  was restorable, or had a placeholder key and no new peer was added (`Saga.RotationUndone`). After a start this fails for a manual peer with a
  second address: its rolled back rotation leaves that address to nobody
  (`Startup.SecondAddressLost`, `Startup.ManualPeerLosesAddress`). Agreement about the pool
  survives all the same (`Saga.RegistrationKeepsAgreement`, `Startup.StartThenCalls`). It
  would fail only for a real key without an address (`Saga.FailedRotationAgreement`), which no
  caller writes (`Identity.KeysStayAddressed`).
- Two runs that hold one address, such as two first registrations that read the table before
  either writes, can end with one success whose row does not own the address in the kernel.
  Ownership survives while unfinished runs hold different addresses
  (`Ownership.OwnershipTheorem`, `Races.SharedAddressBreaks`, `Races.RaceIsReachable`).
- Two rotations of one device at the same time, against which the source has no lock, can both
  succeed and leave a key in the kernel that is no row's (`Races.TwoRotationsLeaveStray`).
- The allocator overlooks revoked rows, the unique column does not: creation at the allocated
  address fails exactly when a revoked row still holds it (`IpPool.AllocationStorable`).
- The available count differs from the number of available cells exactly when a used address
  lies outside hosts 2 to 254 and the pool is not exhausted (`IpPool.StatsAgreeWithMatrix`).
- Published liveness differs from tracked liveness exactly after a frame that revives a drone
  and cannot be decoded (`Liveness.PublishedLivenessIsTracked`). What makes decodable revivals
  visible is the filter's two second limit, not its comparison of connected flags
  (`Liveness.ConnectedNeverCritical`).
- A relay socket that disconnects while its ownership check is waiting stays registered
  exactly when the check then succeeds, and keeps its drone focused
  (`Relay.StaysRegisteredIff`, `Relay.GhostHoldsFocus`).
- At shutdown the queues are drained but nothing is delivered, because the context is already
  cancelled (`Publisher.RedisPublisher.FlushRemaining`).

Where text and code disagree the code is modelled: `telemetry-ingestion-service/README.md:21`
speaks of five seconds of silence, the sweep uses ten (`cmd/server/main.go:125`); the field
comments of `filter.go:18-24` give larger thresholds than the constructor sets
(`filter.go:41-47`); `redis.go:155` promises a flush at fifty frames that does not exist; the
tier comments of `drone_stream_adaptive.sh:21-35` ask for no loss in tier 1, the code allows
three percent.

## Model

| member | source | states |
|---|---|---|
| Startup.StartupTheorem | drone-fleet-manager/src/provisioning/provisioning.service.ts:32-111 | A start without failures, from any kernel and table within the stated limits, ends in agreement for every order in which the kernel lists its peers, if and only if no row that carries the temporary name of an unheld assigned address holds another assigned address |
| Startup.StartReachesAgreement | drone-fleet-manager/src/provisioning/provisioning.service.ts:32-111 | Without such a row both loops end in agreement for every order of devices and peers: rows own their addresses, and every pool address of the kernel has a row |
| Startup.MisplacedBreaks | drone-fleet-manager/src/provisioning/provisioning.service.ts:86-102 | With such a row there is a peer order after which the kernel assigns a pool address that no row holds |
| Startup.RestoreEstablishes | drone-fleet-manager/src/provisioning/provisioning.service.ts:39-61 | After the first loop each active row with a real key owns exactly its address |
| Startup.RestoreKeepsOthers | drone-fleet-manager/src/provisioning/provisioning.service.ts:39-61 | The first loop takes no address from a key that it neither sets nor gives another owner |
| Startup.SyncKeepsProgress | drone-fleet-manager/src/provisioning/provisioning.service.ts:94-102 | One synchronised peer address gets a row with that key and disturbs no address already treated |
| Startup.AllocatorAvoidsKernel | drone-fleet-manager/src/ip-pool/ip-pool.service.ts:33-47 | In agreement the allocator never returns an address the kernel assigns |
| Startup.StartThenCalls | drone-fleet-manager/src/provisioning/provisioning.service.ts:32-237 | A start followed by any sequence of registrations with working rollback commands is in agreement, whatever other addresses manual peers have |
| Startup.SecondAddressLost | drone-fleet-manager/src/provisioning/provisioning.service.ts:200-232 | After any such start, the row that holds a peer's pool address has that peer's key, and a rolled back rotation of it leaves a second address of the peer to nobody |
| Startup.ManualPeerLosesAddress | drone-fleet-manager/src/provisioning/provisioning.service.ts:217-233 | Such a start exists: one manual peer, an empty table, a registration in which only the database write fails, and the peer's other address is gone |
| Startup.ScanStaysBehindPrefix | drone-fleet-manager/src/provisioning/provisioning.service.ts:92-102 | Whatever the kernel lists and whatever fails, every address in the table was there before or consists of digits and dots behind the configured prefix and is not the gateway's |
| Addresses.QuadIff | drone-fleet-manager/src/provisioning/provisioning.service.ts:94-94 | The well-formedness test accepts exactly four groups of one to three digits separated by dots |
| Addresses.TempDeviceIdText | drone-fleet-manager/src/device/device.service.ts:79-80 | A temporary name is the prefix DRONE-IP- and the address with dashes for dots |
| Startup.StartupService.OnModuleInit | drone-fleet-manager/src/provisioning/provisioning.service.ts:32-72 | Kernel and table after the start are those of the two loops, failures skipped one by one |
| Startup.StartupService.SyncKernelPeersToDatabase | drone-fleet-manager/src/provisioning/provisioning.service.ts:79-111 | The table after the scan is that of synchronising each pool address of the dump in order |
| Saga.FailureUndone | drone-fleet-manager/src/provisioning/provisioning.service.ts:116-237 | From agreement, a registration that throws while its rollback commands take effect never changes the table, and changes nothing at all if and only if the one row it rotated was recoverable: not yet touched in the kernel, or restorable, or with a placeholder key that gained nothing |
| Saga.FailedRotationAgreement | drone-fleet-manager/src/provisioning/provisioning.service.ts:190-233 | A rotation that fails after touching the kernel keeps agreement if and only if the row did not have a real key without an address; otherwise the rollback gives that key a pool address no row holds |
| Saga.RollbackLosesOthers | drone-fleet-manager/src/provisioning/provisioning.service.ts:200-232 | A rolled back rotation leaves the old key with exactly the row's address: any other address it owned is owned by nobody |
| Saga.RotationUndone | drone-fleet-manager/src/provisioning/provisioning.service.ts:190-233 | A rotation that fails after touching the kernel never changes the table, and restores the kernel if and only if the old key owned exactly the row's address (or a placeholder's address was unowned, or nothing was added) |
| Saga.RolledBackRestores | drone-fleet-manager/src/provisioning/provisioning.service.ts:200-232 | The rollback commands restore the kernel if and only if the old key owned exactly that address, or was a placeholder and the address was free or never taken |
| Saga.NewProvisioningUndone | drone-fleet-manager/src/provisioning/provisioning.service.ts:152-183 | A failed first registration leaves no trace |
| Saga.SuccessRegisters | drone-fleet-manager/src/provisioning/provisioning.service.ts:152-237 | A success response names the device's row, its address, its only key and its model; every other row is unchanged, a previous address is kept, and the address map learns it |
| Saga.TakeoverKeepsAgreement | drone-fleet-manager/src/provisioning/provisioning.service.ts:205-226 | Writing one row whose fresh key takes over its address keeps agreement, whether the old key was removed or not |
| Saga.RegistrationKeepsAgreement | drone-fleet-manager/src/provisioning/provisioning.service.ts:116-237 | A registration with working rollback commands keeps agreement whether it succeeds or fails; only the device's own row is asked to have an address for a real key |
| Saga.RegistrationKeepsRestorable | drone-fleet-manager/src/provisioning/provisioning.service.ts:116-237 | Once every row in use is restorable it stays so, and then a failed registration changes nothing at all |
| Saga.CallsKeepAgreement | drone-fleet-manager/src/provisioning/provisioning.service.ts:116-237 | Any sequence of registrations whose rollback commands work keeps agreement, and restorability of all rows where it held |
| Saga.CallsKeepAddresses | drone-fleet-manager/src/provisioning/provisioning.service.ts:194-226 | Whatever fails, no sequence of registrations changes or takes away a device's address, and rows stay unique |
| Saga.RegistrationLeavesNoStray | drone-fleet-manager/src/provisioning/provisioning.service.ts:200-232 | While removals take effect, no registration leaves a key in the kernel that is no row's, and a successful rotation's old key is gone, even if restoring fails |
| Saga.RefusedWithoutToken | drone-fleet-manager/src/provisioning/provisioning.service.ts:116-147 | A request without the configured token, or while none is configured, is refused with the matching error and changes nothing; so is a revoked device; a success carried the token and was for a device not revoked |
| Saga.WrongTokensLeaveNoTrace | drone-fleet-manager/src/provisioning/provisioning.service.ts:116-129 | In any sequence of calls, under any failures, leaving out those with a wrong token gives the same final state |
| Provisioning.ProvisioningService.RegisterDevice | drone-fleet-manager/src/provisioning/provisioning.service.ts:116-147 | Token, unknown, revoked and known devices each take their branch; state and outcome are those of the specified saga for every failure pattern |
| Provisioning.ProvisioningService.HandleNewProvisioning | drone-fleet-manager/src/provisioning/provisioning.service.ts:152-184 | First registration step by step, with rollback of the peer when the row cannot be stored |
| Provisioning.ProvisioningService.HandleReProvisioning | drone-fleet-manager/src/provisioning/provisioning.service.ts:190-237 | Rotation step by step, with both rollbacks |
| Interleaving.InterleavingTheorem | drone-fleet-manager/src/provisioning/provisioning.service.ts:116-237 | For any number of interleaved registrations with any failures and at most one rotation per device: rows keep distinct ids and addresses, successes for different devices never share an address, and every kernel key is foreign, a row's, an unfinished run's, or one whose removal failed |
| Interleaving.NextHolds | drone-fleet-manager/src/provisioning/provisioning.service.ts:116-237 | Every single step of every run keeps the invariant behind that theorem |
| Interleaving.AloneIsRegistration | drone-fleet-manager/src/provisioning/provisioning.service.ts:131-237 | A run that nobody interrupts is exactly the sequential registration from the lookup on, which a request with the right token reaches, for every failure pattern of the later calls |
| Ownership.OwnershipTheorem | drone-fleet-manager/src/provisioning/provisioning.service.ts:116-237 | While unfinished runs hold different addresses and restoring commands take effect, every row in use owns its address in the kernel except during its own rotation |
| Ownership.NextOwns | drone-fleet-manager/src/provisioning/provisioning.service.ts:116-237 | Each step keeps that ownership invariant under the same condition |
| Races.SharedAddressBreaks | drone-fleet-manager/src/provisioning/provisioning.service.ts:152-233 | Without that condition it fails: from every state in which two runs on the way to saving, first registrations or rotations, hold one address no row holds, a schedule without a failed command reports success to one and leaves its row without the address |
| Races.RaceIsReachable | drone-fleet-manager/src/provisioning/provisioning.service.ts:152-160 | Two first registrations that both read the table before either writes reach that state |
| Races.TwoRotationsLeaveStray | drone-fleet-manager/src/provisioning/provisioning.service.ts:190-237 | Two rotations of one device that both read its row can both report success, no command failing, and leave the first key in the kernel although no row and no unfinished run has it |
| Identity.RunKeeps | drone-fleet-manager/src/device/device.service.ts:59-165 | Over any run of create, update, kernel sync and bind with any failures device ids and addresses stay unique; while Redis accepts writes every active address maps to its device |
| Identity.KeysStayAddressed | drone-fleet-manager/src/device/device.service.ts:59-165 | Over any run of what the callers write, a row in use with a real key has an address, so a rotation never meets such a key without one |
| Identity.BindOutcome | drone-fleet-manager/src/device/device.service.ts:107-165 | After binding, the device holds the address, the row is the expected one with its key and model, nothing changed if it held the address, and otherwise nothing else but a different holder of the address, deleted or renamed |
| Identity.BindWithoutAddress | drone-fleet-manager/src/device/device.service.ts:107-165 | Without an address a known device stays as it is, an unknown one is stored without one, and a blank name does nothing |
| Identity.SyncOutcome | drone-fleet-manager/src/device/device.service.ts:59-101 | After synchronising a peer's address a row holds it with the peer's key: the former holder, else the row of its temporary name, else a new one; no other row changes, and nothing if the holder had the key |
| Identity.TrimCuts | drone-fleet-manager/src/device/device.service.ts:112-113 | A name is cut to the part between its outer blanks |
| Identity.WrittenMapCurrent | drone-fleet-manager/src/device/device.service.ts:262-304 | One accepted write keeps the address map current if and only if Redis took it or had nothing to learn |
| Identity.LoadMakesCurrent | drone-fleet-manager/src/device/device.service.ts:39-53 | Loading at start makes the address map current whatever it held |
| Devices.DeviceService.CreateDevice | drone-fleet-manager/src/device/device.service.ts:262-280 | Stores a row when both unique columns allow it and maps its address |
| Devices.DeviceService.UpdateDevice | drone-fleet-manager/src/device/device.service.ts:285-304 | Merges the given fields, skipping empty ones, and maps the address of the merged row |
| Devices.DeviceService.SyncManualKernelPeer | drone-fleet-manager/src/device/device.service.ts:59-101 | By address, then by temporary name, then as a new row |
| Devices.DeviceService.BindOrUpdateDeviceIdentity | drone-fleet-manager/src/device/device.service.ts:107-165 | Delete-then-move for a known device, rename for an unknown one, create otherwise |
| Devices.DeviceService.FindActiveOrPendingIps | drone-fleet-manager/src/device/device.service.ts:227-245 | Exactly the addresses of rows not revoked, each once |
| Devices.DeviceService.FindActiveDevices | drone-fleet-manager/src/device/device.service.ts:250-257 | Exactly the active rows with an address, each once |
| Devices.DeviceService.OnModuleInit | drone-fleet-manager/src/device/device.service.ts:39-53 | Maps every active address, in the order of the query; a failed query maps none |
| WireGuard.AllowOwnership | drone-fleet-manager/src/wireguard/wireguard.service.ts:85-94 | Setting a peer leaves it with exactly that address and takes only that address from others |
| WireGuard.RealKeyText | drone-fleet-manager/src/provisioning/provisioning.service.ts:44-51 | A real key is 43 letters, digits, plus signs or slashes and one equals sign, and no placeholder is one |
| WireGuard.AllowThenDrop | drone-fleet-manager/src/wireguard/wireguard.service.ts:85-113 | Adding and removing a new peer restores ownership if and only if the address was free |
| WireGuard.RestoreForgets | drone-fleet-manager/src/wireguard/wireguard.service.ts:85-113 | Replacing a peer, taking the new one out and putting the old one back equals just setting the old one |
| WireGuard.AllowIsNoop | drone-fleet-manager/src/wireguard/wireguard.service.ts:85-94 | Setting a peer changes nothing if and only if that address was all it owned |
| WireGuard.WireguardService.AddPeer | drone-fleet-manager/src/wireguard/wireguard.service.ts:85-94 | Sets the peer, or throws and changes nothing |
| WireGuard.WireguardService.RemovePeer | drone-fleet-manager/src/wireguard/wireguard.service.ts:100-113 | Skips placeholder keys and swallows failures |
| WireGuard.WireguardService.GetLivePeerStats | drone-fleet-manager/src/wireguard/wireguard.service.ts:146-188 | Lists every peer once with exactly its addresses; a failed command lists none |
| IpPool.AllocatorMatchesMatrix | drone-fleet-manager/src/dashboard/dashboard.service.ts:136-195 | The allocator returns the first available cell of the matrix and fails if and only if there is none |
| IpPool.StatsAgreeWithMatrix | drone-fleet-manager/src/ip-pool/ip-pool.service.ts:52-69 | The available count equals the number of available cells if and only if all used addresses are hosts 2 to 254 or the pool is exhausted |
| IpPool.AllocationStorable | drone-fleet-manager/src/ip-pool/ip-pool.service.ts:33-47 | A new device can be stored at the allocated address if and only if no revoked row still holds it |
| IpPool.AllocatedIsFree | drone-fleet-manager/src/ip-pool/ip-pool.service.ts:33-47 | An allocated address is in the pool and held by no waiting or active row |
| IpPool.IpPoolService.AllocateIp | drone-fleet-manager/src/ip-pool/ip-pool.service.ts:33-47 | The scan finds the lowest free host |
| IpPool.IpPoolService.GetPoolStats | drone-fleet-manager/src/ip-pool/ip-pool.service.ts:52-69 | Capacity and used count are cardinalities of address sets, available is their difference cut off at zero, utilization the nearest tenth of a percent |
| IpPool.IpPoolService.GetIpPoolMatrix | drone-fleet-manager/src/dashboard/dashboard.service.ts:136-195 | 254 cells in host order, active ones with name and model of a device that holds the address |
| Aggregator.AnnouncedIff | telemetry-ingestion-service/internal/state/aggregator.go:78-94 | A sweep announces a drone if and only if its last frame is over ten seconds old and no sweep since that frame announced it |
| Aggregator.AnnouncedOncePerOutage | telemetry-ingestion-service/internal/state/aggregator.go:78-94 | Between two announcements of a drone lies a frame of it |
| Aggregator.SilenceAnnounced | telemetry-ingestion-service/cmd/server/main.go:110-133 | With sweeps at most two seconds apart, a drone silent for twelve seconds has been announced between ten and twelve seconds after its last frame |
| Aggregator.TableTracks | telemetry-ingestion-service/internal/state/aggregator.go:26-62 | A payload carries the time of the drone's last frame and is connected until announced |
| Aggregator.ReadingsAreHistory | telemetry-ingestion-service/internal/state/aggregator.go:26-62 | Over every trace a drone's readings are its own known messages applied in order to the factory readings, across sweeps and other drones' frames |
| Aggregator.LabelsAreLastFrame | telemetry-ingestion-service/internal/state/aggregator.go:46-54 | Its system id, address, heartbeat and time stamp are those of its last frame, decodable or not |
| Aggregator.StateAggregator.UpdateState | telemetry-ingestion-service/internal/state/aggregator.go:26-62 | Creates or folds the payload; an unknown message still marks the drone as heard |
| Aggregator.StateAggregator.GetSnapshot | telemetry-ingestion-service/internal/state/aggregator.go:65-75 | The drone's payload as it stands, or nothing |
| Aggregator.StateAggregator.CheckHeartbeats | telemetry-ingestion-service/internal/state/aggregator.go:78-94 | Marks exactly the expired drones and lists each once with its new state |
| Filter.SuppressedIffClose | telemetry-ingestion-service/internal/state/filter.go:54-138 | A sample is suppressed if and only if it shares the critical fields of the last published one and is too soon after it or within every threshold of it, so drift cannot creep |
| Filter.SuppressedByNumbers | telemetry-ingestion-service/internal/state/filter.go:54-138 | The same with every threshold as a number; any other battery percentage publishes once the minimum interval is over |
| Filter.UnnamedNeverPublished | telemetry-ingestion-service/internal/state/filter.go:54-57 | A snapshot without a name is never published or remembered |
| Filter.SilenceBounded | telemetry-ingestion-service/internal/state/filter.go:90-94 | With samples at most g apart, publish gaps stay below the maximum interval plus g |
| Filter.RateBounded | telemetry-ingestion-service/internal/state/filter.go:85-88 | n ordinary publications after any publication need at least n minimum intervals, whatever critical ones come between |
| Filter.MinInterval | telemetry-ingestion-service/internal/state/filter.go:31-36 | The interval is the whole number of milliseconds with interval times rate at most 1000 and no larger one, and 50 for a rate that is not positive |
| Filter.DronesIndependent | telemetry-ingestion-service/internal/state/filter.go:54-144 | Decisions about one drone depend only on its own samples |
| Filter.TableIsHistory | telemetry-ingestion-service/internal/state/filter.go:140-144 | The table holds each drone's last published sample, never a suppressed one |
| Filter.HeadingDiffIsAngle | telemetry-ingestion-service/internal/state/filter.go:164-170 | On compass headings the difference is the least distance over whole turns, symmetric, zero only for equal directions |
| Filter.DeadbandFilter.ShouldPublish | telemetry-ingestion-service/internal/state/filter.go:54-138 | The chain of tests decides as specified and remembers exactly what it let through |
| PublisherRuns.QueuesConserve | telemetry-ingestion-service/internal/publisher/redis.go:100-148 | Over any run, what was accepted is what was flushed followed by what is queued, in order, on both queues, and neither exceeds 2000 |
| PublisherRuns.BatchingRefines | telemetry-ingestion-service/internal/publisher/redis.go:178-269 | While flushes succeed, the state hash is what publishing the flushed items one by one would give |
| PublisherRuns.FlushFanout | telemetry-ingestion-service/internal/publisher/redis.go:189-260 | A flush makes one snapshot and one liveness entry per telemetry item, and full messages exactly for focused drones, all in order |
| PublisherRuns.FlushStampsTaken | telemetry-ingestion-service/internal/publisher/redis.go:197-202 | A delivered flush sets the heartbeat of exactly the drones it took items of, to its own time in whole seconds |
| PublisherRuns.LitesThrottled | telemetry-ingestion-service/internal/publisher/redis.go:213-237 | Over any run lite messages about one drone are at least a second apart, on both channels |
| PublisherRuns.LiteSentIffDue | telemetry-ingestion-service/internal/publisher/redis.go:213-259 | A flush that takes an item of a drone sends exactly one lite message if none went out in the last second and none otherwise; raw ones only for drones not focused |
| PublisherRuns.LitesReportFirst | telemetry-ingestion-service/internal/publisher/redis.go:213-258 | Each lite message of a flush reports, field by field, the first item of its drone that the flush took; each raw lite message repeats the bytes of its drone's first frame taken |
| PublisherRuns.FlushesDrain | telemetry-ingestion-service/internal/publisher/redis.go:187-260 | Without new items every flush takes a hundred of each queue, or what is left |
| Publisher.RedisPublisher.PublishTelemetry | telemetry-ingestion-service/internal/publisher/redis.go:100-124 | Accepts at the end of the queue, or drops when full or unnamed |
| Publisher.RedisPublisher.PublishRawFrame | telemetry-ingestion-service/internal/publisher/redis.go:127-148 | The same for raw frames, which must not be empty |
| Publisher.RedisPublisher.FlushBatch | telemetry-ingestion-service/internal/publisher/redis.go:178-269 | The whole new state of a flush, of which any number of commands may have reached the server |
| Publisher.RedisPublisher.FlushRemaining | telemetry-ingestion-service/internal/publisher/redis.go:272-277 | Ends with both queues empty and nothing delivered |
| Publisher.RedisPublisher.SyncFocusSetOnce | telemetry-ingestion-service/internal/publisher/redis.go:301-325 | The focus map becomes exactly the set read; a failed read changes nothing |
| Liveness.PublishedLivenessIsTracked | telemetry-ingestion-service/cmd/server/main.go:120-133 | In every run without queue drops, the last queued payload of a drone has the connected flag of the aggregator at all times if and only if every frame that revives the drone is decodable |
| Liveness.ServerShowsTrackedLiveness | telemetry-ingestion-service/cmd/server/main.go:208-221 | Then, once the queue is drained and the flushes were delivered, the state hash shows that flag |
| Liveness.RevivalPublished | telemetry-ingestion-service/cmd/server/main.go:212-221 | The first frame of a drone, and the first after it was announced offline, passes the filter whenever it is decodable |
| Liveness.AgreementStep | telemetry-ingestion-service/cmd/server/main.go:120-133 | One frame, sweep, flush or focus update keeps that agreement unless it is an undecodable reviving frame, and then breaks it |
| Liveness.ConnectedNeverCritical | telemetry-ingestion-service/internal/state/filter.go:77-83 | In this wiring the filter's comparison of connected flags never decides anything |
| Liveness.RawFramesForwarded | telemetry-ingestion-service/cmd/server/main.go:199-206 | Over every run the raw queue has accepted, in order and under the resolved name, exactly the frames' bytes for which it had room, known message or not |
| Liveness.QueuedIsTracked | telemetry-ingestion-service/cmd/server/main.go:120-133 | What a frame or a sweep queues for a drone is the aggregator's state of it right after |
| Wiring.StatesAreAggregated | telemetry-ingestion-service/cmd/server/main.go:208-209 | In every run the tracked states are the aggregator's own on the frames and sweeps so far |
| Wiring.SentIsFiltered | telemetry-ingestion-service/cmd/server/main.go:212-216 | In every run the filter's table is its own on the decoded snapshots so far |
| Wiring.QueuedIffPublished | telemetry-ingestion-service/cmd/server/main.go:212-216 | A frame's snapshot is queued if and only if its message is known and the filter publishes it after the decoded snapshots before it |
| Pipeline.IngestionService.HandleFrame | telemetry-ingestion-service/cmd/server/main.go:178-221 | Ground station frames are skipped; otherwise resolve, queue the bytes, fold, filter and queue the snapshot |
| Execution.Serve | telemetry-ingestion-service/cmd/server/main.go:115-233 | Whatever schedule of frames, ticks, flushes and focus updates the service is given, its objects end in the last state of a chain of steps of the liveness model |
| Execution.HandleFrame | telemetry-ingestion-service/cmd/server/main.go:178-221 | Handling a frame that is not skipped is one step of the liveness model for the resolved device; a skipped one changes nothing |
| Execution.ChainIsRun | telemetry-ingestion-service/cmd/server/main.go:115-233 | Such a chain is a run of the model exactly while the clock does not go back and the queue has room |
| Pipeline.IngestionService.SweepHeartbeats | telemetry-ingestion-service/cmd/server/main.go:120-133 | Queues exactly the drones the sweep marks |
| Resolver.StalenessBounded | telemetry-ingestion-service/internal/resolver/resolver.go:40-75 | For every history of the map, an answer is a value held within the last five minutes, or the fallback name after a lookup without result within the last thirty seconds, or a mapping set within the last five minutes |
| Resolver.AnswerComesFrom | telemetry-ingestion-service/internal/resolver/resolver.go:45-52 | An answer comes from the call itself or from the last renewal of the address, not yet expired |
| Resolver.RenewalsAfterExpiry | telemetry-ingestion-service/internal/resolver/resolver.go:54-73 | The server is not asked again before every earlier entry of the address has expired, and later entries never expire earlier |
| Resolver.LearnedIsKept | telemetry-ingestion-service/internal/resolver/resolver.go:45-73 | For five minutes after a lookup found a name, and thirty seconds after one found none, every call gets that name or the fallback without asking the server, unless a mapping is set in between |
| Resolver.NoAddress | telemetry-ingestion-service/internal/resolver/resolver.go:41-43 | A call without an address gets the fixed name and leaves the cache alone |
| Resolver.NeverEmpty | telemetry-ingestion-service/internal/resolver/resolver.go:40-75 | An answer is empty only if an empty name was set |
| Resolver.IPResolver.Resolve | telemetry-ingestion-service/internal/resolver/resolver.go:40-75 | Cache hit, lookup with the long lifetime, fallback with the short one |
| Resolver.IPResolver.SetMapping | telemetry-ingestion-service/internal/resolver/resolver.go:78-88 | Overwrites the cache entry with the long lifetime, then the server's map unless that write fails |
| FleetCache.AtMostOneFetch | drone-fleet-manager/src/telemetry/telemetry.service.ts:271-285 | Over every interleaving at most one storage fetch is outstanding |
| FleetCache.HitIffFresh | drone-fleet-manager/src/telemetry/telemetry.service.ts:264-266 | A request is answered from the cache if and only if the last completed fetch gave a list that is not empty under 500 ms before |
| FleetCache.WaiterGets | drone-fleet-manager/src/telemetry/telemetry.service.ts:271-292 | A request that missed gets a list completed after it began, or after a failure the last completed one, or nothing if none ever completed |
| FleetCache.EveryoneWaits | drone-fleet-manager/src/telemetry/telemetry.service.ts:287-292 | Until the shared fetch settles every request waits for it and none starts another |
| FleetCache.FetchesSpaced | drone-fleet-manager/src/telemetry/telemetry.service.ts:264-278 | Fetches after a completed one that was not empty start at least 500 ms after its completion |
| FleetCache.FilterShowsExactlyVisible | drone-fleet-manager/src/telemetry/telemetry.service.ts:387-392 | A caller sees each device they may see as often as it is listed, nothing else, in list order |
| FleetCache.FilterShows | drone-fleet-manager/src/telemetry/telemetry.service.ts:387-392 | A caller who is no administrator is shown a device as often as it is listed if it carries their id, which is not empty, and never otherwise; an administrator, or nobody in particular, the list itself |
| FleetCache.PilotsShareNothing | drone-fleet-manager/src/telemetry/telemetry.service.ts:387-392 | Two such callers with different ids are never shown the same device, of whatever lists |
| FleetCache.EveryoneIsShownTheirOwn | drone-fleet-manager/src/telemetry/telemetry.service.ts:256-293 | Over every run, whatever path a request takes, its caller is shown their own part of one fetched list |
| FleetCache.TelemetryService.GetAllFleetStates | drone-fleet-manager/src/telemetry/telemetry.service.ts:256-289 | A request up to its await: answered with the caller's own part of the cache, joined, or leading a fetch |
| FleetCache.TelemetryService.ResumeFleetStates | drone-fleet-manager/src/telemetry/telemetry.service.ts:291-292 | After the await the caller gets their own part of what the fetch handed out |
| FleetCache.TelemetryService.FetchResolved | drone-fleet-manager/src/telemetry/telemetry.service.ts:274-278 | Stores the list, its time, and clears the promise |
| FleetCache.TelemetryService.FetchRejected | drone-fleet-manager/src/telemetry/telemetry.service.ts:279-283 | Clears the promise and hands out the cached list |
| Relay.FocusIsFollowed | drone-fleet-manager/src/telemetry/mavlink-relay.gateway.ts:226-294 | Over every interleaving of connects, split at the ownership check, and disconnects: no empty set, the issued commands focus exactly the drones with a registered socket, and none is added or removed twice in a row |
| Relay.RegisteredIffLetIn | drone-fleet-manager/src/telemetry/mavlink-relay.gateway.ts:162-229 | Over every run a socket follows a drone if and only if its last connection named it and brought a token, it was let in as an administrator or as a pilot by the first check since, and it has not disconnected after that |
| Relay.RefusedChangesNothing | drone-fleet-manager/src/telemetry/mavlink-relay.gateway.ts:171-216 | A connection without drone or token, or with a token that does not verify, changes followers, focus and waiting sockets in nothing |
| Relay.StaysRegisteredIff | drone-fleet-manager/src/telemetry/mavlink-relay.gateway.ts:199-229 | A socket that disconnected for good is still registered if and only if it disconnected while its check was waiting and the check then succeeded |
| Relay.GhostHoldsFocus | drone-fleet-manager/src/telemetry/mavlink-relay.gateway.ts:269-294 | Such a socket keeps its drone focused as long as it does not disconnect again |
| Relay.MavlinkRelayGateway.HandleConnection | drone-fleet-manager/src/telemetry/mavlink-relay.gateway.ts:162-252 | Refusals, administrators and pilots take their branches up to the device lookup |
| Relay.MavlinkRelayGateway.ResumeConnection | drone-fleet-manager/src/telemetry/mavlink-relay.gateway.ts:199-252 | After the lookup the socket is refused or registered |
| Relay.MavlinkRelayGateway.HandleDisconnect | drone-fleet-manager/src/telemetry/mavlink-relay.gateway.ts:269-294 | Removes the socket, and the drone with its last socket |
| SocketClient.PacketRoundTrip | pilot-bridge/src/bridge/WebSocketClient.cpp:317-333 | For every byte string and every event name that needs no escape, the packet built for it takes the event branch and raises exactly those bytes, or none if it is empty |
| SocketClient.EventDecodes | pilot-bridge/src/bridge/WebSocketClient.cpp:250-276 | Decoding an event printed as compact JSON gives the bytes its second argument stands for, for every event name and every argument of null, booleans, integers, strings and arrays |
| SocketClient.ArgumentBytes | pilot-bridge/src/bridge/WebSocketClient.cpp:257-275 | Text is Base64; in a list each number that fits an int gives the byte equal to it modulo 256 and any other item zero; anything else gives no bytes |
| SocketClient.TooFewArguments | pilot-bridge/src/bridge/WebSocketClient.cpp:250-256 | A packet without a JSON array, or with fewer than two items in it, carries no bytes |
| SocketClient.RepliesByPrefix | pilot-bridge/src/bridge/WebSocketClient.cpp:217-247 | A message starting with 0 is answered by joining the namespace, one starting with 2 by 3, any other by nothing; joining is announced for its prefix alone |
| SocketClient.ContainsIff | pilot-bridge/src/bridge/WebSocketClient.cpp:248-249 | Containing a text means having it at some position |
| SocketClient.PacketsDistinct | pilot-bridge/src/bridge/WebSocketClient.cpp:317-333 | Different data never share a packet of the same event |
| Codec.PrintParses | pilot-bridge/src/bridge/WebSocketClient.cpp:324-332 | Parsing undoes compact JSON printing of null, booleans, integers, strings with any characters and arrays, whatever text follows (after a bare number, one that does not go on with it) |
| Codec.EscapesWritten | pilot-bridge/src/bridge/WebSocketClient.cpp:324-332 | The escapes are written with the letters of section 7 of RFC 8259 |
| SocketClient.WebSocketClient.SendBinaryData | pilot-bridge/src/bridge/WebSocketClient.cpp:317-333 | Sends one packet if connected and the data is not empty |
| SocketClient.WebSocketClient.OnTextMessageReceived | pilot-bridge/src/bridge/WebSocketClient.cpp:211-280 | Prefixes are compared in the source's order; handshake and ping are answered, events decoded |
| Video.UpgradeIffThirdBetter | scripts/drone_stream_adaptive.sh:206-231 | Quality rises if and only if the probe is the third in a row, with only restarts between, that is better than the unchanged tier |
| Video.NeverAboveTarget | scripts/drone_stream_adaptive.sh:217-230 | After every probe the tier is at least the target, and a worse target is taken at once |
| Video.UpgradesBounded | scripts/drone_stream_adaptive.sh:223-228 | Upgrades number at most a third of the probes |
| Video.SteadyLinkSettles | scripts/drone_stream_adaptive.sh:217-230 | Three successive probes with the same target settle on it |
| Video.TargetMonotone | scripts/drone_stream_adaptive.sh:101-114 | A worse round trip or loss never gives a better tier, nor more bitrate or frames |
| Video.TierLimits | scripts/drone_stream_adaptive.sh:101-114 | Which round trips and losses give at most each tier, by the numbers |
| Video.WorseLinkSettings | scripts/drone_stream_adaptive.sh:117-136 | Bitrate and frame rate after a probe that found the link worse, by the numbers |
| Video.SettingsMatch | scripts/drone_stream_adaptive.sh:117-136 | Bitrate and frame rate are always those of the tier |
| Video.AdaptiveStreamer.Watch | scripts/drone_stream_adaptive.sh:194-231 | The loop over any list of rounds, with the settings of every pipeline it starts |

## Left out

- Startup.StartupService.SyncKernelPeersToDatabase: takes peers with their addresses; dump text, prefix lengths and handshake ages are not modelled.
- WireGuard.WireguardService.GetLivePeerStats: lists keys and addresses; endpoint, handshake, counters and the parsing of lines are not modelled.
- Devices.DeviceService.UpdateDevice: `lastSeen` is not a field of the model's rows; no modelled decision reads it.
- Devices.DeviceService.SyncManualKernelPeer: `lastSeen` from the handshake is not modelled, for the same reason.
- Devices.DeviceService.BindOrUpdateDeviceIdentity: `lastSeen` is not modelled, and trimming removes ASCII white space only.
- IpPool.IpPoolService.GetIpPoolMatrix: the `isOnline` flag of cells, read from telemetry, is not modelled.
- Publisher.RedisPublisher.PublishTelemetry: readings are real numbers, so JSON encoding cannot fail as it does for NaN.
- Pipeline.IngestionService.HandleFrame: one clock reading serves the whole frame, and channel time stamps are not modelled.
- Relay.MavlinkRelayGateway.HandleConnection: reading query and headers and verifying the token are a verdict parameter.
- Relay.MavlinkRelayGateway.ResumeConnection: the raw channel subscription of a first follower is not modelled.
- Relay.MavlinkRelayGateway.HandleDisconnect: the raw channel unsubscription is not modelled.
- SocketClient.WebSocketClient.OnTextMessageReceived: JSON objects, fractions, exponents and escaped surrogate pairs are unreadable to the model where Qt reads them; Base64 is an arbitrary function, UTF-8 the identity.
- Codec.PrintParses: covers null, booleans, integers, strings and arrays, the values the bridge writes and decodes.
- Key generation: the new key is a parameter, distinct from keys in use; comparing the token is equality, its timing is not modelled.
- Log text and the counters `restoredCount`, `skippedCount` and `syncedCount`.
- Revoking a device and every other change outside registration, start, creation, update, kernel sync and bind.
- Kernel and table agreement across `bindOrUpdateDeviceIdentity`, which moves and deletes rows without touching the kernel.
- Stale entries of `drone:ip_map`: only that active addresses map to their device is proved.
- Decoding of MAVLink fields: a message is an arbitrary change of the readings and a flag that says whether it is known.
- Floating point rounding, NaN (and so JSON encoding failures) and the haversine formula.
- Separate clock readings inside one frame or one flush; a frame, a sweep and a flush are atomic steps.
- UDP channel pruning, and the frame buffer that is copied on publishing.
- The aggregator's and filter's locks; their methods are atomic.
- Merging of database rows with telemetry in `fetchRawFleetFromStorage` and `normalizeTelemetryPayload`.
- Aliasing of cached fleet entries, whose `connected` flag later reads may change in place.
- The relay's `subscribedRawChannels`, which callbacks change, and its up- and downlink forwarding; JWT verification is a verdict parameter.
- `TelemetryGateway`, the second writer of `drone:focus_set`.
- Reconnection of the bridge, telemetry JSON, and the remaining widgets.
- Measuring the link, starting the video pipeline and the encoder control in the video script: a round is a restart or a pair of numbers.
- Dashboard pages, browser players, SSH, accounts and claims, deployment files.
